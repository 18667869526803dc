/**
 The inline script syntax of the `customcomic` and `customcomicsimple`
 commands: lines separated by `|`, each optionally prefixed by a speaker
 number and a colon, as in "Hello | 1: World | Yeah!".
 */
module InlineScript {
  import opened GoStrings
  import opened ComicScript

  /**
   One `|`-separated segment. It is trimmed of spaces; if it holds a colon it is
   split at every colon, the first field (trimmed) read with Atoi as the speaker
   (0 when not a number, negative numbers allowed) and the second field
   (trimmed) taken as the text, any further fields being dropped; otherwise the
   speaker is 0 and the text is the trimmed segment. Inline lines carry no author.
   */
  function ParseSegment(seg: string): (line: ScriptLine)
  {
    var trimmed := Trim(seg);
    if Index(trimmed, ':') != -1 then
      var fields := Split(trimmed, ':');
      ScriptLine(Atoi(Trim(fields[0])), Trim(fields[1]), "")
    else
      ScriptLine(0, trimmed, "")
  }

  /** The lines of an inline script: one per `|`-separated segment. */
  function ParseLines(str: string): (lines: seq<ScriptLine>)
    ensures |lines| == Count(str, '|') + 1
    ensures forall i :: 0 <= i < |lines| ==> lines[i] == ParseSegment(Split(str, '|')[i])
  {
    var segments := Split(str, '|');
    seq(|segments|, i requires 0 <= i < |segments| => ParseSegment(segments[i]))
  }

  /**
   A parsed line has no author, a text without colons and without spaces at its
   ends, and speaker 0 unless the trimmed segment holds a colon.
   */
  lemma SegmentShape(seg: string)
    ensures ParseSegment(seg).author == ""
    ensures ':' !in ParseSegment(seg).text
    ensures var t := ParseSegment(seg).text; t == [] || (t[0] != ' ' && t[|t| - 1] != ' ')
    ensures ':' !in Trim(seg) ==> ParseSegment(seg) == ScriptLine(0, Trim(seg), "")
  {
    var trimmed := Trim(seg);
    TrimShape(seg);
    if Index(trimmed, ':') != -1 {
      SplitPiecesFree(trimmed, ':');
      TrimKeepsChars(Split(trimmed, ':')[1]);
      TrimShape(Split(trimmed, ':')[1]);
    }
  }

  /** The parsing loop of the custom-comic command. */
  method ParseInline(str: string) returns (lines: seq<ScriptLine>)
    ensures lines == ParseLines(str)
  {
    var segments := Split(str, '|');
    ghost var all := ParseLines(str);
    lines := [];
    for i := 0 to |segments|
      invariant lines == all[..i]
    {
      var line := ParseSegment(segments[i]);
      assert all[..i + 1] == all[..i] + [line];
      lines := lines + [line];
    }
    assert all[..|segments|] == all;
  }

  /** Every inline script has at least one line, so the "no text" reply cannot be sent. */
  lemma NeverEmpty(str: string)
    ensures |ParseLines(str)| >= 1
    ensures str == [] ==> ParseLines(str) == [ScriptLine(0, [], [])]
  {
  }

  // ---------------------------------------------------------------------------
  // Segments, spelled out
  // ---------------------------------------------------------------------------

  /** A segment without a colon is spoken by speaker 0 and is its own trimmed text. */
  lemma SegmentWithoutColon(seg: string)
    requires ':' !in seg
    ensures ParseSegment(seg) == ScriptLine(0, Trim(seg), "")
  {
    TrimKeepsChars(seg);
  }

  /** The second field of "p:m" is `m` without its trailing spaces. */
  lemma LastField(m: string)
    requires ':' !in m
    ensures Split(TrimRight(m), ':') == [TrimRight(m)]
  {
    var right := TrimRight(m);
    assert ':' !in right by { TrimRightShape(m); assert right == m[..|right|]; }
    SplitWithoutSeparator(right, ':');
  }

  /** The second field of "p:m:…" is `m` itself. */
  lemma MiddleField(m: string, rest: string)
    requires ':' !in m && rest != [] && rest[0] == ':'
    ensures Split(TrimRight(m + rest), ':')[0] == m
  {
    assert !AllSpaces(rest) by { assert rest[0] != ' '; }
    TrimRightPrepend(m, rest);
    var r := TrimRight(rest);
    TrimRightKeepsFirst(rest);
    assert r == [':'] + r[1..];
    assert m + r == m + [':'] + r[1..];
    SplitAtFirst(m, r[1..], ':');
  }

  /** The first field after the colon, when the rest starts with a colon or is empty. */
  lemma SecondField(m: string, rest: string)
    requires ':' !in m
    requires rest == [] || rest[0] == ':'
    ensures Trim(Split(TrimRight(m + rest), ':')[0]) == Trim(m)
  {
    if rest == [] {
      assert m + rest == m;
      LastField(m);
      TrimAfterTrimRight(m);
    } else {
      MiddleField(m, rest);
    }
  }

  /** A segment whose trimmed form is "left:right", with no colon in `left`. */
  lemma SegmentFields(seg: string, left: string, right: string)
    requires Trim(seg) == left + [':'] + right && ':' !in left
    ensures ParseSegment(seg) == ScriptLine(Atoi(Trim(left)), Trim(Split(right, ':')[0]), "")
  {
    SplitAtFirst(left, right, ':');
    assert Trim(seg)[|left|] == ':';
  }

  /**
   A segment "p:m" or "p:m:…" with `p` and `m` free of colons is spoken by
   Atoi of the trimmed `p` and says the trimmed `m`.
   */
  lemma SegmentWithColon(p: string, m: string, rest: string)
    requires ':' !in p && ':' !in m
    requires rest == [] || rest[0] == ':'
    ensures ParseSegment(p + ":" + m + rest) == ScriptLine(Atoi(Trim(p)), Trim(m), "")
  {
    var seg := p + ":" + m + rest;
    assert seg == p + [':'] + (m + rest);
    TrimAround(p, ':', m + rest);
    var left := TrimLeft(p);
    assert ':' !in left by { TrimLeftShape(p); assert left == p[|p| - |left|..]; }
    SegmentFields(seg, left, TrimRight(m + rest));
    TrimLeftIdempotent(p);
    SecondField(m, rest);
  }

  // ---------------------------------------------------------------------------
  // Writing a script back out
  // ---------------------------------------------------------------------------

  /**
   A line the inline syntax can carry: a speaker that fits in an `int`, no
   separators in its text, no spaces at its ends, no author.
   */
  predicate Expressible(line: ScriptLine)
  {
    && MinInt <= line.speaker <= MaxInt
    && line.author == ""
    && ':' !in line.text && '|' !in line.text
    && (line.text == [] || (line.text[0] != ' ' && line.text[|line.text| - 1] != ' '))
  }

  /** "<speaker>:<text>". */
  function FormatLine(line: ScriptLine): string
  {
    Itoa(line.speaker) + ":" + line.text
  }

  /** The segments of `lines`, joined with `|`. */
  function FormatLines(lines: seq<ScriptLine>): string
    requires |lines| > 0
  {
    Join(seq(|lines|, i requires 0 <= i < |lines| => FormatLine(lines[i])), '|')
  }

  /** Itoa writes no space, colon or bar, and Trim leaves it alone. */
  lemma ItoaPlain(n: int)
    ensures ' ' !in Itoa(n) && ':' !in Itoa(n) && '|' !in Itoa(n)
    ensures Trim(Itoa(n)) == Itoa(n)
  {
    ItoaChars(n);
  }

  /** Reading back a formatted line gives the line. */
  lemma LineRoundTrip(line: ScriptLine)
    requires Expressible(line)
    ensures ParseSegment(FormatLine(line)) == line
  {
    ItoaPlain(line.speaker);
    SegmentWithColon(Itoa(line.speaker), line.text, []);
    assert FormatLine(line) == Itoa(line.speaker) + ":" + line.text + [];
    AtoiOfItoa(line.speaker);
    if line.text != [] {
      assert TrimLeft(line.text) == line.text;
    }
  }

  /** Reading back a formatted script gives the script. */
  lemma LinesRoundTrip(lines: seq<ScriptLine>)
    requires |lines| > 0
    requires forall i :: 0 <= i < |lines| ==> Expressible(lines[i])
    ensures ParseLines(FormatLines(lines)) == lines
  {
    var segments := seq(|lines|, i requires 0 <= i < |lines| => FormatLine(lines[i]));
    forall i | 0 <= i < |lines| ensures '|' !in segments[i] {
      ItoaPlain(lines[i].speaker);
    }
    SplitOfJoin(segments, '|');
    forall i | 0 <= i < |lines| ensures ParseSegment(segments[i]) == lines[i] {
      LineRoundTrip(lines[i]);
    }
  }

  // ---------------------------------------------------------------------------
  // The shapes of the command's help examples, and edge cases
  // ---------------------------------------------------------------------------

  /** A word the examples use: non-empty, no separators, no spaces at its ends. */
  predicate Plain(t: string)
  {
    t != [] && ':' !in t && '|' !in t && t[0] != ' ' && t[|t| - 1] != ' '
  }

  /** Three pieces joined with bars. */
  lemma JoinThree(s1: string, s2: string, s3: string)
    ensures Join([s1, s2, s3], '|') == s1 + "|" + s2 + "|" + s3
  {
    assert [s1, s2, s3][1..] == [s2, s3];
    assert [s2, s3][1..] == [s3];
    assert Join([s2, s3], '|') == s2 + "|" + s3;
  }

  /** " n: b " is the line of speaker n (saturated to an `int`) saying b. */
  lemma SpokenSegment(num: string, b: string, n: int)
    requires num == Itoa(n) && Plain(b)
    ensures ParseSegment(" " + num + ": " + b + " ") == ScriptLine(Saturate(n), b, "")
  {
    ItoaPlain(n);
    var p, m := " " + num, " " + b + " ";
    var seg := " " + num + ": " + b + " ";
    assert seg == p + ":" + m + [];
    SegmentWithColon(p, m, []);
    TrimPaddedLeft(num);
    TrimPaddedBoth(b);
    AtoiOfItoa(n);
  }

  /** Segments joined with bars parse segment by segment. */
  lemma ParseLinesOfJoin(segments: seq<string>)
    requires |segments| > 0
    requires forall i :: 0 <= i < |segments| ==> '|' !in segments[i]
    ensures |ParseLines(Join(segments, '|'))| == |segments|
    ensures forall i :: 0 <= i < |segments| ==> ParseLines(Join(segments, '|'))[i] == ParseSegment(segments[i])
  {
    SplitOfJoin(segments, '|');
  }

  /** Three bar-free segments joined with bars parse as three lines. */
  lemma ThreeSegments(s1: string, s2: string, s3: string)
    requires '|' !in s1 && '|' !in s2 && '|' !in s3
    ensures var r := ParseLines(s1 + "|" + s2 + "|" + s3);
            |r| == 3 && r[0] == ParseSegment(s1) && r[1] == ParseSegment(s2) && r[2] == ParseSegment(s3)
  {
    var segments := [s1, s2, s3];
    JoinThree(s1, s2, s3);
    ParseLinesOfJoin(segments);
  }

  /** "a | b", the shape of "Foo | Bar", is two lines, both by speaker 0. */
  lemma TwoLineExample(a: string, b: string)
    requires Plain(a) && Plain(b)
    ensures var r := ParseLines(a + " | " + b);
            |r| == 2 && r[0] == ScriptLine(0, a, "") && r[1] == ScriptLine(0, b, "")
  {
    var s1, s2 := a + " ", " " + b;
    assert a + " | " + b == s1 + "|" + s2;
    assert Join([s1, s2], '|') == s1 + "|" + s2 by { assert [s1, s2][1..] == [s2]; }
    ParseLinesOfJoin([s1, s2]);
    TrimPaddedRight(a);
    SegmentWithoutColon(s1);
    TrimPaddedLeft(b);
    SegmentWithoutColon(s2);
  }

  lemma ThreeLineText(a: string, num: string, b: string, c: string)
    ensures a + " | " + num + ": " + b + " | " + c == (a + " ") + "|" + (" " + num + ": " + b + " ") + "|" + (" " + c)
  {
  }

  /**
   "a | n: b | c", the shape of "Hello | 1: World | Yeah!", is three lines, the
   middle one by speaker n (saturated to an `int`) and the others by speaker 0.
   */
  lemma ThreeLineExample(a: string, b: string, c: string, n: int)
    requires Plain(a) && Plain(b) && Plain(c)
    ensures var r := ParseLines(a + " | " + Itoa(n) + ": " + b + " | " + c);
            |r| == 3 && r[0] == ScriptLine(0, a, "") && r[1] == ScriptLine(Saturate(n), b, "") && r[2] == ScriptLine(0, c, "")
  {
    var num := Itoa(n);
    ThreeLineText(a, num, b, c);
    ItoaPlain(n);
    ThreeSegments(a + " ", " " + num + ": " + b + " ", " " + c);
    SpokenSegment(num, b, n);
    TrimPaddedRight(a);
    SegmentWithoutColon(a + " ");
    TrimPaddedLeft(c);
    SegmentWithoutColon(" " + c);
  }

  /** Fields after the second colon are dropped: "n: b: c" is the line of speaker n saying b. */
  lemma ExtraColonsDropped(b: string, c: string, n: int)
    requires Plain(b) && '|' !in c
    ensures ParseLines(Itoa(n) + ": " + b + ":" + c) == [ScriptLine(Saturate(n), b, "")]
  {
    var num := Itoa(n);
    ItoaPlain(n);
    var seg := num + ": " + b + ":" + c;
    SplitWithoutSeparator(seg, '|');
    var p, m, rest := num, " " + b, ":" + c;
    assert seg == p + ":" + m + rest;
    SegmentWithColon(p, m, rest);
    TrimPaddedLeft(b);
    AtoiOfItoa(n);
  }

  /**
   A speaker field that is not a number, such as "x" in "x: y", means speaker
   0 when it is at most 20 characters long once trimmed; a longer one that
   starts with more digits than fit in 64 bits means a bound of `int`.
   */
  lemma NonNumericSpeaker(p: string, m: string)
    requires ':' !in p && ':' !in m
    requires Trim(p) == [] || !IsDigit(Trim(p)[|Trim(p)| - 1])
    ensures var line := ParseSegment(p + ":" + m);
            line.text == Trim(m) && line.author == "" &&
            (line.speaker == 0 || line.speaker == MaxInt || line.speaker == MinInt)
    ensures |Trim(p)| <= 20 ==> ParseSegment(p + ":" + m) == ScriptLine(0, Trim(m), "")
  {
    assert p + ":" + m == p + ":" + m + [];
    SegmentWithColon(p, m, []);
    AtoiNonNumeric(Trim(p));
  }

  /**
   A speaker field starting with digits worth more than 2^64 - 1 means the
   largest `int`, whatever text follows the digits.
   */
  lemma OverflowingSpeaker(d: string, rest: string, m: string)
    requires IsDigits(d) && DigitsValue(d) > MaxUint
    requires ':' !in d && ':' !in rest && ':' !in m
    ensures ParseSegment(d + rest + ":" + m) == ScriptLine(MaxInt, Trim(m), "")
  {
    var p := d + rest;
    assert p + ":" + m == p + ":" + m + [];
    SegmentWithColon(p, m, []);
    TrimLeftAppend([], p);
    assert [] + p == p;
    TrimRightPrepend(d, rest);
    AtoiOverflowFirst(d, TrimRight(rest));
  }
}
