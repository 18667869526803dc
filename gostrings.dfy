/**
 The functions of Go's `strings` and `strconv` packages that the comic plugin
 calls (`strings.Split`, `strings.Trim`, `strings.Index` and `strconv.Atoi`),
 restricted to one-character separators and to the space cut-set used there,
 together with `Count`, `Join` and `Itoa`, which the plugin does not call: they
 state how many pieces a split gives and serve as the inverses in round trips.
 Go strings are byte strings; every separator involved is ASCII, so a string is
 modelled as a sequence of characters.
 */
module GoStrings {

  datatype Option<T> = None | Some(value: T)

  /** All characters of `s` are the space character. */
  predicate AllSpaces(s: string) {
    forall i :: 0 <= i < |s| ==> s[i] == ' '
  }

  // ---------------------------------------------------------------------------
  // strings.Index and strings.Split, with the helpers Count and Join
  // ---------------------------------------------------------------------------

  /** `strings.Index(s, string(c))`: the position of the first `c`, or -1. */
  function Index(s: string, c: char): (r: int)
    ensures -1 <= r < |s|
    ensures r == -1 <==> c !in s
    ensures 0 <= r ==> s[r] == c && c !in s[..r]
  {
    if s == [] then -1
    else if s[0] == c then 0
    else
      var k := Index(s[1..], c);
      assert s[1..][..k + 1] == s[..k + 2][1..] by { if k >= 0 { assert s[..k + 2][1..] == s[1..k + 2]; } }
      if k == -1 then -1 else k + 1
  }

  /** Number of occurrences of `c` in `s` (a helper: the plugin does not count). */
  function Count(s: string, c: char): (n: nat)
    ensures n <= |s|
    ensures n == 0 <==> c !in s
  {
    if s == [] then 0
    else (if s[0] == c then 1 else 0) + Count(s[1..], c)
  }

  /**
   `strings.Split(s, string(sep))`: the pieces of `s` between occurrences of
   `sep`. As in Go, the empty string splits into one empty piece.
   */
  function Split(s: string, sep: char): (parts: seq<string>)
    ensures |parts| == Count(s, sep) + 1
  {
    if s == [] then [[]]
    else
      var rest := Split(s[1..], sep);
      if s[0] == sep then [[]] + rest
      else [[s[0]] + rest[0]] + rest[1..]
  }

  /** No piece of a split holds the separator. */
  lemma {:induction false} SplitPiecesFree(s: string, sep: char)
    ensures forall i :: 0 <= i < |Split(s, sep)| ==> sep !in Split(s, sep)[i]
  {
    if s != [] {
      SplitPiecesFree(s[1..], sep);
      var rest := Split(s[1..], sep);
      if s[0] != sep {
        assert sep !in [s[0]] + rest[0];
        assert forall i :: 1 <= i < |Split(s, sep)| ==> Split(s, sep)[i] == rest[i];
      }
    }
  }

  /**
   `strings.Join(parts, string(sep))` on a non-empty list: a helper, the inverse
   of Split; the plugin does not call it.
   */
  function Join(parts: seq<string>, sep: char): string
    requires |parts| > 0
  {
    if |parts| == 1 then parts[0] else parts[0] + [sep] + Join(parts[1..], sep)
  }

  /** Joining the pieces of a split gives back the original string. */
  lemma {:induction false} JoinOfSplit(s: string, sep: char)
    ensures Join(Split(s, sep), sep) == s
  {
    if s != [] {
      var rest := Split(s[1..], sep);
      JoinOfSplit(s[1..], sep);
      if s[0] == sep {
        JoinPrependEmpty(rest, sep);
      } else {
        JoinPrependChar(s[0], rest, sep);
      }
      assert [s[0]] + s[1..] == s;
    }
  }

  lemma JoinPrependEmpty(parts: seq<string>, sep: char)
    requires |parts| > 0
    ensures Join([[]] + parts, sep) == [sep] + Join(parts, sep)
  {
    var q := [[]] + parts;
    assert q[1..] == parts;
  }

  lemma JoinPrependChar(c: char, parts: seq<string>, sep: char)
    requires |parts| > 0
    ensures Join([[c] + parts[0]] + parts[1..], sep) == [c] + Join(parts, sep)
  {
    var q := [[c] + parts[0]] + parts[1..];
    if |parts| == 1 {
      assert q == [[c] + parts[0]];
    } else {
      assert q[1..] == parts[1..];
    }
  }

  /** A string without the separator is one piece. */
  lemma {:induction false} SplitWithoutSeparator(s: string, sep: char)
    requires sep !in s
    ensures Split(s, sep) == [s]
  {
    if s != [] {
      assert sep !in s[1..] by { assert forall x :: x in s[1..] ==> x in s; }
      SplitWithoutSeparator(s[1..], sep);
      assert [s[0]] + s[1..] == s;
    }
  }

  /** Splitting `a + sep + b` with `a` free of the separator peels off `a`. */
  lemma {:induction false} SplitAtFirst(a: string, b: string, sep: char)
    requires sep !in a
    ensures Split(a + [sep] + b, sep) == [a] + Split(b, sep)
  {
    if a == [] {
      assert a + [sep] + b == [sep] + b;
      SplitSeparatorFirst(b, sep);
    } else {
      var t := a[1..] + [sep] + b;
      assert a + [sep] + b == [a[0]] + t;
      assert sep !in a[1..] by { assert forall x :: x in a[1..] ==> x in a; }
      SplitAtFirst(a[1..], b, sep);
      SplitOtherFirst(a[0], t, sep);
      assert [a[0]] + a[1..] == a;
    }
  }

  lemma SplitSeparatorFirst(t: string, sep: char)
    ensures Split([sep] + t, sep) == [[]] + Split(t, sep)
  {
    assert ([sep] + t)[1..] == t;
  }

  lemma SplitOtherFirst(c: char, t: string, sep: char)
    requires c != sep
    ensures Split([c] + t, sep) == [[c] + Split(t, sep)[0]] + Split(t, sep)[1..]
  {
    assert ([c] + t)[1..] == t;
  }

  /** Splitting a join of separator-free pieces gives back the pieces. */
  lemma {:induction false} SplitOfJoin(parts: seq<string>, sep: char)
    requires |parts| > 0
    requires forall i :: 0 <= i < |parts| ==> sep !in parts[i]
    ensures Split(Join(parts, sep), sep) == parts
  {
    if |parts| == 1 {
      SplitWithoutSeparator(parts[0], sep);
    } else {
      SplitOfJoin(parts[1..], sep);
      SplitAtFirst(parts[0], Join(parts[1..], sep), sep);
      assert [parts[0]] + parts[1..] == parts;
    }
  }

  // ---------------------------------------------------------------------------
  // strings.TrimLeft, strings.TrimRight and strings.Trim with cut-set " "
  // ---------------------------------------------------------------------------

  /** `strings.TrimLeft(s, " ")`: drop the leading spaces. */
  function TrimLeft(s: string): string
  {
    if s != [] && s[0] == ' ' then TrimLeft(s[1..]) else s
  }

  /** `strings.TrimRight(s, " ")`: drop the trailing spaces. */
  function TrimRight(s: string): string
  {
    if s != [] && s[|s| - 1] == ' ' then TrimRight(s[..|s| - 1]) else s
  }

  /**
   `strings.Trim(s, " ")`: the leading and the trailing spaces dropped. Go
   trims the right end first; the order does not matter (TrimLeftRightCommute).
   Only the space character is removed, no other white space.
   */
  function Trim(s: string): string
  {
    TrimRight(TrimLeft(s))
  }

  /** Left trimming keeps a suffix, removes only spaces, and stops at a non-space. */
  lemma {:induction false} TrimLeftShape(s: string)
    ensures var r := TrimLeft(s);
      && |r| <= |s| && r == s[|s| - |r|..]
      && AllSpaces(s[..|s| - |r|])
      && (r != [] ==> r[0] != ' ')
  {
    if s != [] && s[0] == ' ' {
      TrimLeftShape(s[1..]);
      var r := TrimLeft(s[1..]);
      assert s[1..][|s| - 1 - |r|..] == s[|s| - |r|..];
      var pre := s[..|s| - |r|];
      forall i | 0 <= i < |pre| ensures pre[i] == ' ' {
        if i > 0 {
          assert pre[i] == s[1..][..|s| - 1 - |r|][i - 1];
        }
      }
    }
  }

  /** Right trimming keeps a prefix, removes only spaces, and stops at a non-space. */
  lemma {:induction false} TrimRightShape(s: string)
    ensures var r := TrimRight(s);
      && |r| <= |s| && r == s[..|r|]
      && AllSpaces(s[|r|..])
      && (r != [] ==> r[|r| - 1] != ' ')
  {
    if s != [] && s[|s| - 1] == ' ' {
      var t := s[..|s| - 1];
      TrimRightShape(t);
      var r := TrimRight(t);
      assert t[..|r|] == s[..|r|];
      var post := s[|r|..];
      forall i | 0 <= i < |post| ensures post[i] == ' ' {
        if i < |s| - 1 - |r| {
          assert post[i] == t[|r|..][i];
        }
      }
    }
  }

  lemma TrimLeftEmpty(s: string)
    ensures TrimLeft(s) == [] <==> AllSpaces(s)
  {
    TrimLeftShape(s);
    assert s == s[..|s| - |TrimLeft(s)|] + TrimLeft(s);
  }

  lemma TrimRightEmpty(s: string)
    ensures TrimRight(s) == [] <==> AllSpaces(s)
  {
    TrimRightShape(s);
    assert s == TrimRight(s) + s[|TrimRight(s)|..];
  }

  /** Trimming gives "" exactly for a string of spaces, and otherwise a string with non-space ends. */
  lemma TrimShape(s: string)
    ensures Trim(s) == [] <==> AllSpaces(s)
    ensures Trim(s) != [] ==> Trim(s)[0] != ' ' && Trim(s)[|Trim(s)| - 1] != ' '
  {
    var left := TrimLeft(s);
    TrimLeftShape(s);
    TrimLeftEmpty(s);
    TrimRightShape(left);
    TrimRightEmpty(left);
    assert left != [] ==> !AllSpaces(left) by { if left != [] { assert left[0] != ' '; } }
  }

  /** Trimming removes characters and adds none. */
  lemma TrimKeepsChars(s: string)
    ensures forall x :: x in Trim(s) ==> x in s
  {
    var left := TrimLeft(s);
    TrimLeftShape(s);
    TrimRightShape(left);
    assert s == s[..|s| - |left|] + left;
    assert left == TrimRight(left) + left[|TrimRight(left)|..];
  }

  /** Left trimming is not affected by what follows a non-space character. */
  lemma {:induction false} TrimLeftAppend(a: string, b: string)
    requires b != [] && b[0] != ' '
    ensures TrimLeft(a + b) == TrimLeft(a) + b
  {
    if a != [] {
      assert (a + b)[1..] == a[1..] + b;
      TrimLeftAppend(a[1..], b);
    } else {
      assert a + b == b;
    }
  }

  /**
   Right trimming does not reach into `a` when `a` ends in a non-space
   character or `b` is not all spaces.
   */
  lemma {:induction false} TrimRightPrepend(a: string, b: string)
    requires (a != [] && a[|a| - 1] != ' ') || !AllSpaces(b)
    ensures TrimRight(a + b) == a + TrimRight(b)
  {
    if b != [] {
      assert (a + b)[..|a + b| - 1] == a + b[..|b| - 1];
      if b[|b| - 1] == ' ' {
        assert !AllSpaces(b) ==> !AllSpaces(b[..|b| - 1]);
        TrimRightPrepend(a, b[..|b| - 1]);
      }
    } else {
      assert a + b == a;
    }
  }

  /** Right trimming keeps a leading non-space character. */
  lemma TrimRightKeepsFirst(s: string)
    requires s != [] && s[0] != ' '
    ensures TrimRight(s) != [] && TrimRight(s)[0] == s[0]
  {
    TrimRightEmpty(s);
    TrimRightShape(s);
    assert !AllSpaces(s);
  }

  /** Left trimming skips a leading space. */
  lemma TrimLeftSpace(x: string)
    ensures TrimLeft([' '] + x) == TrimLeft(x)
  {
    assert ([' '] + x)[1..] == x;
  }

  /** The two trims commute. */
  lemma {:induction false} TrimLeftRightCommute(s: string)
    ensures TrimLeft(TrimRight(s)) == TrimRight(TrimLeft(s))
  {
    if s != [] && s[0] == ' ' {
      var t := s[1..];
      assert s == [' '] + t;
      assert TrimLeft(s) == TrimLeft(t);
      if AllSpaces(t) {
        assert AllSpaces(s);
        TrimRightEmpty(s);
        TrimLeftEmpty(s);
      } else {
        TrimRightPrepend([' '], t);
        TrimLeftSpace(TrimRight(t));
        TrimLeftRightCommute(t);
      }
    } else if s != [] {
      TrimRightEmpty(s);
      TrimRightShape(s);
      assert !AllSpaces(s);
      var r := TrimRight(s);
      assert r[0] == s[0];
    }
  }

  /** Trimming twice is trimming once. */
  lemma TrimIdempotent(s: string)
    ensures Trim(Trim(s)) == Trim(s)
  {
    var t := Trim(s);
    TrimShape(s);
    if t != [] {
      assert TrimLeft(t) == t;
      assert TrimRight(t) == t;
    }
  }

  /** Trimming strips exactly a run of spaces at each end and keeps the middle. */
  lemma TrimStripsSpaces(s: string) returns (pre: string, post: string)
    ensures s == pre + Trim(s) + post
    ensures AllSpaces(pre) && AllSpaces(post)
  {
    var left := TrimLeft(s);
    var r := TrimRight(left);
    TrimLeftShape(s);
    TrimRightShape(left);
    pre, post := s[..|s| - |left|], left[|r|..];
    assert s == pre + left;
    assert left == r + post;
    assert s == pre + r + post;
  }

  lemma TrimLeftIdempotent(s: string)
    ensures TrimLeft(TrimLeft(s)) == TrimLeft(s)
  {
  }

  lemma TrimRightIdempotent(s: string)
    ensures TrimRight(TrimRight(s)) == TrimRight(s)
  {
  }

  /** Trimming the right end first does not change the trimmed string. */
  lemma TrimAfterTrimRight(m: string)
    ensures Trim(TrimRight(m)) == Trim(m)
  {
    TrimLeftRightCommute(m);
    TrimRightIdempotent(TrimLeft(m));
  }

  lemma TrimLeftBefore(p: string, c: char, after: string)
    requires c != ' '
    ensures TrimLeft(p + [c] + after) == TrimLeft(p) + [c] + after
  {
    var tail := [c] + after;
    assert p + [c] + after == p + tail;
    TrimLeftAppend(p, tail);
  }

  lemma TrimRightAfter(left: string, c: char, after: string)
    requires c != ' '
    ensures TrimRight(left + [c] + after) == left + [c] + TrimRight(after)
  {
    TrimRightPrepend(left + [c], after);
  }

  /** Trimming "p", a non-space `c`, then "after": the left of `p` and the right of `after` are trimmed. */
  lemma TrimAround(p: string, c: char, after: string)
    requires c != ' '
    ensures Trim(p + [c] + after) == TrimLeft(p) + [c] + TrimRight(after)
  {
    TrimLeftBefore(p, c, after);
    TrimRightAfter(TrimLeft(p), c, after);
  }

  lemma TrimUnpadded(t: string)
    requires t != [] && t[0] != ' ' && t[|t| - 1] != ' '
    ensures TrimLeft(t) == t && TrimRight(t) == t
  {
  }

  lemma TrimRightSpace(t: string)
    ensures TrimRight(t + " ") == TrimRight(t)
  {
    assert (t + " ")[..|t|] == t;
  }

  lemma TrimLeftUnpadded(t: string)
    requires t != [] && t[0] != ' '
    ensures TrimLeft(t + " ") == t + " "
  {
    assert (t + " ")[0] == t[0];
  }

  /** A trailing space is trimmed away. */
  lemma TrimPaddedRight(t: string)
    requires t != [] && t[0] != ' ' && t[|t| - 1] != ' '
    ensures Trim(t + " ") == t
  {
    TrimUnpadded(t);
    TrimLeftUnpadded(t);
    TrimRightSpace(t);
  }

  /** A leading space is trimmed away. */
  lemma TrimPaddedLeft(t: string)
    requires t != [] && t[0] != ' ' && t[|t| - 1] != ' '
    ensures Trim(" " + t) == t
  {
    TrimUnpadded(t);
    TrimLeftSpace(t);
    assert " " + t == [' '] + t;
  }

  /** A space at each end is trimmed away. */
  lemma TrimPaddedBoth(t: string)
    requires t != [] && t[0] != ' ' && t[|t| - 1] != ' '
    ensures Trim(" " + t + " ") == t
  {
    var u := t + " ";
    var x := " " + t + " ";
    assert x == [' '] + u;
    TrimLeftSpace(u);
    TrimLeftUnpadded(t);
    assert TrimLeft(x) == u;
    TrimRightSpace(t);
    TrimUnpadded(t);
    assert TrimRight(u) == t;
  }

  // ---------------------------------------------------------------------------
  // strconv.Atoi, with Go's `int` taken to be 64 bits wide
  // ---------------------------------------------------------------------------

  const MinInt: int := -0x8000_0000_0000_0000
  const MaxInt: int := 0x7fff_ffff_ffff_ffff

  /** What `strconv.Atoi` returns for a number out of range: the nearest bound. */
  function Saturate(n: int): (r: int)
    ensures MinInt <= r <= MaxInt
    ensures MinInt <= n <= MaxInt ==> r == n
    ensures n > MaxInt ==> r == MaxInt
    ensures n < MinInt ==> r == MinInt
  {
    if n > MaxInt then MaxInt else if n < MinInt then MinInt else n
  }

  predicate IsDigit(ch: char) {
    '0' <= ch <= '9'
  }

  /** A non-empty run of decimal digits. */
  predicate IsDigits(s: string) {
    |s| > 0 && forall i :: 0 <= i < |s| ==> IsDigit(s[i])
  }

  /** The value of a string of decimal digits, most significant digit first. */
  function DigitsValue(s: string): nat
    requires forall i :: 0 <= i < |s| ==> IsDigit(s[i])
  {
    if s == [] then 0
    else
      var last := s[|s| - 1];
      assert IsDigit(last);
      DigitsValue(s[..|s| - 1]) * 10 + (last as int - '0' as int)
  }

  /**
   The syntax `strconv.Atoi(s)` accepts: an optional `+` or `-` followed by at
   least one decimal digit, and nothing else (no white space), read as an
   unbounded integer.
   */
  function ParseInt(s: string): Option<int>
  {
    if |s| > 0 && (s[0] == '+' || s[0] == '-') then
      if IsDigits(s[1..]) then
        var magnitude: int := DigitsValue(s[1..]);
        Some(if s[0] == '-' then -magnitude else magnitude)
      else None
    else if IsDigits(s) then Some(DigitsValue(s))
    else None
  }

  const MaxUint: int := 0xffff_ffff_ffff_ffff

  /** How Go's unsigned decimal parser ends: with a value, a syntax error or a range error. */
  datatype UintScan = Value(n: nat) | SyntaxError | RangeError

  /**
   Go's unsigned decimal parser at index `k` of `s`, all of `s[..k]` being
   digits that have been read: the accumulated value is `DigitsValue(s[..k])`.
   A non-digit is a syntax error. A digit that takes the value past 2^64 - 1
   is a range error at once, whatever follows it.
   */
  function ScanDigits(s: string, k: nat): (r: UintScan)
    requires k <= |s| && (forall i :: 0 <= i < k ==> IsDigit(s[i]))
    requires DigitsValue(s[..k]) <= MaxUint
    ensures r.Value? ==> (forall i :: 0 <= i < |s| ==> IsDigit(s[i])) && r.n == DigitsValue(s)
    decreases |s| - k
  {
    if k == |s| then
      assert s[..k] == s;
      Value(DigitsValue(s))
    else if !IsDigit(s[k]) then SyntaxError
    else if DigitsValue(s[..k + 1]) > MaxUint then RangeError
    else ScanDigits(s, k + 1)
  }

  /** `strconv.ParseUint(s, 10, 64)`: the empty string is a syntax error. */
  function ParseUint(s: string): UintScan
  {
    if s == [] then SyntaxError
    else
      assert s[..0] == [];
      ScanDigits(s, 0)
  }

  /**
   `n, _ := strconv.Atoi(s)`, through `strconv.ParseInt(s, 10, 0)`: an optional
   sign, then the unsigned parser on the rest. A syntax error gives 0. A range
   error, or a magnitude beyond a 64-bit `int`, gives the bound on the side of
   the sign (Go reports a range error along with it, which the plugin
   discards). Go's shortcut for strings under 19 bytes gives the same results,
   since no number that short is out of range.
   */
  function Atoi(s: string): int
  {
    if s == [] then 0
    else
      var negative := s[0] == '-';
      var digits := if s[0] == '+' || s[0] == '-' then s[1..] else s;
      match ParseUint(digits)
      case SyntaxError => 0
      case RangeError => if negative then MinInt else MaxInt
      case Value(u) =>
        if negative then (if u > -MinInt then MinInt else -(u as int))
        else (if u > MaxInt then MaxInt else u)
  }

  /** Decimal digits of a natural number, without leading zeros. */
  function DecimalDigits(n: nat): (s: string)
    ensures IsDigits(s)
  {
    var d := ['0' + (n % 10) as char];
    if n < 10 then d else DecimalDigits(n / 10) + d
  }

  /**
   `strconv.Itoa(n)`. The plugin does not call it; it is the inverse used to
   state what Atoi reads back.
   */
  function Itoa(n: int): string
  {
    if n < 0 then "-" + DecimalDigits(-n) else DecimalDigits(n)
  }

  lemma {:induction false} DigitsValueOfDecimal(n: nat)
    ensures DigitsValue(DecimalDigits(n)) == n
  {
    var s := DecimalDigits(n);
    if n >= 10 {
      DigitsValueOfDecimal(n / 10);
      assert s[..|s| - 1] == DecimalDigits(n / 10);
    }
  }

  lemma DecimalDigitsChars(n: nat)
    ensures forall x :: x in DecimalDigits(n) ==> IsDigit(x)
  {
    var s := DecimalDigits(n);
    forall x | x in s ensures IsDigit(x) {
      var i :| 0 <= i < |s| && s[i] == x;
    }
  }

  /** Itoa writes only digits and a minus sign, so Trim leaves it alone. */
  lemma ItoaChars(n: int)
    ensures forall x :: x in Itoa(n) ==> x == '-' || IsDigit(x)
    ensures Trim(Itoa(n)) == Itoa(n)
  {
    var s := Itoa(n);
    DecimalDigitsChars(if n < 0 then -n else n);
    assert s[0] != ' ' && s[|s| - 1] != ' ';
  }

  /** The syntax of Atoi reads back what Itoa writes. */
  lemma ParseIntOfItoa(n: int)
    ensures ParseInt(Itoa(n)) == Some(n)
  {
    if n < 0 {
      DigitsValueOfDecimal(-n);
      assert Itoa(n)[1..] == DecimalDigits(-n);
    } else {
      DigitsValueOfDecimal(n);
    }
  }

  function Pow10(k: nat): (p: nat)
    ensures p > 0
  {
    if k == 0 then 1 else 10 * Pow10(k - 1)
  }

  lemma Pow10Nineteen()
    ensures Pow10(19) == 10_000_000_000_000_000_000
  {
    assert Pow10(10) == 10_000_000_000;
  }

  /** A prefix of a digit string has no greater value. */
  lemma {:induction false} DigitsValuePrefix(s: string, k: nat)
    requires k <= |s| && forall i :: 0 <= i < |s| ==> IsDigit(s[i])
    ensures DigitsValue(s[..k]) <= DigitsValue(s)
    decreases |s|
  {
    if k < |s| {
      var t := s[..|s| - 1];
      assert t[..k] == s[..k];
      assert DigitsValue(s) == DigitsValue(t) * 10 + (s[|s| - 1] as int - '0' as int);
      DigitsValuePrefix(t, k);
    } else {
      assert s[..k] == s;
    }
  }

  /** `k` digits have a value below 10^k. */
  lemma {:induction false} DigitsValueBelow(s: string)
    requires forall i :: 0 <= i < |s| ==> IsDigit(s[i])
    ensures DigitsValue(s) < Pow10(|s|)
  {
    if s != [] {
      DigitsValueBelow(s[..|s| - 1]);
    }
  }

  lemma {:induction false} Pow10Grows(j: nat, k: nat)
    requires j <= k
    ensures Pow10(j) <= Pow10(k)
    decreases k
  {
    if j < k {
      Pow10Grows(j, k - 1);
    }
  }

  /** A digit string of value at most 2^64 - 1 is read to its end, to its value. */
  lemma {:induction false} ScanAllDigits(s: string, k: nat)
    requires k <= |s| && forall i :: 0 <= i < |s| ==> IsDigit(s[i])
    requires DigitsValue(s) <= MaxUint
    ensures DigitsValue(s[..k]) <= MaxUint
    ensures ScanDigits(s, k) == Value(DigitsValue(s))
    decreases |s| - k
  {
    DigitsValuePrefix(s, k);
    if k < |s| {
      DigitsValuePrefix(s, k + 1);
      ScanAllDigits(s, k + 1);
    }
  }

  /**
   Once the digits `s[..n]` are worth more than 2^64 - 1, the parser stops
   with a range error, whatever comes after them.
   */
  lemma {:induction false} ScanOverflows(s: string, k: nat, n: nat)
    requires k <= n <= |s| && forall i :: 0 <= i < n ==> IsDigit(s[i])
    requires DigitsValue(s[..k]) <= MaxUint < DigitsValue(s[..n])
    ensures ScanDigits(s, k) == RangeError
    decreases n - k
  {
    if DigitsValue(s[..k + 1]) <= MaxUint {
      ScanOverflows(s, k + 1, n);
    }
  }

  /**
   A non-digit at index `j` < 20 stops the parser before any range error can
   happen: fewer than 20 digits stay below 10^19 < 2^64.
   */
  lemma {:induction false} ScanStopsEarly(s: string, k: nat, j: nat)
    requires k <= j < |s| && j < 20 && !IsDigit(s[j])
    requires (forall i :: 0 <= i < k ==> IsDigit(s[i])) && DigitsValue(s[..k]) <= MaxUint
    ensures ScanDigits(s, k) == SyntaxError
    decreases j - k
  {
    if k < j && IsDigit(s[k]) {
      DigitsValueBelow(s[..k + 1]);
      Pow10Grows(k + 1, 19);
      Pow10Nineteen();
      ScanStopsEarly(s, k + 1, j);
    }
  }

  /** Where the unbounded syntax holds, Atoi is its value saturated at the bounds of `int`. */
  lemma AtoiOfParseInt(s: string, n: int)
    requires ParseInt(s) == Some(n)
    ensures Atoi(s) == Saturate(n)
  {
    var digits := if s[0] == '+' || s[0] == '-' then s[1..] else s;
    assert IsDigits(digits);
    if DigitsValue(digits) <= MaxUint {
      ScanAllDigits(digits, 0);
      assert digits[..0] == [];
    } else {
      assert digits[..|digits|] == digits;
      assert digits[..0] == [];
      ScanOverflows(digits, 0, |digits|);
    }
  }

  /** Atoi reads back what Itoa writes, saturated at the bounds of `int`. */
  lemma AtoiOfItoa(n: int)
    ensures Atoi(Itoa(n)) == Saturate(n)
    ensures MinInt <= n <= MaxInt ==> Atoi(Itoa(n)) == n
  {
    ParseIntOfItoa(n);
    AtoiOfParseInt(Itoa(n), n);
  }

  /**
   A string whose last character is not a digit (or the empty string) is not
   a number. Atoi gives 0 for it, or a bound of `int` when a run of digits
   after the sign overflows before the parser reaches a non-digit; a string
   of at most 20 characters is too short for that, and gives 0.
   */
  lemma AtoiNonNumeric(s: string)
    requires s == [] || !IsDigit(s[|s| - 1])
    ensures ParseInt(s) == None
    ensures Atoi(s) == 0 || Atoi(s) == MaxInt || Atoi(s) == MinInt
    ensures |s| <= 20 ==> Atoi(s) == 0
  {
    if s != [] {
      var digits := if s[0] == '+' || s[0] == '-' then s[1..] else s;
      if digits != [] {
        assert digits[|digits| - 1] == s[|s| - 1];
        assert digits[..0] == [];
        if |s| <= 20 {
          ScanStopsEarly(digits, 0, |digits| - 1);
        }
      }
    }
  }

  /**
   Digits worth more than 2^64 - 1 make Atoi return the bound on the side of
   the sign, whatever text follows them.
   */
  lemma AtoiOverflowFirst(d: string, rest: string)
    requires IsDigits(d) && DigitsValue(d) > MaxUint
    ensures Atoi(d + rest) == MaxInt
    ensures Atoi("+" + d + rest) == MaxInt
    ensures Atoi("-" + d + rest) == MinInt
  {
    var s := d + rest;
    assert s[..|d|] == d;
    assert s[..0] == [];
    ScanOverflows(s, 0, |d|);
    assert ("+" + d + rest)[1..] == s;
    assert ("-" + d + rest)[1..] == s;
  }
}
