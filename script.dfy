/**
 The comic script handed to the rendering engine, and `makeScriptFromMessages`,
 which turns logged chat messages into a script, resolving each author to a
 dense speaker index in order of first appearance.
 */
module ComicScript {

  /** A chat message as the plugin sees it (read-only). */
  datatype ChatMessage = ChatMessage(userName: string, userAvatar: string, text: string, channel: string)

  /** The layout variant of a script. */
  datatype ComicType = Chat | Simple

  /**
   One line of dialogue. The speaker is any integer (an index the script's avatar
   table does not hold is drawn with a default look); `author` is "" when unset.
   */
  datatype ScriptLine = ScriptLine(speaker: int, text: string, author: string)

  datatype Script = Script(lines: seq<ScriptLine>, author: string, avatars: map<int, string>, kind: ComicType)

  /** The authorship caption: "<bot user> and <invoking user>". */
  function Caption(botName: string, userName: string): string
  {
    botName + " and " + userName
  }

  // ---------------------------------------------------------------------------
  // Speaker resolution, as a specification
  // ---------------------------------------------------------------------------

  /** No name occurs twice. */
  predicate Distinct(names: seq<string>) {
    forall i, j :: 0 <= i < j < |names| ==> names[i] != names[j]
  }

  /** The author of each message, in order. */
  function Authors(msgs: seq<ChatMessage>): seq<string>
  {
    seq(|msgs|, i requires 0 <= i < |msgs| => msgs[i].userName)
  }

  /** Some message of `msgs` is by `user`. */
  predicate Wrote(msgs: seq<ChatMessage>, user: string) {
    user in Authors(msgs)
  }

  /**
   The distinct authors of `msgs` in order of their first message: the author
   at position k of the roster is given speaker index k.
   */
  function Roster(msgs: seq<ChatMessage>): seq<string>
  {
    if msgs == [] then []
    else
      var prev := Roster(msgs[..|msgs| - 1]);
      var u := msgs[|msgs| - 1].userName;
      if u in prev then prev else prev + [u]
  }

  /** The position of the first message by `user`. */
  function FirstBy(msgs: seq<ChatMessage>, user: string): (i: nat)
    requires Wrote(msgs, user)
    ensures i < |msgs| && msgs[i].userName == user
    ensures !Wrote(msgs[..i], user)
  {
    if msgs[0].userName == user then 0
    else
      assert Authors(msgs) == [msgs[0].userName] + Authors(msgs[1..]);
      var k := FirstBy(msgs[1..], user);
      assert Authors(msgs[..k + 1]) == [msgs[0].userName] + Authors(msgs[1..][..k]);
      k + 1
  }

  /** Where `user` stands in a roster. */
  function RosterIndex(roster: seq<string>, user: string): (k: nat)
    requires user in roster
    ensures k < |roster| && roster[k] == user
  {
    if roster[0] == user then 0 else RosterIndex(roster[1..], user) + 1
  }

  /**
   What `makeScriptFromMessages` produces for `msgs`: one line per message in
   order, carrying its text and author name and the roster index of its author;
   the avatar table has exactly the keys 0..k-1 for k speakers, and the avatar of
   speaker k is that of speaker k's first message; the caption names the bot and
   the invoking user; the layout is Chat.
   */
  ghost predicate BuiltFromLog(script: Script, botName: string, invoker: string, msgs: seq<ChatMessage>)
  {
    var roster := Roster(msgs);
    && script.author == Caption(botName, invoker)
    && script.kind == Chat
    && |script.lines| == |msgs|
    && (forall i :: 0 <= i < |msgs| ==>
          && script.lines[i].text == msgs[i].text
          && script.lines[i].author == msgs[i].userName
          && 0 <= script.lines[i].speaker < |roster|
          && roster[script.lines[i].speaker] == msgs[i].userName)
    && (forall k :: k in script.avatars <==> 0 <= k < |roster|)
    && (forall k :: 0 <= k < |roster| ==>
          Wrote(msgs, roster[k]) && script.avatars[k] == msgs[FirstBy(msgs, roster[k])].userAvatar)
  }

  // ---------------------------------------------------------------------------
  // Properties of the roster
  // ---------------------------------------------------------------------------

  lemma AuthorsSnoc(msgs: seq<ChatMessage>, m: ChatMessage)
    ensures Authors(msgs + [m]) == Authors(msgs) + [m.userName]
  {
  }

  /** Adding a message extends the roster by at most its author, at the end. */
  lemma RosterSnoc(msgs: seq<ChatMessage>, m: ChatMessage)
    ensures Roster(msgs + [m]) == if m.userName in Roster(msgs) then Roster(msgs) else Roster(msgs) + [m.userName]
  {
    assert (msgs + [m])[..|msgs + [m]| - 1] == msgs;
  }

  /** The roster holds exactly the authors of the messages. */
  lemma {:induction false} RosterMembers(msgs: seq<ChatMessage>)
    ensures forall u :: u in Roster(msgs) <==> Wrote(msgs, u)
  {
    if msgs != [] {
      var n := |msgs| - 1;
      assert msgs[..n] + [msgs[n]] == msgs;
      RosterSnoc(msgs[..n], msgs[n]);
      AuthorsSnoc(msgs[..n], msgs[n]);
      RosterMembers(msgs[..n]);
    }
  }

  /** No author appears twice in the roster. */
  lemma {:induction false} RosterDistinct(msgs: seq<ChatMessage>)
    ensures Distinct(Roster(msgs))
  {
    if msgs != [] {
      var n := |msgs| - 1;
      assert msgs[..n] + [msgs[n]] == msgs;
      RosterSnoc(msgs[..n], msgs[n]);
      RosterDistinct(msgs[..n]);
    }
  }

  /** A message by `user` with no earlier one by `user` is their first. */
  lemma FirstByAt(msgs: seq<ChatMessage>, user: string, f: nat)
    requires f < |msgs| && msgs[f].userName == user && !Wrote(msgs[..f], user)
    ensures Wrote(msgs, user) && FirstBy(msgs, user) == f
  {
    assert Authors(msgs)[f] == user;
    var g := FirstBy(msgs, user);
    forall i | 0 <= i < f ensures msgs[i].userName != user {
      assert Authors(msgs[..f])[i] == msgs[i].userName;
    }
    forall i | 0 <= i < g ensures msgs[i].userName != user {
      assert Authors(msgs[..g])[i] == msgs[i].userName;
    }
  }

  /** The first message of an author in a prefix is their first message overall. */
  lemma FirstByPrefix(msgs: seq<ChatMessage>, n: nat, user: string)
    requires n <= |msgs| && Wrote(msgs[..n], user)
    ensures Wrote(msgs, user) && FirstBy(msgs, user) == FirstBy(msgs[..n], user)
  {
    var k := FirstBy(msgs[..n], user);
    assert msgs[..n][..k] == msgs[..k];
    FirstByAt(msgs, user, k);
  }

  /**
   Speakers are numbered in order of first appearance: a lower index belongs to
   an author whose first message comes earlier.
   */
  lemma {:induction false} RosterFirstSeenOrder(msgs: seq<ChatMessage>, k: nat, l: nat)
    requires k < l < |Roster(msgs)|
    ensures Wrote(msgs, Roster(msgs)[k]) && Wrote(msgs, Roster(msgs)[l])
    ensures FirstBy(msgs, Roster(msgs)[k]) < FirstBy(msgs, Roster(msgs)[l])
  {
    var n := |msgs| - 1;
    var prefix := msgs[..n];
    assert prefix + [msgs[n]] == msgs;
    RosterSnoc(prefix, msgs[n]);
    RosterMembers(prefix);
    var r := Roster(prefix);
    var u := msgs[n].userName;
    assert Roster(msgs)[k] == r[k];
    FirstByPrefix(msgs, n, r[k]);
    if l < |r| {
      RosterFirstSeenOrder(prefix, k, l);
      FirstByPrefix(msgs, n, r[l]);
    } else {
      // the last roster entry is a new author, first seen in the last message
      assert Roster(msgs)[l] == u && u !in r;
      FirstByAt(msgs, u, n);
    }
  }

  /** In a roster of distinct names, positions and names correspond one to one. */
  lemma {:induction false} DistinctCount(r: seq<string>)
    requires Distinct(r)
    ensures |set u | u in r| == |r|
  {
    if r != [] {
      var n := |r| - 1;
      assert Distinct(r[..n]);
      DistinctCount(r[..n]);
      assert (set u | u in r) == (set u | u in r[..n]) + {r[n]} by {
        assert r == r[..n] + [r[n]];
      }
      assert r[n] !in r[..n];
    }
  }

  /** The number of speakers is the number of distinct author names. */
  lemma RosterCountsAuthors(msgs: seq<ChatMessage>)
    ensures |Roster(msgs)| == |set u | u in Authors(msgs)|
  {
    RosterMembers(msgs);
    RosterDistinct(msgs);
    DistinctCount(Roster(msgs));
    assert (set u | u in Roster(msgs)) == (set u | u in Authors(msgs));
  }

  /**
   The contract of the builder fixes the script completely: two scripts built
   from the same messages, bot and invoker are equal.
   */
  lemma BuiltFromLogUnique(s1: Script, s2: Script, botName: string, invoker: string, msgs: seq<ChatMessage>)
    requires BuiltFromLog(s1, botName, invoker, msgs) && BuiltFromLog(s2, botName, invoker, msgs)
    ensures s1 == s2
  {
    var roster := Roster(msgs);
    RosterDistinct(msgs);
    forall i | 0 <= i < |msgs| ensures s1.lines[i] == s2.lines[i] {
      var a, b := s1.lines[i].speaker, s2.lines[i].speaker;
      assert roster[a] == roster[b];
    }
    assert s1.lines == s2.lines;
    forall k ensures k in s1.avatars <==> k in s2.avatars {
    }
    forall k | k in s1.avatars ensures s1.avatars[k] == s2.avatars[k] {
    }
    assert s1.avatars == s2.avatars;
  }

  /** A built script has one line per message, carrying that message's text. */
  lemma LinesOfBuilt(script: Script, botName: string, invoker: string, msgs: seq<ChatMessage>)
    requires BuiltFromLog(script, botName, invoker, msgs)
    ensures |script.lines| == |msgs|
    ensures forall i :: 0 <= i < |msgs| ==>
              script.lines[i].text == msgs[i].text && script.lines[i].author == msgs[i].userName
  {
  }

  /** Two lines of a built script share a speaker exactly when they share an author. */
  lemma SpeakerIdentifiesAuthor(script: Script, botName: string, invoker: string, msgs: seq<ChatMessage>)
    requires BuiltFromLog(script, botName, invoker, msgs)
    ensures forall i, j :: 0 <= i < |msgs| && 0 <= j < |msgs| ==>
              (script.lines[i].speaker == script.lines[j].speaker <==> msgs[i].userName == msgs[j].userName)
  {
    RosterDistinct(msgs);
  }

  /** In a roster of distinct names, the name at position k stands at position k. */
  lemma RosterIndexOf(roster: seq<string>, k: nat)
    requires Distinct(roster) && k < |roster|
    ensures RosterIndex(roster, roster[k]) == k
  {
    var j := RosterIndex(roster, roster[k]);
    assert roster[j] == roster[k];
  }

  /** The speaker of a line is where its author stands in the roster. */
  lemma SpeakerIsRosterIndex(script: Script, botName: string, invoker: string, msgs: seq<ChatMessage>, i: nat)
    requires BuiltFromLog(script, botName, invoker, msgs) && i < |msgs|
    ensures msgs[i].userName in Roster(msgs)
    ensures script.lines[i].speaker == RosterIndex(Roster(msgs), msgs[i].userName)
  {
    RosterDistinct(msgs);
    RosterIndexOf(Roster(msgs), script.lines[i].speaker);
  }

  /** The speaker indices a script's lines use. */
  function Speakers(lines: seq<ScriptLine>): set<int>
  {
    set i | 0 <= i < |lines| :: lines[i].speaker
  }

  /**
   The speaker indices used are exactly 0..k-1 for k authors: speaker k speaks
   the first message of the k-th author.
   */
  lemma SpeakersUsed(script: Script, botName: string, invoker: string, msgs: seq<ChatMessage>)
    requires BuiltFromLog(script, botName, invoker, msgs)
    ensures forall k :: 0 <= k < |Roster(msgs)| ==>
              Wrote(msgs, Roster(msgs)[k]) && script.lines[FirstBy(msgs, Roster(msgs)[k])].speaker == k
    ensures forall x :: x in Speakers(script.lines) <==> 0 <= x < |Roster(msgs)|
  {
    var roster := Roster(msgs);
    RosterDistinct(msgs);
    forall k | 0 <= k < |roster|
      ensures Wrote(msgs, roster[k]) && script.lines[FirstBy(msgs, roster[k])].speaker == k
    {
      var f := FirstBy(msgs, roster[k]);
      assert roster[script.lines[f].speaker] == roster[k];
    }
    var used := Speakers(script.lines);
    forall x | x in used ensures 0 <= x < |roster| {
      var i :| 0 <= i < |script.lines| && script.lines[i].speaker == x;
    }
    forall k | 0 <= k < |roster| ensures k in used {
      var f := FirstBy(msgs, roster[k]);
      assert script.lines[f].speaker == k;
    }
  }

  // ---------------------------------------------------------------------------
  // makeScriptFromMessages
  // ---------------------------------------------------------------------------

  /** The builder's state after some messages: name table, avatar table, lines so far. */
  datatype Resolution = Resolution(speakers: map<string, int>, avatars: map<int, string>, lines: seq<ScriptLine>)

  /**
   One iteration of the builder: an author already in the name table keeps their
   index; a new author is given the next index, and that index the avatar of
   this message.
   */
  function Admit(st: Resolution, m: ChatMessage): Resolution
  {
    if m.userName in st.speakers then
      st.(lines := st.lines + [ScriptLine(st.speakers[m.userName], m.text, m.userName)])
    else
      var s := |st.speakers|;
      Resolution(st.speakers[m.userName := s], st.avatars[s := m.userAvatar],
                 st.lines + [ScriptLine(s, m.text, m.userName)])
  }

  /** The builder's state after all of `msgs`. */
  function Resolve(msgs: seq<ChatMessage>): Resolution
  {
    if msgs == [] then Resolution(map[], map[], [])
    else Admit(Resolve(msgs[..|msgs| - 1]), msgs[|msgs| - 1])
  }

  /** The name table gives each roster name its roster position, and holds nothing else. */
  ghost predicate NamesMatch(speakers: map<string, int>, r: seq<string>)
  {
    && |speakers| == |r|
    && (forall u :: u in speakers <==> u in r)
    && (forall u :: u in speakers ==> 0 <= speakers[u] < |r| && r[speakers[u]] == u)
  }

  /** The avatar table has keys 0..|r|-1, each the avatar of that author's first message. */
  ghost predicate AvatarsMatch(avatars: map<int, string>, r: seq<string>, msgs: seq<ChatMessage>)
  {
    && (forall k :: k in avatars <==> 0 <= k < |r|)
    && (forall k :: 0 <= k < |r| ==> Wrote(msgs, r[k]) && avatars[k] == msgs[FirstBy(msgs, r[k])].userAvatar)
  }

  /** One line per message, with the text, the author and the index the table gives the author. */
  ghost predicate LinesMatch(speakers: map<string, int>, lines: seq<ScriptLine>, msgs: seq<ChatMessage>)
  {
    && |lines| == |msgs|
    && (forall j :: 0 <= j < |msgs| ==>
          msgs[j].userName in speakers &&
          lines[j] == ScriptLine(speakers[msgs[j].userName], msgs[j].text, msgs[j].userName))
  }

  /** The builder's state agrees with the roster of the messages seen. */
  ghost predicate ResolvedFrom(st: Resolution, msgs: seq<ChatMessage>)
  {
    var r := Roster(msgs);
    NamesMatch(st.speakers, r) && AvatarsMatch(st.avatars, r, msgs) && LinesMatch(st.speakers, st.lines, msgs)
  }

  lemma NamesNew(speakers: map<string, int>, r: seq<string>, u: string)
    requires NamesMatch(speakers, r) && u !in r
    ensures NamesMatch(speakers[u := |r|], r + [u])
  {
    var r' := r + [u];
    var sp := speakers[u := |r|];
    forall v | v in sp ensures 0 <= sp[v] < |r'| && r'[sp[v]] == v {
    }
  }

  /** Roster authors of the earlier messages keep their first message when one more arrives. */
  lemma AvatarsExtend(avatars: map<int, string>, msgs: seq<ChatMessage>)
    requires msgs != []
    requires AvatarsMatch(avatars, Roster(msgs[..|msgs| - 1]), msgs[..|msgs| - 1])
    ensures forall k :: 0 <= k < |Roster(msgs[..|msgs| - 1])| ==>
              Wrote(msgs, Roster(msgs[..|msgs| - 1])[k]) &&
              avatars[k] == msgs[FirstBy(msgs, Roster(msgs[..|msgs| - 1])[k])].userAvatar
  {
    var n := |msgs| - 1;
    var front := msgs[..n];
    var r := Roster(front);
    forall k | 0 <= k < |r| ensures Wrote(msgs, r[k]) && avatars[k] == msgs[FirstBy(msgs, r[k])].userAvatar {
      FirstByPrefix(msgs, n, r[k]);
      assert msgs[FirstBy(front, r[k])] == front[FirstBy(front, r[k])];
    }
  }

  lemma AvatarsKnown(avatars: map<int, string>, msgs: seq<ChatMessage>)
    requires msgs != []
    requires AvatarsMatch(avatars, Roster(msgs[..|msgs| - 1]), msgs[..|msgs| - 1])
    ensures AvatarsMatch(avatars, Roster(msgs[..|msgs| - 1]), msgs)
  {
    AvatarsExtend(avatars, msgs);
  }

  lemma AvatarsNew(avatars: map<int, string>, msgs: seq<ChatMessage>)
    requires msgs != []
    requires AvatarsMatch(avatars, Roster(msgs[..|msgs| - 1]), msgs[..|msgs| - 1])
    requires msgs[|msgs| - 1].userName !in Roster(msgs[..|msgs| - 1])
    ensures AvatarsMatch(avatars[|Roster(msgs[..|msgs| - 1])| := msgs[|msgs| - 1].userAvatar],
                         Roster(msgs[..|msgs| - 1]) + [msgs[|msgs| - 1].userName], msgs)
  {
    var n := |msgs| - 1;
    var front, m := msgs[..n], msgs[n];
    var r := Roster(front);
    var u := m.userName;
    AvatarsExtend(avatars, msgs);
    RosterMembers(front);
    FirstByAt(msgs, u, n);
    var r' := r + [u];
    var av := avatars[|r| := m.userAvatar];
    forall k | 0 <= k < |r'| ensures Wrote(msgs, r'[k]) && av[k] == msgs[FirstBy(msgs, r'[k])].userAvatar {
      if k < |r| {
        assert r'[k] == r[k] && av[k] == avatars[k];
      } else {
        assert r'[k] == u && av[k] == m.userAvatar;
      }
    }
  }

  lemma LinesStep(speakers: map<string, int>, speakers': map<string, int>, lines: seq<ScriptLine>,
                  msgs: seq<ChatMessage>)
    requires msgs != []
    requires LinesMatch(speakers, lines, msgs[..|msgs| - 1]) && msgs[|msgs| - 1].userName in speakers'
    requires forall u :: u in speakers ==> u in speakers' && speakers'[u] == speakers[u]
    ensures var m := msgs[|msgs| - 1];
            LinesMatch(speakers', lines + [ScriptLine(speakers'[m.userName], m.text, m.userName)], msgs)
  {
    var n := |msgs| - 1;
    var m := msgs[n];
    var lines' := lines + [ScriptLine(speakers'[m.userName], m.text, m.userName)];
    forall j | 0 <= j < |msgs| ensures msgs[j].userName in speakers' &&
        lines'[j] == ScriptLine(speakers'[msgs[j].userName], msgs[j].text, msgs[j].userName) {
      if j < n {
        assert msgs[j] == msgs[..n][j] && lines'[j] == lines[j];
      }
    }
  }

  /** A known author leaves the roster as it was. */
  lemma RosterKnown(speakers: map<string, int>, msgs: seq<ChatMessage>)
    requires msgs != [] && NamesMatch(speakers, Roster(msgs[..|msgs| - 1]))
    requires msgs[|msgs| - 1].userName in speakers
    ensures Roster(msgs) == Roster(msgs[..|msgs| - 1])
  {
  }

  /** The three agreements together are `ResolvedFrom`. */
  lemma ResolvedFromParts(st: Resolution, msgs: seq<ChatMessage>, r: seq<string>)
    requires Roster(msgs) == r
    requires NamesMatch(st.speakers, r) && AvatarsMatch(st.avatars, r, msgs)
    requires LinesMatch(st.speakers, st.lines, msgs)
    ensures ResolvedFrom(st, msgs)
  {
  }

  /** A message by a known author only adds its line. */
  lemma AdmitKnown(msgs: seq<ChatMessage>, st: Resolution)
    requires msgs != [] && ResolvedFrom(st, msgs[..|msgs| - 1])
    requires msgs[|msgs| - 1].userName in st.speakers
    ensures ResolvedFrom(Admit(st, msgs[|msgs| - 1]), msgs)
  {
    var n := |msgs| - 1;
    var m := msgs[n];
    var r := Roster(msgs[..n]);
    RosterKnown(st.speakers, msgs);
    var st' := Admit(st, m);
    assert st'.speakers == st.speakers && st'.avatars == st.avatars;
    AvatarsKnown(st.avatars, msgs);
    LinesStep(st.speakers, st.speakers, st.lines, msgs);
    ResolvedFromParts(st', msgs, r);
  }

  /** A message by a new author gives them the next index and its avatar. */
  lemma AdmitNew(msgs: seq<ChatMessage>, st: Resolution)
    requires msgs != [] && ResolvedFrom(st, msgs[..|msgs| - 1])
    requires msgs[|msgs| - 1].userName !in st.speakers
    ensures ResolvedFrom(Admit(st, msgs[|msgs| - 1]), msgs)
  {
    var n := |msgs| - 1;
    var r := Roster(msgs[..n]);
    var u := msgs[n].userName;
    assert Roster(msgs) == r + [u];
    NamesNew(st.speakers, r, u);
    AvatarsNew(st.avatars, msgs);
    LinesStep(st.speakers, st.speakers[u := |r|], st.lines, msgs);
  }

  /** The builder's state keeps agreeing with the roster as each message is admitted. */
  lemma ResolveStep(msgs: seq<ChatMessage>)
    requires msgs != [] && ResolvedFrom(Resolve(msgs[..|msgs| - 1]), msgs[..|msgs| - 1])
    ensures ResolvedFrom(Resolve(msgs), msgs)
  {
    var st := Resolve(msgs[..|msgs| - 1]);
    if msgs[|msgs| - 1].userName in st.speakers {
      AdmitKnown(msgs, st);
    } else {
      AdmitNew(msgs, st);
    }
  }

  /** The builder's state after all messages agrees with their roster. */
  lemma {:induction false} ResolveFaithful(msgs: seq<ChatMessage>)
    ensures ResolvedFrom(Resolve(msgs), msgs)
  {
    if msgs != [] {
      ResolveFaithful(msgs[..|msgs| - 1]);
      ResolveStep(msgs);
    }
  }

  /** A builder state that agrees with the roster yields the specified script. */
  lemma ResolvedBuilds(st: Resolution, botName: string, invoker: string, msgs: seq<ChatMessage>)
    requires ResolvedFrom(st, msgs)
    ensures BuiltFromLog(Script(st.lines, Caption(botName, invoker), st.avatars, Chat), botName, invoker, msgs)
  {
  }

  /**
   Builds the script for the chat path. `speakers` maps an author name to its
   index, allocating the next index on a name's first message, and `avatars`
   maps an index to the avatar of that first message.
   */
  method MakeScriptFromMessages(botName: string, invoker: ChatMessage, msgs: seq<ChatMessage>) returns (script: Script)
    ensures BuiltFromLog(script, botName, invoker.userName, msgs)
  {
    var speakers: map<string, int> := map[];
    var avatars: map<int, string> := map[];
    var lines: seq<ScriptLine> := [];
    for i := 0 to |msgs|
      invariant Resolution(speakers, avatars, lines) == Resolve(msgs[..i])
    {
      var m := msgs[i];
      assert msgs[..i + 1][..i] == msgs[..i];
      assert Resolve(msgs[..i + 1]) == Admit(Resolve(msgs[..i]), m);
      var speaker: int;
      if m.userName in speakers {
        speaker := speakers[m.userName];
      } else {
        speaker := |speakers|;
        speakers := speakers[m.userName := speaker];
        avatars := avatars[speaker := m.userAvatar];
      }
      lines := lines + [ScriptLine(speaker, m.text, m.userName)];
    }
    assert msgs[..|msgs|] == msgs;
    script := Script(lines, Caption(botName, invoker.userName), avatars, Chat);
    ResolveFaithful(msgs);
    ResolvedBuilds(Resolve(msgs), botName, invoker.userName, msgs);
  }
}
