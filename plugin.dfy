/**
 The comic plugin itself: the per-channel log kept in place, the choice of how
 many logged messages a `comic` command draws, and the dispatch of each chat
 message to one of the plugin's three commands or to the log.
 */
module Plugin {
  import opened GoStrings
  import opened ComicScript
  import opened History
  import opened InlineScript

  /**
   What the command matcher made of a message: `customcomic` or
   `customcomicsimple` with the text after the command; `comic` with the
   argument string and the list of arguments; or anything else, which includes
   the commands of other plugins. The `customcomic` matcher is tried before
   the `comic` one (comicplugin.go:100 and 144), so a message both match is a
   `CustomComic`; one matching `customcomicsimple` has `simple` set
   (comicplugin.go:102).
   */
  datatype Command =
    | CustomComic(simple: bool, text: string)
    | Comic(argument: string, parts: seq<string>)
    | Other

  /** What the plugin does with a message. */
  datatype Outcome =
    | Ignored                                // the bot's own message
    | Logged                                 // recorded in the channel's log
    | Reply(channel: string, text: string)   // a text message back to the channel
    | Draw(channel: string, script: Script)  // a comic to render and post to the channel

  function NotEnoughMessages(userName: string): string
  {
    "Sorry " + userName + ", I don't have enough messages to make a comic yet."
  }

  function NoText(userName: string): string
  {
    "Sorry " + userName + ", you didn't add any text."
  }

  // ---------------------------------------------------------------------------
  // How many lines a `comic` command draws
  // ---------------------------------------------------------------------------

  /** The number asked for: Atoi of the argument when there is one, else 0. */
  function RequestedLines(argument: string, parts: seq<string>): int
  {
    if |parts| > 0 then Atoi(argument) else 0
  }

  /**
   The number of lines drawn: the request when it is positive, the random draw
   otherwise, and never more than the messages available.
   */
  function LineCount(requested: int, draw: int, available: nat): (n: nat)
    requires available >= 1 && draw >= 1
    ensures 1 <= n <= available
    ensures n == available || n == (if requested > 0 then requested else draw)
    ensures requested > 0 ==> (n == available <==> requested >= available)
    ensures requested <= 0 ==> (n == available <==> draw >= available)
  {
    var want := if requested > 0 then requested else draw;
    if want > available then available else want
  }

  /**
   "comic 3" draws the last three messages when at least three are logged; a
   number too large for an `int` is read as the largest `int`.
   */
  lemma NumericArgument(k: nat, draw: int, available: nat)
    requires 1 <= k && available >= 1 && draw >= 1
    ensures LineCount(RequestedLines(Itoa(k), [Itoa(k)]), draw, available) == Min(Saturate(k), available)
    ensures k <= MaxInt ==> LineCount(RequestedLines(Itoa(k), [Itoa(k)]), draw, available) == Min(k, available)
  {
    AtoiOfItoa(k);
  }

  /** "comic" alone, "comic 0", "comic -2" or "comic x" all fall back to the random draw. */
  lemma FallBackToDraw(argument: string, parts: seq<string>, draw: int, available: nat)
    requires available >= 1 && draw >= 1
    requires parts == [] || Atoi(argument) <= 0
    ensures LineCount(RequestedLines(argument, parts), draw, available) == Min(draw, available)
  {
  }

  // ---------------------------------------------------------------------------
  // The two drawing commands
  // ---------------------------------------------------------------------------

  /**
   `customcomic`/`customcomicsimple`: the inline script, captioned with the bot
   and the invoking user, in the Chat or Simple layout and with no avatars.
   The "no text" reply is never sent, because every inline script has a line.
   */
  method CustomComicOutcome(botName: string, m: ChatMessage, simple: bool, text: string) returns (out: Outcome)
    ensures out == Draw(m.channel, Script(ParseLines(text), Caption(botName, m.userName), map[],
                                          if simple then Simple else Chat))
  {
    var kind := if simple then Simple else Chat;
    var lines := ParseInline(text);
    NeverEmpty(text);
    if |lines| == 0 {
      out := Reply(m.channel, NoText(m.userName));
    } else {
      out := Draw(m.channel, Script(lines, Caption(botName, m.userName), map[], kind));
    }
  }

  /**
   `comic`: with an empty log the "not enough messages" reply; otherwise the
   script built from the last `LineCount` messages of the log. `draw` is the
   random count, 1 to 5, used when no positive number is given.
   */
  method ComicOutcome(botName: string, m: ChatMessage, history: seq<ChatMessage>,
                      argument: string, parts: seq<string>, draw: int) returns (out: Outcome)
    requires 1 <= draw <= 5
    ensures history == [] ==> out == Reply(m.channel, NotEnoughMessages(m.userName))
    ensures history != [] ==>
              && out.Draw? && out.channel == m.channel
              && BuiltFromLog(out.script, botName, m.userName,
                              Window(history, LineCount(RequestedLines(argument, parts), draw, |history|)))
  {
    if |history| == 0 {
      return Reply(m.channel, NotEnoughMessages(m.userName));
    }
    var lines := 0;
    if |parts| > 0 {
      lines := Atoi(argument);
    }
    if lines <= 0 {
      lines := draw;
    }
    if lines > |history| {
      lines := |history|;
    }
    assert lines == LineCount(RequestedLines(argument, parts), draw, |history|);
    var script := MakeScriptFromMessages(botName, m, history[|history| - lines..]);
    out := Draw(m.channel, script);
  }

  /** A drawn comic of `n` lines ends with the most recent logged message. */
  lemma ComicEndsWithNewest(script: Script, botName: string, invoker: string, history: seq<ChatMessage>, n: nat)
    requires 1 <= n <= |history|
    requires BuiltFromLog(script, botName, invoker, Window(history, n))
    ensures |script.lines| == n
    ensures script.lines[n - 1].text == history[|history| - 1].text
    ensures script.lines[n - 1].author == history[|history| - 1].userName
  {
    var w := Window(history, n);
    WindowEndsWithNewest(history, n);
    assert w[n - 1] == history[|history| - 1];
    LinesOfBuilt(script, botName, invoker, w);
  }

  // ---------------------------------------------------------------------------
  // The plugin and its log
  // ---------------------------------------------------------------------------

  /**
   Each channel's log is what recording its messages one by one into an empty
   log gives, and no log exceeds the capacity.
   */
  ghost predicate LogsMatch(log: map<string, seq<ChatMessage>>, recorded: map<string, seq<ChatMessage>>)
  {
    && (forall c :: c in log <==> c in recorded)
    && (forall c :: c in log ==> log[c] == PushAll(recorded[c]) && |log[c]| <= Capacity)
  }

  /** Recording into one channel keeps the other channels' logs matched. */
  lemma LogsMatchUpdate(log: map<string, seq<ChatMessage>>, recorded: map<string, seq<ChatMessage>>,
                        channel: string, seen: seq<ChatMessage>)
    requires LogsMatch(log, recorded) && |PushAll(seen)| <= Capacity
    ensures LogsMatch(log[channel := PushAll(seen)], recorded[channel := seen])
  {
  }

  class ComicPlugin {
    /** The recent messages of each channel, oldest first. */
    var log: map<string, seq<ChatMessage>>
    /** Every message ever recorded in each channel, oldest first. */
    ghost var recorded: map<string, seq<ChatMessage>>

    /** The logs match the messages recorded in them. */
    ghost predicate Valid()
      reads this
    {
      LogsMatch(log, recorded)
    }

    /** A plugin with no messages logged. */
    constructor ()
      ensures Valid() && log == map[] && recorded == map[]
    {
      log := map[];
      recorded := map[];
    }

    /** The log of a channel; a channel never seen has an empty log. */
    function History(channel: string): (h: seq<ChatMessage>)
      reads this
      ensures channel !in log ==> h == []
      ensures Valid() ==> |h| <= Capacity
    {
      if channel in log then log[channel] else []
    }

    /** The messages ever recorded in a channel. */
    ghost function Recorded(channel: string): seq<ChatMessage>
      reads this
    {
      if channel in recorded then recorded[channel] else []
    }

    /** Records a message in its channel's log, dropping the oldest entry when the log is full. */
    method Record(m: ChatMessage)
      requires Valid()
      modifies this
      ensures Valid()
      ensures log == old(log)[m.channel := Pushed(old(History(m.channel)), m)]
      ensures recorded == old(recorded)[m.channel := old(Recorded(m.channel)) + [m]]
    {
      var current := History(m.channel);
      var next: seq<ChatMessage>;
      if |current| < Capacity {
        next := current + [m];
      } else {
        next := current[1..] + [m];
      }
      PushedShape(current, m);
      assert next == Pushed(current, m) && |next| <= Capacity;
      ghost var seen := Recorded(m.channel);
      assert current == PushAll(seen);
      PushAllSnoc(seen, m);
      LogsMatchUpdate(log, recorded, m.channel, seen + [m]);
      log := log[m.channel := next];
      recorded := recorded[m.channel := seen + [m]];
    }

    /**
     Handles one chat message. The bot's own messages are ignored; the three
     commands draw a comic or reply and leave the log alone; every other
     message is recorded in its channel's log.
     */
    method HandleMessage(botName: string, m: ChatMessage, isMe: bool, cmd: Command, draw: int) returns (out: Outcome)
      requires Valid() && 1 <= draw <= 5
      modifies this
      ensures Valid()
      ensures isMe ==> out == Ignored && log == old(log) && recorded == old(recorded)
      ensures !isMe && cmd.Other? ==>
                && out == Logged
                && log == old(log)[m.channel := Pushed(old(History(m.channel)), m)]
                && recorded == old(recorded)[m.channel := old(Recorded(m.channel)) + [m]]
      ensures !isMe && cmd.CustomComic? ==>
                log == old(log) && recorded == old(recorded) &&
                out == Draw(m.channel, Script(ParseLines(cmd.text), Caption(botName, m.userName), map[],
                                              if cmd.simple then Simple else Chat))
      ensures !isMe && cmd.Comic? && old(History(m.channel)) == [] ==>
                log == old(log) && recorded == old(recorded) && out == Reply(m.channel, NotEnoughMessages(m.userName))
      ensures !isMe && cmd.Comic? && old(History(m.channel)) != [] ==>
                && log == old(log) && recorded == old(recorded) && out.Draw? && out.channel == m.channel
                && BuiltFromLog(out.script, botName, m.userName,
                                Window(old(History(m.channel)),
                                       LineCount(RequestedLines(cmd.argument, cmd.parts), draw,
                                                 |old(History(m.channel))|)))
    {
      if isMe {
        return Ignored;
      }
      var history := History(m.channel);
      match cmd {
        case CustomComic(simple, text) =>
          out := CustomComicOutcome(botName, m, simple, text);
        case Comic(argument, parts) =>
          out := ComicOutcome(botName, m, history, argument, parts, draw);
        case Other =>
          Record(m);
          out := Logged;
      }
    }

    /**
     A channel's log holds the newest `Capacity` of the messages ever recorded
     in it, in the order they arrived.
     */
    lemma LogKeepsNewest(channel: string)
      requires Valid()
      ensures History(channel) == Recorded(channel)[|Recorded(channel)| - Min(|Recorded(channel)|, Capacity)..]
    {
      PushAllKeepsNewest(Recorded(channel));
    }
  }
}
