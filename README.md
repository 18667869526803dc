# Comic plugin: a verified model

This project models the core of the comic plugin of a Go chat bot
(`comicplugin.go`). The plugin turns recent chat, or a script the user types,
into a comic script for a rendering engine. The model covers four parts:

- **The channel log** (`history.dfy`, `plugin.dfy`). For each channel the
  plugin keeps at most 10 recent messages. When the log is full, the oldest
  message is dropped. Only messages that are not the bot's own and not one of
  this plugin's commands are recorded.
- **Speaker resolution** (`script.dfy`). `makeScriptFromMessages` gives each
  author a dense speaker index in order of first appearance. It records the
  avatar of each author's first message and emits one line per message.
  The model specifies the result by a roster function (`Roster`) and proves
  the loop against it.
- **The inline script parser** (`inline.dfy`). `customcomic` and
  `customcomicsimple` parse text such as `Hello | 1: World | Yeah!`. The model
  follows the code exactly. It splits on `|`, trims only the space character,
  and splits a segment on every `:`. The speaker is Atoi of the first field
  (0 when it is not a number, negative values possible) and the text is the
  second field.
- **Line-count selection** (`plugin.dfy`). `comic [n]` draws the last `n`
  logged messages. A missing or non-positive `n` means the random draw is
  used, and the count is clamped to the log's length.

`gostrings.dfy` models the four library functions the plugin calls:
`strings.Split` (lines 112 and 119), `strings.Trim` with the cut-set `" "`
(lines 114, 121 and 123), `strings.Index` (line 118) and `strconv.Atoi` (lines
121 and 155). `Atoi` follows Go's `strconv.ParseInt`: after an optional sign
it reads digits left to right, gives 0 at the first non-digit, and gives the
bound of a 64-bit `int` on the side of the sign as soon as the digits read
exceed 2^64 - 1, whatever follows them.
The file also defines three helpers that the plugin does not call. `Count`
gives the number of pieces a split yields. `Join` and `Itoa` are the inverses
used to state round trips.

The plugin is the class `Plugin.ComicPlugin`. Its field `log` is a map from
channel to message sequence, which the methods update in place.
`HandleMessage` is `messageFunc`. The parts of it that are not modelled are
passed in as parameters:

- whether the message is the bot's own (`isMe`);
- what the command matcher made of the message (`Command`);
- the random draw (`draw`, 1 to 5).

It returns an `Outcome`: ignored, logged, a text reply, or a script to draw.

Some consequences of the code as written, which the model keeps:

- The empty text `""` splits into one empty segment. It therefore parses to
  one empty line, not to zero lines. `len(messages) == 0` at
  `comicplugin.go:134` can never hold, so the "you didn't add any text" reply
  is never sent. `InlineScript.NeverEmpty` proves this, and
  `Plugin.CustomComicOutcome` keeps the dead branch as written.
- `strings.Trim(line, " ")` removes only the space character. Tabs and
  newlines stay.
- `strings.Split(line, ":")` splits at every colon, and only the first two
  fields are used. `a:b:c` has text `b`, and `Warning: danger` is spoken by
  speaker 0 and says `danger` (`InlineScript.ExtraColonsDropped`,
  `InlineScript.NonNumericSpeaker`).
- `strconv.Atoi` accepts a sign, so an inline speaker can be negative.
- A speaker field that starts with more digits than fit in 64 bits is the
  largest `int` even when text follows the digits, because Go's parser
  reports the range error before it reaches the text
  (`InlineScript.OverflowingSpeaker`).
- The final `else` (line 167) records every message that is not one of
  this plugin's three commands, so other plugins' commands are logged too.

## Model

| member | source | states |
|---|---|---|
| GoStrings.Index | comicplugin.go:118 | the result is -1 exactly when the character is absent; otherwise it is the position of its first occurrence |
| GoStrings.Count | comicplugin.go:112 | a helper the plugin does not call: the number of occurrences is at most the length, and it is 0 exactly when the character is absent |
| GoStrings.Split | comicplugin.go:112 | a split has one more piece than the string has separators |
| GoStrings.SplitPiecesFree | comicplugin.go:119 | no piece of a split contains the separator |
| GoStrings.JoinOfSplit | comicplugin.go:112 | joining the pieces of a split with the separator gives back the string (Join is a helper the plugin does not call) |
| GoStrings.SplitOfJoin | comicplugin.go:112 | splitting a join of separator-free pieces gives back the pieces |
| GoStrings.SplitWithoutSeparator | comicplugin.go:119 | a string without the separator splits into itself alone |
| GoStrings.SplitAtFirst | comicplugin.go:119 | splitting a+sep+b, with a free of sep, yields a followed by the pieces of b |
| GoStrings.TrimLeft | comicplugin.go:114 | no contract; the leading half of `strings.Trim(s, " ")`, characterised by TrimLeftShape |
| GoStrings.TrimRight | comicplugin.go:114 | no contract; the trailing half of `strings.Trim(s, " ")`, characterised by TrimRightShape |
| GoStrings.Trim | comicplugin.go:114 | no contract; `strings.Trim(s, " ")` as used at lines 114, 121 and 123, characterised by TrimShape, TrimStripsSpaces, TrimKeepsChars and TrimIdempotent |
| GoStrings.TrimLeftShape | comicplugin.go:114 | left trimming keeps a suffix, removes only spaces, and stops at a non-space |
| GoStrings.TrimRightShape | comicplugin.go:114 | right trimming keeps a prefix, removes only spaces, and stops at a non-space |
| GoStrings.TrimShape | comicplugin.go:114 | Trim gives "" exactly for a string of spaces; otherwise both ends of the result are non-spaces |
| GoStrings.TrimKeepsChars | comicplugin.go:114 | trimming adds no character |
| GoStrings.TrimStripsSpaces | comicplugin.go:114 | a string is a run of spaces, then its trimmed form, then a run of spaces |
| GoStrings.TrimIdempotent | comicplugin.go:114 | trimming twice equals trimming once |
| GoStrings.TrimLeftRightCommute | comicplugin.go:114 | trimming the left end and trimming the right end commute |
| GoStrings.TrimLeftAppend | comicplugin.go:114 | left trimming does not look past a leading non-space |
| GoStrings.TrimRightPrepend | comicplugin.go:114 | right trimming does not reach into a prefix ending in a non-space |
| GoStrings.TrimAround | comicplugin.go:121-123 | trimming "p", a non-space character, then "after" trims only the left of p and the right of after |
| GoStrings.TrimAfterTrimRight | comicplugin.go:123 | trimming the right end first does not change the trimmed string |
| GoStrings.ParseInt | comicplugin.go:121 | no contract; the syntax `strconv.Atoi` accepts (an optional sign, then decimal digits) read as an unbounded integer, characterised by ParseIntOfItoa, AtoiOfParseInt and AtoiNonNumeric |
| GoStrings.ScanDigits | comicplugin.go:155 | Go's digit loop ends with a value only when every character is a digit, and the value is that of the digits |
| GoStrings.ParseUint | comicplugin.go:155 | no contract; `strconv.ParseUint(s, 10, 64)`: the empty string is a syntax error, otherwise the digit loop from the start |
| GoStrings.Atoi | comicplugin.go:155 | no contract; `n, _ := strconv.Atoi(s)`: an optional sign, then the digit loop; 0 on a syntax error, the bound on the side of the sign on a range error or a magnitude beyond a 64-bit int; characterised by AtoiOfParseInt, AtoiOfItoa, AtoiNonNumeric and AtoiOverflowFirst |
| GoStrings.AtoiOfParseInt | comicplugin.go:155 | on the syntax Atoi accepts, Atoi is the value saturated at the bounds of a 64-bit int |
| GoStrings.AtoiOverflowFirst | comicplugin.go:121 | digits worth more than 2^64 - 1 give the bound on the side of the sign, whatever text follows them |
| GoStrings.ScanOverflows | comicplugin.go:155 | once the digits read are worth more than 2^64 - 1 the loop stops with a range error |
| GoStrings.ScanStopsEarly | comicplugin.go:121 | a non-digit among the first 20 characters stops the loop with a syntax error before any range error |
| GoStrings.ItoaChars | comicplugin.go:121 | Itoa writes only digits and a minus sign, and Trim leaves it alone |
| GoStrings.Saturate | comicplugin.go:155 | the result is within the bounds of a 64-bit int, equals the input when that is in range, and is the nearest bound otherwise |
| GoStrings.ParseIntOfItoa | comicplugin.go:155 | the syntax of Atoi reads back the decimal text that Itoa writes, negative numbers included |
| GoStrings.AtoiOfItoa | comicplugin.go:155 | Atoi reads back what Itoa writes, saturated at the bounds of int, and exactly when in range |
| GoStrings.AtoiNonNumeric | comicplugin.go:121 | text that does not end in a digit is not a number; Atoi gives 0 for it or, when a digit run overflows 64 bits first, a bound of int; text of at most 20 characters gives 0 |
| GoStrings.DigitsValueOfDecimal | comicplugin.go:155 | the value of the decimal digits of n is n |
| ComicScript.Caption | comicplugin.go:61 | no contract; the "<bot> and <invoker>" caption of lines 61 and 141, fixed by BuiltFromLog and CustomComicOutcome |
| ComicScript.Roster | comicplugin.go:45-51 | no contract; the reference definition, the authors in order of first message, characterised by RosterMembers, RosterDistinct, RosterFirstSeenOrder and RosterCountsAuthors |
| ComicScript.RosterIndex | comicplugin.go:46 | the position found holds the user |
| ComicScript.Admit | comicplugin.go:46-57 | no contract; one iteration of the builder loop, characterised by AdmitKnown and AdmitNew |
| ComicScript.Resolve | comicplugin.go:45-58 | no contract; the builder's state after a prefix of the messages, characterised by ResolveFaithful |
| ComicScript.MakeScriptFromMessages | comicplugin.go:39-65 | the script has one line per message, with its text and author, speaker = the author's first-appearance index; the avatar table has exactly keys 0..k-1, each holding the avatar of that speaker's first message; the caption is "<bot> and <invoker>"; the layout is Chat |
| ComicScript.ResolveFaithful | comicplugin.go:45-58 | after any number of messages, the name table, avatar table and lines agree with the roster of those messages |
| ComicScript.AdmitKnown | comicplugin.go:46-57 | a message by a known author keeps both tables and adds its line with that author's index |
| ComicScript.AdmitNew | comicplugin.go:46-57 | a message by a new author gets index len(speakers) and its avatar, and adds its line |
| ComicScript.RosterSnoc | comicplugin.go:46-49 | a message adds its author to the end of the roster exactly when the author is new |
| ComicScript.RosterMembers | comicplugin.go:45-51 | the roster holds exactly the authors of the messages |
| ComicScript.RosterDistinct | comicplugin.go:47-49 | no author gets two speaker indices |
| ComicScript.RosterFirstSeenOrder | comicplugin.go:48 | a lower speaker index belongs to an author whose first message is earlier |
| ComicScript.RosterCountsAuthors | comicplugin.go:48 | the number of speakers equals the number of distinct author names |
| ComicScript.FirstBy | comicplugin.go:50 | the position found is a message by the user with no earlier message by them |
| ComicScript.FirstByPrefix | comicplugin.go:50 | later messages do not change an author's first message |
| ComicScript.BuiltFromLogUnique | comicplugin.go:39-65 | the builder's contract determines the script completely |
| ComicScript.SpeakerIdentifiesAuthor | comicplugin.go:46-54 | two lines share a speaker index exactly when they share an author |
| ComicScript.SpeakerIsRosterIndex | comicplugin.go:46-54 | the speaker of a line is the position of its author in the roster |
| ComicScript.SpeakersUsed | comicplugin.go:47-50 | the speaker indices used are exactly 0..k-1 for k authors, speaker k speaking the k-th author's first message |
| ComicScript.LinesOfBuilt | comicplugin.go:53-57 | a built script has one line per message, carrying its text and author |
| History.Pushed | comicplugin.go:168-172 | no contract; the log after recording a message, characterised by PushedShape and FullLogEvictsOldest |
| History.PushedShape | comicplugin.go:168-172 | recording appends the message after the newest earlier entries; the log grows by one up to 10 entries and then stays at 10 |
| History.PushAll | comicplugin.go:167-172 | no contract; the log of a channel that saw the given messages, characterised by PushAllKeepsNewest |
| History.PushAllSnoc | comicplugin.go:167-172 | recording one more message is one more Pushed step |
| History.PushAllKeepsNewest | comicplugin.go:167-172 | the log after n recorded messages is the newest min(n, 10) of them, oldest first |
| History.FullLogEvictsOldest | comicplugin.go:170-171 | on a full log, the oldest entry is dropped and the other nine keep their order |
| History.Window | comicplugin.go:166 | the window has n entries and is the log's suffix |
| History.WindowEndsWithNewest | comicplugin.go:166 | a window ends with the newest logged message; the full-length window is the whole log |
| InlineScript.ParseSegment | comicplugin.go:113-131 | no contract; the parse of one segment, characterised by SegmentShape, SegmentWithoutColon, SegmentWithColon and LineRoundTrip |
| InlineScript.ParseLines | comicplugin.go:110-132 | one line per `\|`-separated segment, in order, each the parse of its segment |
| InlineScript.ParseInline | comicplugin.go:110-132 | the parsing loop produces exactly the lines of the inline script |
| InlineScript.SegmentShape | comicplugin.go:113-126 | a parsed line has no author; its text has no colon and no space at either end; it has speaker 0 and the trimmed segment as text when there is no colon |
| InlineScript.NeverEmpty | comicplugin.go:134-137 | every text, "" included, parses to at least one line; "" gives one empty line by speaker 0 |
| InlineScript.SegmentWithoutColon | comicplugin.go:124-126 | a segment without a colon is its trimmed self, spoken by speaker 0 |
| InlineScript.SegmentWithColon | comicplugin.go:118-123 | "p:m" or "p:m:…" is spoken by Atoi of trimmed p and says trimmed m |
| InlineScript.NonNumericSpeaker | comicplugin.go:121 | a speaker field that does not end in a digit means speaker 0, or a bound of int when it starts with more digits than fit in 64 bits; speaker 0 when it is at most 20 characters long |
| InlineScript.OverflowingSpeaker | comicplugin.go:121 | a speaker field starting with digits worth more than 2^64 - 1 means the largest int, whatever follows the digits |
| InlineScript.ExtraColonsDropped | comicplugin.go:119-123 | fields after the second colon are dropped |
| InlineScript.LineRoundTrip | comicplugin.go:113-131 | parsing "<speaker>:<text>" gives back any line the syntax can express |
| InlineScript.LinesRoundTrip | comicplugin.go:110-132 | parsing the `\|`-join of formatted lines gives back the lines |
| InlineScript.ParseLinesOfJoin | comicplugin.go:112 | bar-free segments joined with bars parse segment by segment |
| GoStrings.TrimPaddedBoth | comicplugin.go:114 | one space at each end of a word is trimmed away |
| InlineScript.TwoLineExample | comicplugin.go:110-132 | `a \| b` with plain words a and b is two lines, both by speaker 0 |
| InlineScript.ThreeLineExample | comicplugin.go:27 | `a \| n: b \| c`, the shape of the help text's example, is three lines, the middle one by speaker n saturated to an int |
| Plugin.NoText | comicplugin.go:135 | no contract; the text of the "you didn't add any text" reply |
| Plugin.NotEnoughMessages | comicplugin.go:146 | no contract; the text of the "not enough messages" reply, returned by ComicOutcome on an empty log |
| Plugin.RequestedLines | comicplugin.go:152-156 | no contract; Atoi of the argument when there is one, else 0, characterised by NumericArgument and FallBackToDraw |
| Plugin.LineCount | comicplugin.go:152-164 | the count is between 1 and the log's length; it is the request when positive, otherwise the draw, and is clamped to the log's length exactly when it would exceed it |
| Plugin.NumericArgument | comicplugin.go:153-156 | "comic k" with positive k draws min(k, log length) lines, k saturated to an int |
| Plugin.FallBackToDraw | comicplugin.go:158-160 | no argument or a non-positive or non-numeric one falls back to the random draw, clamped |
| Plugin.CustomComicOutcome | comicplugin.go:100-143 | the custom command draws the parsed lines with the caption, no avatars, and the Simple or Chat layout as the command says |
| Plugin.ComicOutcome | comicplugin.go:144-166 | an empty log gives the "not enough messages" reply; otherwise the script built from the last LineCount messages |
| Plugin.ComicEndsWithNewest | comicplugin.go:162-166 | a drawn comic of n lines ends with the text and author of the newest logged message |
| Plugin.ComicPlugin.constructor | comicplugin.go:177-181 | a new plugin has an empty log |
| Plugin.ComicPlugin.History | comicplugin.go:95-98 | an unseen channel has an empty log; no log exceeds 10 entries |
| Plugin.ComicPlugin.Record | comicplugin.go:167-172 | only the message's channel changes, to the old log with the message recorded; the ghost record of that channel gains the message; every log stays the fold of its record and within 10 entries |
| Plugin.ComicPlugin.HandleMessage | comicplugin.go:89-174 | the bot's own messages are ignored; the three commands reply or draw and leave the log unchanged; other messages are recorded in their channel's log |
| Plugin.ComicPlugin.LogKeepsNewest | comicplugin.go:167-172 | in any valid plugin state, a channel's log is the newest min(n, 10) of the n messages ever recorded in it, in arrival order |

## Left out

- Rendering (`makeComic`, lines 67-71) runs in the external comic engine. A `Draw` outcome stands for handing the script to it.
- The image upload and the link reply (lines 73-85) call an external host and run in a goroutine. They are not modelled.
- `service.Typing` (lines 106, 150) only shows a typing indicator. It is not modelled.
- The random count (line 159) is computed in floating point. It is the parameter `draw`, restricted to 1..5, the range that expression yields for a uniform value in [0, 1).
- The internals of `matchesCommand`, `parseCommand` and `service.IsMe` belong to the bot framework and are not part of this model. Their results are the `Command` value and the `isMe` flag.
- The "Its me, ignore." line written to the process log (line 91) is not modelled. The model keeps only the ignoring.
- `helpFunc` (lines 19-37) only returns help strings. It is not modelled, but the shape of its example is proved in `InlineScript.ThreeLineExample`.
- GoStrings.Atoi: Go's `int` is taken to be 64 bits wide. For an out-of-range number, Go's Atoi returns the bound together with a range error. The plugin discards the error and keeps the bound, and so does the model. Go's shortcut for strings under 19 bytes is not modelled separately; it gives the same results as the `ParseInt` path, which is modelled. On a 32-bit platform the bounds would be those of a 32-bit `int`, which is not modelled. Go's error value itself is not modelled either, since the plugin ignores it.
- GoStrings.Trim and GoStrings.Split: only the one-character cut-set `" "` and one-character separators are modelled, because those are the only ones the plugin uses. Go strings are bytes; the separators and the cut-set are ASCII, so splitting and trimming act alike on bytes and on characters.
- Plugin.ComicPlugin.HandleMessage: each call is modelled as one atomic step. Concurrent calls to `messageFunc`, which would race on the unlocked Go map, are not modelled.
- Plugin.ComicPlugin.Record: Go's `append(log[1:], message)` may share a backing array with the old slice. The log is modelled as a value, so that aliasing is not captured; nothing else reads the old slice.
- Plugin.CustomComicOutcome: a Go `nil` avatar map and an empty one behave alike, so the custom script's avatar table is modelled as the empty map.
