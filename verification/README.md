# MaxMtrParser in Dafny

A model of the `Parser` class of MaxMtrParser, an Arduino library that plays
back MTR motion scripts. An MTR script is a text file of tracks. A track
starts after a line beginning `track` and ends at a line beginning `end;`.
Every line in between reads `<delta-ms> <arg> <arg> ... <arg>;`. The parser:

- indexes the position after every track header (`attach`, `parse_tracks`);
- seeks to a track (`seek`);
- answers `hasNextLine` by holding one parsed line at a time. The held line
  carries the running time `next_time_ms`, which accumulates the deltas, and
  the line's arguments.

The model has five modules:

- `ArduinoString`: the `String` members the parser calls. These are
  `indexOf`, `lastIndexOf`, `substring` and `toInt`. The value `-1` stored
  in a `size_t` is the `NPos` case of `Idx`. Adding one to it wraps round
  to 0.
- `LineStream`: the attached `File`, as a sequence of lines and a cursor.
  A position is a count of lines read, not a byte offset.
- `Tokenizer`: `parse_time`, `parse_args` and `fetch_next_token_index`. The
  running time is a `uint32_t` that wraps modulo 2^32.
- `MtrParser`: the parser's three fields and its operations. Each operation
  takes the parser and the stream, and returns a `Step`: the new parser,
  the new stream and the call's boolean result. `NextTimeMs`, `NumTracks`
  and `ArgAsString` are plain accessors. Their values after an `attach`
  are pinned down in `ScriptExamples.AttachFreshToSecondTrack`.
  `SeekFirstTrack` (`seek(time_ms)`) is pinned down in
  `ScriptExamples.RewindToFirstTrack`.
- `ParserProperties`, `ParserExamples` and `ScriptExamples`: properties
  relating several calls, and runs on small scripts. The runs are stated
  for every script laid out like the two-track example.

Three behaviours of the code are easy to miss:

- **`seek(track, time_ms)` parses at most one line.** `seek` takes a
  target time and loops while `next_time_ms <= time_ms`
  (MaxMtrParser.h:76), but only once the file seek to the track's position
  succeeds (MaxMtrParser.h:75). When that file seek fails, no line is
  parsed: `seek` returns false with the time at 0 and the old arguments
  still held (MaxMtrParser.h:84-87,
  `ParserProperties.SeekPastEndLeavesStaleLine`). When it succeeds, the
  running time has just been zeroed, so the loop is entered, and every path
  through its body returns or breaks (MaxMtrParser.h:77-82). Exactly one
  `parse_next_line` decides the result. Either way the target time never
  matters (`ParserProperties.SeekIgnoresTargetTime`).
- **`hasNextLine` is true right after `attach`.** `attach` ends with a
  `seek`, which leaves the track's first line held. Attaching to the
  second track of the two-track example leaves `5 c;` held, so
  `hasNextLine` answers true. Only after `pop` does the next poll meet
  `end;` and fail (`ScriptExamples.PollSecondTrack`).
- **`attach` does not empty the track index.** It logs "No tracks found"
  when the scan finds nothing (MaxMtrParser.h:56), but positions recorded
  for an earlier file stay in the index. They mean nothing for the new
  file, and they make the scan report success; see Findings.

Other behaviour the model makes explicit:

- A track header on the last line is followed by the empty string that
  reading past the end yields. That empty string parses as a line with one
  empty argument.
- Right after a track end the running time is the sentinel `0xFFFFFFFF`.
  Polling on past the end adds the next track's first delta to the
  sentinel, which wraps: `5 c;` is held at 4 ms
  (`ScriptExamples.PollPastTrackEnd`).
- A line whose running time happens to equal the sentinel is not seen as
  held. `hasNextLine` parses past it (`ParserProperties.ParsedLineIsHeld`).

## Model

| member | source | states |
|---|---|---|
| ArduinoString.IndexOf | MaxMtrParser.h:200-203 | the result is the first position at or after `from` holding the character, and `NPos` exactly when there is none there (in particular when `from` is past the end) |
| ArduinoString.LastIndexOf | MaxMtrParser.h:197 | the result is the last position holding the character, and `NPos` exactly when it does not occur |
| ArduinoString.Substring | MaxMtrParser.h:186 | for ends in order within the string the result is the text between them, whichever end is given first; with both ends at or past the length it is empty; it is never longer than the string |
| ArduinoString.SubstringSwapsEnds | MaxMtrParser.h:197 | giving the two ends in either order selects the same text, which is what the last argument relies on when the last `;` lies before the token |
| ArduinoString.SubstringClampsRight | MaxMtrParser.h:197 | any right end at or past the length selects the same text, so the all-ones `size_t` that a missing `;` or space leaves behaves as the length |
| ArduinoString.ToIntDecimal | MaxMtrParser.h:186 | `toInt` of a number written in decimal, followed by text that does not start with a digit, is that number |
| ArduinoString.ValueOfDecimal | MaxMtrParser.h:186 | the digits of the decimal spelling of `n` denote `n` |
| ArduinoString.ToIntNonNumeric | MaxMtrParser.h:105-107 | text whose first character is not a digit, a sign or white space reads as 0 |
| Tokenizer.AddU32 | MaxMtrParser.h:186 | `+=` on the `uint32_t` running time: a sum below 2^32 is exact, and a sum that overflows once loses exactly 2^32 |
| Tokenizer.FetchNextTokenIndex | MaxMtrParser.h:200-203 | the next token starts just past the previous space, or at 0 after `-1`, and runs to the next space, with no space before it |
| Tokenizer.LastArg | MaxMtrParser.h:197 | the last token runs to the end of the line when there is no `;`, and up to the last `;` when that lies at or after the token's start; when it lies before, the ends are swapped and the text runs from the `;` to the token's start |
| Tokenizer.TimeField | MaxMtrParser.h:184-186 | the time field is a prefix of the line without spaces, followed by a space unless it is the whole line |
| Tokenizer.ParseTime | MaxMtrParser.h:184-188 | the field's value is added to the running time modulo 2^32, and the token indices move to just after the first space, or wrap round to 0 when there is none |
| Tokenizer.ParseArgs | MaxMtrParser.h:190-198 | at least one argument is produced, and when no space is left the only one is `LastArg` of the rest of the line: that text cut at the last `;`, or, when that `;` lies before it, the text from the `;` up to it |
| Tokenizer.ParseArgsTokens | MaxMtrParser.h:190-203 | from indices positioned as `parse_time` leaves them, every argument but the last is a space-free token, together they spell the line up to the last token, each followed by its space, and the last argument is `LastArg` of the text after the last space: that text cut at the last `;`, or, when that `;` lies before it, the text from the `;` up to it |
| Tokenizer.Tokenize | MaxMtrParser.h:171-175 | the new running time is the old one plus the time field, and at least one argument is produced |
| Tokenizer.ParseArgsOfJoined | MaxMtrParser.h:190-203 | for space-separated arguments `a1 ... an;rest`, the tokens `parse_args` collects are exactly `a1`, ..., `an` |
| Tokenizer.TokenizeDataLine | MaxMtrParser.h:184-198 | tokenizing a well-formed line `delta a1 ... an;rest` gives back `delta`, added to the running time, and exactly the arguments, so that parsing inverts writing a line |
| Tokenizer.TokenizeLineWithoutSpace | MaxMtrParser.h:184-198 | a line without spaces is all time field, and its single argument is the whole line cut at its last `;` |
| ParserExamples.TokenizeThreeArguments | MaxMtrParser.h:184-198 | `100 a b c;` adds 100 ms and yields the arguments `a`, `b`, `c` |
| ParserExamples.TokenizeOneArgument | MaxMtrParser.h:184-198 | `50 x;` adds 50 ms and yields the single argument `x` |
| ParserExamples.SemicolonBeforeLastSpace | MaxMtrParser.h:190-198 | in `10 a;b c` the last `;` lies before the last space, so the last argument is the swapped `;b `: `a;b` and `;b ` are the arguments |
| MtrParser.Init | MaxMtrParser.h:34-42 | a parser as constructed holds no line, no arguments and no track |
| MtrParser.HasNextLineUnchecked | MaxMtrParser.h:131-133 | definition only: a line is held when the time is not the sentinel and there are arguments; `Init`, `Clear` and `Pop` state when it is false |
| MtrParser.IsTrackStart | MaxMtrParser.h:139-141 | definition only; `MarkersArePrefixes` states what it recognises |
| MtrParser.IsTrackEnd | MaxMtrParser.h:143-145 | definition only; `MarkersArePrefixes` states what it recognises |
| MtrParser.Clear | MaxMtrParser.h:125-129 | after `clear` no line is held and `numArgs` is 0, while the track index stays as it was |
| MtrParser.Pop | MaxMtrParser.h:119-122 | after `pop` no line is held and `numArgs` is 0, while `nextTimeMs` and the track index stay as they were, so the next line's delta adds to the popped line's time |
| ParserProperties.ClearForgetsLine | MaxMtrParser.h:119-133 | clearing twice, or after `pop`, is clearing once, and after `clear` the next `hasNextLine` has to parse a line |
| MtrParser.MarkersArePrefixes | MaxMtrParser.h:139-145 | a line is a track header exactly when it starts with `track`, and a track end exactly when it starts with `end;` |
| MtrParser.NotAMarker | MaxMtrParser.h:139-145 | a line whose first character is not `t` (resp. `e`) is no header (resp. no track end) |
| MtrParser.MarkersAreExclusive | MaxMtrParser.h:139-145 | no line is both a track header and a track end |
| MtrParser.ParseTracks | MaxMtrParser.h:147-155 | the scan reads the file to its end, changes neither time nor arguments, keeps the old positions as a prefix, and succeeds exactly when the index is non-empty |
| MtrParser.ParseTracksAppends | MaxMtrParser.h:147-155 | the scan's only effect on the parser is to append positions to the index |
| MtrParser.ParseTracksIndexesTrackStarts | MaxMtrParser.h:147-155 | the appended positions are exactly the positions after the header lines from the cursor on, strictly increasing |
| MtrParser.NoTrackStartsNoneAdded | MaxMtrParser.h:147-155 | a file without header lines adds nothing to the index |
| MtrParser.TakeLine | MaxMtrParser.h:166-177 | a track end clears the held line and fails; any other line adds its time field to the running time and is held with at least one argument |
| MtrParser.ParseNextLine | MaxMtrParser.h:157-182 | at the end of the file it clears and fails; otherwise it reads one or two lines, keeps the index, and fails only by clearing |
| MtrParser.HasNextLine | MaxMtrParser.h:61-67 | a held line is reported at once without reading, and a success always holds arguments |
| MtrParser.Seek | MaxMtrParser.h:73-92 | a position past the file fails with the time zeroed; otherwise a success lands one or two lines past the position, and a failure clears |
| MtrParser.SeekFirstTrack | MaxMtrParser.h:90-92 | `seek(time_ms)` keeps the index, fails when the first track lies past the file, and a success holds arguments from a line past the first track's position |
| MtrParser.Attach | MaxMtrParser.h:45-59 | the old positions stay a prefix of the index, a success lies within the index and holds arguments, and an index too short for the track fails with nothing held |
| MtrParser.AttachRebuilt | MaxMtrParser.h:45-59 | the same outcomes as `Attach`, with the index built from empty |
| MtrParser.NumArgs | MaxMtrParser.h:98-100 | the count is returned as a `uint8_t`: it is below 256, and exact when there are fewer than 256 arguments |
| MtrParser.ArgAsInt | MaxMtrParser.h:105-107 | an argument whose first character is not a digit, a sign or white space reads as 0 |
| ParserProperties.ArgAsIntReadsDecimal | MaxMtrParser.h:105-107 | an argument holding a decimal number reads back as that number |
| ParserProperties.ParseNextLineReadsOneLine | MaxMtrParser.h:157-182 | a line that is not a header is the only line consumed: a track end clears and fails, and anything else is tokenized onto the running time |
| ParserProperties.ParseNextLineSkipsHeader | MaxMtrParser.h:161-164 | a header is skipped, and the line after it is parsed in its place |
| ParserProperties.ParseNextLineSkipsOneHeaderOnly | MaxMtrParser.h:161-164 | only one header is skipped: a second header right after it is tokenized as a data line |
| ParserProperties.ParseNextLineHeaderAtEnd | MaxMtrParser.h:157-182 | a header on the last line yields a held line of one empty argument and no delay |
| ParserProperties.ParseNextLineOntoDataLine | MaxMtrParser.h:157-182 | a well-formed data line at the cursor is held with its arguments, and its delta is added to the running time |
| ParserProperties.TakeDataLine | MaxMtrParser.h:166-177 | taking a well-formed data line adds its delta and holds exactly its arguments |
| ParserProperties.DataLineIsData | MaxMtrParser.h:139-145 | a well-formed data line is neither a header nor a track end |
| ParserProperties.ParsedLineIsHeld | MaxMtrParser.h:61-67 | after a successful parse, `hasNextLine` answers true without reading, unless the running time equals the sentinel, in which case it parses on |
| ParserProperties.PollingIsIdempotent | MaxMtrParser.h:61-67 | polling twice is polling once, while the running time is not the sentinel |
| ParserProperties.PopThenPollAdvances | MaxMtrParser.h:61-67 | after `pop` the next poll parses exactly one more line, and adds a data line's delta to the popped line's time |
| ParserProperties.PollingAtEndOfFile | MaxMtrParser.h:177-181 | once the file is exhausted every poll fails and changes nothing |
| ParserProperties.SeekFirstTrackIsRewind | MaxMtrParser.h:73-92 | `seek(time_ms)` is, for every target time, the seek to the first track at time 0 that `attach` performs |
| ParserProperties.SeekIgnoresTargetTime | MaxMtrParser.h:73-88 | the outcome of `seek` does not depend on the target time |
| ParserProperties.SeekLandsOnFirstLine | MaxMtrParser.h:73-88 | a seek onto a data line succeeds just past it, with the running time equal to the line's own delta |
| ParserProperties.SeekOntoDataLine | MaxMtrParser.h:73-88 | a seek onto a well-formed data line holds exactly that line's arguments at its delta |
| ParserProperties.SeekFailsAtEnd | MaxMtrParser.h:73-88 | a seek onto a track end, or onto the end of the file, fails and leaves nothing held |
| ParserProperties.SeekPastEndLeavesStaleLine | MaxMtrParser.h:73-88 | a seek to a position past the file fails, but leaves the old arguments at time 0, and the next poll reports them as a line |
| ParserProperties.AttachAppendsTrackPositions | MaxMtrParser.h:45-59 | `attach` appends the positions after this file's headers, and only those, to the old index, then seeks within the combined index |
| ParserProperties.AttachRebuiltIndexesTrackStarts | MaxMtrParser.h:45-59 | with the index rebuilt, it lists exactly the file's header positions, and a file without headers or a track beyond the last fails |
| ScriptExamples.TwoTrackIndex | MaxMtrParser.h:147-155 | the scan of a two-track script finds the positions after lines 0 and 4 |
| ScriptExamples.AttachTwoTracks | MaxMtrParser.h:45-59 | `attach` on a two-track script scans to its end, appends 1 and 5 to the index, and seeks within it |
| ScriptExamples.AttachToFirstTrack | MaxMtrParser.h:45-88 | attaching to the first track holds `10 a;` at 10 ms |
| ScriptExamples.AttachToSecondTrack | MaxMtrParser.h:45-88 | attaching to the second track holds `5 c;` at 5 ms |
| ScriptExamples.AttachFreshToSecondTrack | MaxMtrParser.h:45-104 | a fresh parser attached to track 1 of the two-track script reports two tracks, 5 ms and the single argument `c` |
| ScriptExamples.WalkFirstTrack | MaxMtrParser.h:61-67 | the held `10 a;` is reported without reading; after `pop`, `20 b;` is held at 30 ms |
| ScriptExamples.RewindToFirstTrack | MaxMtrParser.h:90-92 | `seek(time_ms)` on the two-track script, from any file position and for any target time, holds `10 a;` at 10 ms again |
| ScriptExamples.EndOfFirstTrack | MaxMtrParser.h:166-170 | after `pop`, the poll meets `end;`, clears and fails |
| ScriptExamples.PollPastTrackEnd | MaxMtrParser.h:157-188 | polling past a track end skips the next header and holds `5 c;` at 4 ms, the sentinel having wrapped round |
| ScriptExamples.PollSecondTrack | MaxMtrParser.h:61-67 | `5 c;` stays held while polled; after `pop` the poll meets `end;` and fails |
| ScriptExamples.ReattachUsesStalePositions | MaxMtrParser.h:45-59 | re-attaching a file without headers succeeds on the previous file's positions, while the rebuilt index fails |

## Left out

- `argAsFloat` and `argAsDouble` (MaxMtrParser.h:108-117): floating-point parsing is not modelled.
- `has_next_line_checked` (MaxMtrParser.h:135-137): nothing calls it.
- Diagnostic logging (`LOG_INFO`, `LOG_ERROR`): it has no effect on the parser's state or results.
- The `File*` field and byte offsets. The stream is a sequence of lines with a cursor counted in lines.
- The `File` members the parser calls (`available`, `readStringUntil('\n')`, `position`, `seek`) are not part of this model. `LineStream.ReadLine` and `LineStream.SeekTo` state the behaviour assumed of them: reading while text is available yields the line at the cursor and moves past it, reading at the end yields the empty string, and `seek` succeeds exactly for positions within the file and leaves the stream alone when it fails.
- The fixed capacities of the containers used on boards without libstdc++ (16 arguments, 16 tracks), and `args.reserve`. The model's sequences are unbounded.
- Line reading is exact: the stream's lines are the file's `'\n'`-terminated lines, plus a final unterminated line if there is one. The `Stream` read timeout is not modelled. A `'\r'` before the `'\n'` stays in the line, which is the `rest` after the last `;` in `Tokenizer.DataLine`.
- ArduinoString.ToInt: reads only leading decimal digits. The sign, leading white space and overflow of the `long` that `atol` returns are not modelled, so negative deltas are out of scope.
- MtrParser.ArgAsInt: returns the unbounded value of the leading digits, without the truncation to `int32_t`.
- MtrParser.ArgAsString: takes a `nat` index below the argument count. The source's `uint8_t` parameter and its out-of-range access are not modelled.
- MtrParser.NextTimeMs, MtrParser.NumTracks and MtrParser.ArgAsString: plain accessors without contracts of their own. Their values after an `attach` are stated in `ScriptExamples.AttachFreshToSecondTrack`.

## Findings

| source | as written | input that shows it | evidently intended | confidence | as-written member | corrected member |
|---|---|---|---|---|---|---|
| MaxMtrParser.h:45-59 | `attach` calls `clear()`, which resets the time and the arguments but not `track_positions`. Positions from earlier files stay at the front of the index, and `parse_tracks` reports success because of them. | A parser whose index holds 1 and 5 from a two-track script is re-attached, with track 0, to a file of two data lines and no header. `attach` returns true and holds the second line's arguments. (That outcome is for line-count positions; a stale byte offset can land mid-line.) | The index is rebuilt on every `attach`. A file without track headers fails with "no tracks found", and `numTracks` counts this file's headers. | medium; not executed | ScriptExamples.ReattachUsesStalePositions | MtrParser.AttachRebuilt |

For the corrected member, `ParserProperties.AttachRebuiltIndexesTrackStarts` proves the intended property: the rebuilt index lists exactly the file's header positions, and a file without headers fails.
