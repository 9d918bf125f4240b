/**
 Properties of the MTR parser's state machine that relate several calls:
 what `parse_next_line` does with data lines, track headers and the end of a
 track; polling with `hasNextLine` and advancing with `pop`; what `seek`
 lands on; and how `attach` grows the track index.
 */
module ParserProperties {
  import opened ArduinoString
  import opened LineStream
  import opened Tokenizer
  import opened MtrParser

  /** A line that is neither a track header nor a track end. */
  predicate IsDataLine(line: string)
  {
    !IsTrackStart(line) && !IsTrackEnd(line)
  }

  /** A data line at the cursor is read, its delta added to the running time
      and its tokens made the arguments; a track end at the cursor clears the
      held line and fails. Either way exactly one line is consumed. */
  lemma ParseNextLineReadsOneLine(p: Parser, f: Stream)
    requires Available(f) && !IsTrackStart(f.lines[f.cursor])
    ensures var r := ParseNextLine(p, f);
      var line := f.lines[f.cursor];
      && r.file == f.(cursor := f.cursor + 1)
      && (r.ok <==> !IsTrackEnd(line))
      && (IsTrackEnd(line) ==> r.parser == Clear(p))
      && (!IsTrackEnd(line) ==>
            r.parser.nextTimeMs == AddU32(p.nextTimeMs, ToInt(TimeField(line)))
            && r.parser.args == Tokenize(line, p.nextTimeMs).1
            && r.parser.trackPositions == p.trackPositions)
  {
  }

  /** A track header is skipped: the line after it is parsed in its place. */
  lemma ParseNextLineSkipsHeader(p: Parser, f: Stream)
    requires f.cursor + 1 < |f.lines|
    requires IsTrackStart(f.lines[f.cursor]) && !IsTrackStart(f.lines[f.cursor + 1])
    ensures ParseNextLine(p, f) == ParseNextLine(p, f.(cursor := f.cursor + 1))
  {
  }

  /** Only one header is skipped: a second header right after the first is
      tokenized as a data line. */
  lemma ParseNextLineSkipsOneHeaderOnly(p: Parser, f: Stream)
    requires f.cursor + 1 < |f.lines|
    requires IsTrackStart(f.lines[f.cursor]) && IsTrackStart(f.lines[f.cursor + 1])
    ensures var r := ParseNextLine(p, f);
      r.ok && r.file.cursor == f.cursor + 2
      && r.parser.args == Tokenize(f.lines[f.cursor + 1], p.nextTimeMs).1
  {
    var line := f.lines[f.cursor + 1];
    MarkersAreExclusive(line);
    assert ParseNextLine(p, f) == TakeLine(p, line, f.(cursor := f.cursor + 2));
  }

  /** A header on the last line is followed by the empty string that reading
      past the end yields, which parses as a line of one empty argument and
      no delay. */
  lemma ParseNextLineHeaderAtEnd(p: Parser, f: Stream)
    requires f.cursor + 1 == |f.lines| && IsTrackStart(f.lines[f.cursor])
    ensures var r := ParseNextLine(p, f);
      r.ok && r.file.cursor == |f.lines|
      && r.parser.args == [""] && r.parser.nextTimeMs == p.nextTimeMs
  {
    assert TimeField("") == "";
    assert ToInt("") == 0;
  }

  /** A successfully parsed line is held, so that `hasNextLine` answers true
      without reading, unless its running time happens to equal the
      sentinel: then the line is passed over and the next one parsed. */
  lemma ParsedLineIsHeld(p: Parser, f: Stream)
    ensures var r := ParseNextLine(p, f);
      && (r.ok && r.parser.nextTimeMs != SENTINEL ==>
            HasNextLine(r.parser, r.file) == Step(r.parser, r.file, true))
      && (r.ok && r.parser.nextTimeMs == SENTINEL ==>
            HasNextLine(r.parser, r.file) == ParseNextLine(r.parser, r.file))
      && (!r.ok ==> HasNextLine(r.parser, r.file) == ParseNextLine(r.parser, r.file))
  {
  }

  /** Polling twice is polling once, unless the running time reached the
      sentinel value. */
  lemma PollingIsIdempotent(p: Parser, f: Stream)
    ensures var r := HasNextLine(p, f);
      r.ok && r.parser.nextTimeMs != SENTINEL ==> HasNextLine(r.parser, r.file) == r
  {
  }

  /** After `pop` the next `hasNextLine` parses exactly one more line, and
      a data line's delta is added to the time of the line just popped. */
  lemma PopThenPollAdvances(p: Parser, f: Stream)
    ensures HasNextLine(Pop(p), f) == ParseNextLine(Pop(p), f)
    ensures Available(f) && IsDataLine(f.lines[f.cursor]) ==>
      var r := HasNextLine(Pop(p), f);
      r.ok && r.file.cursor == f.cursor + 1
      && r.parser.nextTimeMs == AddU32(p.nextTimeMs, ToInt(TimeField(f.lines[f.cursor])))
  {
  }

  /** `clear` forgets the held line and the running time alike: clearing
      twice, or after a `pop`, is clearing once, and the next `hasNextLine`
      has to parse a line. */
  lemma ClearForgetsLine(p: Parser, f: Stream)
    ensures Clear(Clear(p)) == Clear(p) && Clear(Pop(p)) == Clear(p)
    ensures HasNextLine(Clear(p), f) == ParseNextLine(Clear(p), f)
  {
  }

  /** Once the file is exhausted every poll fails and changes nothing more. */
  lemma PollingAtEndOfFile(p: Parser, f: Stream)
    requires !Available(f)
    ensures HasNextLine(Clear(p), f) == Step(Clear(p), f, false)
  {
  }

  /** `seek(time_ms)` is a seek to the start of the first track, whatever
      the target time: it behaves exactly as `attach` does when it seeks to
      track 0 at time 0. */
  lemma SeekFirstTrackIsRewind(p: Parser, f: Stream, timeMs: U32)
    requires |p.trackPositions| > 0
    ensures SeekFirstTrack(p, f, timeMs) == Seek(p, f, 0, 0)
  {
    SeekIgnoresTargetTime(p, f, 0, timeMs, 0);
  }

  /** `seek` does not look at its target time. */
  lemma SeekIgnoresTargetTime(p: Parser, f: Stream, track: nat, t1: U32, t2: U32)
    requires track < |p.trackPositions|
    ensures Seek(p, f, track, t1) == Seek(p, f, track, t2)
  {
  }

  /** A `seek` onto a data line lands on it with the running time equal to
      the line's own delta. */
  lemma SeekLandsOnFirstLine(p: Parser, f: Stream, track: nat, timeMs: U32)
    requires track < |p.trackPositions|
    requires p.trackPositions[track] < |f.lines| && IsDataLine(f.lines[p.trackPositions[track]])
    ensures var line := f.lines[p.trackPositions[track]];
      var r := Seek(p, f, track, timeMs);
      r.ok && r.file.cursor == p.trackPositions[track] + 1
      && r.parser.nextTimeMs == ToInt(TimeField(line)) % 0x1_0000_0000
      && r.parser.args == Tokenize(line, 0).1
  {
    ParseNextLineReadsOneLine(p.(nextTimeMs := 0), f.(cursor := p.trackPositions[track]));
  }

  /** A well-formed data line is neither a track header nor a track end. */
  lemma DataLineIsData(delta: nat, args: seq<string>, rest: string)
    ensures IsDataLine(DataLine(delta, args, rest))
  {
    var line := DataLine(delta, args, rest);
    assert line[0] == Decimal(delta)[0];
    assert IsDigit(line[0]);
    NotAMarker(line);
  }

  /** Taking a well-formed data line adds its delta to the running time and
      holds exactly its arguments. */
  lemma TakeDataLine(p: Parser, delta: nat, args: seq<string>, rest: string, f: Stream)
    requires |args| >= 1 && SpaceFree(args) && ' ' !in rest && ';' !in rest
    ensures TakeLine(p, DataLine(delta, args, rest), f) ==
      Step(p.(nextTimeMs := AddU32(p.nextTimeMs, delta), args := args), f, true)
  {
    DataLineIsData(delta, args, rest);
    TokenizeDataLine(delta, args, rest, p.nextTimeMs);
  }

  /** `parse_next_line` on a well-formed data line adds its delta to the
      running time and holds exactly its arguments. */
  lemma ParseNextLineOntoDataLine(p: Parser, f: Stream, delta: nat, args: seq<string>, rest: string)
    requires Available(f) && f.lines[f.cursor] == DataLine(delta, args, rest)
    requires |args| >= 1 && SpaceFree(args) && ' ' !in rest && ';' !in rest
    ensures ParseNextLine(p, f) ==
      Step(p.(nextTimeMs := AddU32(p.nextTimeMs, delta), args := args), f.(cursor := f.cursor + 1), true)
  {
    var g := f.(cursor := f.cursor + 1);
    assert ParseNextLine(p, f) == TakeLine(p, f.lines[f.cursor], g) by {
      DataLineIsData(delta, args, rest);
    }
    TakeDataLine(p, delta, args, rest, g);
  }

  /** A `seek` onto a well-formed data line holds that line's arguments at
      the line's own delta. */
  lemma SeekOntoDataLine(p: Parser, f: Stream, track: nat, timeMs: U32,
                         delta: U32, args: seq<string>, rest: string)
    requires track < |p.trackPositions| && p.trackPositions[track] < |f.lines|
    requires f.lines[p.trackPositions[track]] == DataLine(delta, args, rest)
    requires |args| >= 1 && SpaceFree(args) && ' ' !in rest && ';' !in rest
    ensures Seek(p, f, track, timeMs) ==
      Step(p.(nextTimeMs := delta, args := args), f.(cursor := p.trackPositions[track] + 1), true)
  {
    var pos := p.trackPositions[track];
    var line := f.lines[pos];
    var start := p.(nextTimeMs := 0);
    var g := f.(cursor := pos + 1);
    assert Seek(p, f, track, timeMs) == TakeLine(start, line, g) by {
      DataLineIsData(delta, args, rest);
    }
    TakeDataLine(start, delta, args, rest, g);
    AddU32Zero(delta);
  }

  /** A `seek` onto a track end, or onto the end of the file, fails and
      leaves the parser holding no line. */
  lemma SeekFailsAtEnd(p: Parser, f: Stream, track: nat, timeMs: U32)
    requires track < |p.trackPositions|
    requires var pos := p.trackPositions[track];
      pos == |f.lines| || (pos < |f.lines| && IsTrackEnd(f.lines[pos]) && !IsTrackStart(f.lines[pos]))
    ensures var r := Seek(p, f, track, timeMs);
      !r.ok && r.parser == Clear(p) && !HasNextLineUnchecked(r.parser)
  {
  }

  /** `attach` never forgets a position: it appends this file's track
      positions, exactly those of its track-start lines from the current
      position on, to whatever the index already held, and then seeks
      within the combined index. */
  lemma AttachAppendsTrackPositions(p: Parser, f: Stream, trackIdx: nat)
    ensures var added := Added(Clear(p), f);
      && Attach(p, f, trackIdx).parser.trackPositions == p.trackPositions + added
      && IndexesTrackStarts(f.lines, f.cursor, added)
    ensures var scan := ParseTracks(Clear(p), f);
      trackIdx < |scan.parser.trackPositions| ==>
        Attach(p, f, trackIdx) == Seek(scan.parser, scan.file, trackIdx, 0)
  {
    var scan := ParseTracks(Clear(p), f);
    var tp := scan.parser.trackPositions;
    assert tp == tp[..|p.trackPositions|] + tp[|p.trackPositions|..];
    ParseTracksIndexesTrackStarts(Clear(p), f);
  }

  /** An argument written as a decimal number, possibly followed by text
      that does not start with a digit, reads back as that number. */
  lemma ArgAsIntReadsDecimal(p: Parser, i: nat, n: nat, suffix: string)
    requires i < |p.args| && p.args[i] == Decimal(n) + suffix
    requires |suffix| == 0 || !IsDigit(suffix[0])
    ensures ArgAsInt(p, i) == n
  {
    ToIntDecimal(n, suffix);
  }

  /** `attach` with a rebuilt index indexes exactly the file's track-start
      lines, and fails when the file has none or the requested track is
      beyond the last. */
  lemma AttachRebuiltIndexesTrackStarts(p: Parser, f: Stream, trackIdx: nat)
    ensures var r := AttachRebuilt(p, f, trackIdx);
      && IndexesTrackStarts(f.lines, f.cursor, r.parser.trackPositions)
      && (trackIdx >= NumTracks(r.parser) ==> !r.ok && !HasNextLineUnchecked(r.parser))
      && ((forall n: nat :: !IsTrackPosition(f.lines, f.cursor, n)) ==> !r.ok)
  {
    var q := p.(trackPositions := []);
    AttachAppendsTrackPositions(q, f, trackIdx);
    assert Clear(q).trackPositions == [];
    assert q.trackPositions + Added(Clear(q), f) == Added(Clear(q), f);
  }

  /** A seek whose recorded position lies past the end of the file fails
      but leaves the held arguments in place at time 0, so that the next
      poll reports them as a line. */
  lemma SeekPastEndLeavesStaleLine(p: Parser, f: Stream, track: nat, timeMs: U32)
    requires track < |p.trackPositions| && p.trackPositions[track] > |f.lines|
    requires |p.args| > 0
    ensures var r := Seek(p, f, track, timeMs);
      !r.ok && r.parser.args == p.args && HasNextLine(r.parser, r.file) == Step(r.parser, r.file, true)
  {
  }
}
