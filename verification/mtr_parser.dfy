/**
 The MTR `Parser`: the track index built by `attach`, and the cursor state
 machine behind `seek`, `hasNextLine` and `pop`. A parser value holds the
 fields `next_time_ms`, `args` and `track_positions`; every operation takes
 the attached file as a `Stream` and hands back the parser, the file and the
 call's boolean result as a `Step`.
 */
module MtrParser {
  import opened ArduinoString
  import opened LineStream
  import opened Tokenizer

  /** The value of `next_time_ms` that means "no line held". */
  const SENTINEL: U32 := 0xFFFF_FFFF

  datatype Parser = Parser(nextTimeMs: U32, args: seq<string>, trackPositions: seq<nat>)

  /** The parser and its file after a call, and the call's result. */
  datatype Step = Step(parser: Parser, file: Stream, ok: bool)

  /** A parser as constructed, before any `attach`: no line held and no
      track indexed. */
  function Init(): (p: Parser)
    ensures !HasNextLineUnchecked(p) && NumArgs(p) == 0
    ensures NumTracks(p) == 0
  {
    Parser(SENTINEL, [], [])
  }

  /** `clear()`: drops the held line, and keeps the track index. */
  function Clear(p: Parser): (q: Parser)
    ensures !HasNextLineUnchecked(q) && NumArgs(q) == 0
    ensures NumTracks(q) == NumTracks(p) && q.trackPositions == p.trackPositions
  {
    p.(nextTimeMs := SENTINEL, args := [])
  }

  /** `pop()`: drops the held arguments, so that no line is held any more,
      and keeps the running time the next line's delta is added to. */
  function Pop(p: Parser): (q: Parser)
    ensures !HasNextLineUnchecked(q) && NumArgs(q) == 0
    ensures NextTimeMs(q) == NextTimeMs(p) && q.trackPositions == p.trackPositions
  {
    p.(args := [])
  }

  /** `has_next_line_unchecked()`: a line is held. */
  predicate HasNextLineUnchecked(p: Parser)
  {
    p.nextTimeMs != SENTINEL && |p.args| > 0
  }

  /** `is_next_line_track_start` */
  predicate IsTrackStart(line: string)
  {
    Substring(line, 0, 5) == "track"
  }

  /** `is_next_line_track_end` */
  predicate IsTrackEnd(line: string)
  {
    Substring(line, 0, 4) == "end;"
  }

  /** The two markers are recognised by their prefix, whatever follows. */
  lemma MarkersArePrefixes(line: string)
    ensures IsTrackStart(line) <==> |line| >= 5 && line[..5] == "track"
    ensures IsTrackEnd(line) <==> |line| >= 4 && line[..4] == "end;"
  {
  }

  /** A line whose first character is not the marker's is no marker. */
  lemma NotAMarker(line: string)
    requires |line| > 0
    ensures line[0] != 't' ==> !IsTrackStart(line)
    ensures line[0] != 'e' ==> !IsTrackEnd(line)
  {
    MarkersArePrefixes(line);
    if |line| >= 5 {
      assert line[..5][0] == line[0];
    }
    if |line| >= 4 {
      assert line[..4][0] == line[0];
    }
  }

  /** No line is both a track header and a track end. */
  lemma MarkersAreExclusive(line: string)
    ensures !(IsTrackStart(line) && IsTrackEnd(line))
  {
    if IsTrackStart(line) {
      MarkersArePrefixes(line);
      assert line[0] == line[..5][0] == 't';
      NotAMarker(line);
    }
  }

  /** `parse_tracks()`: reads the rest of the file and appends the position
      just after every track-start line; succeeds when the index, old entries
      included, is non-empty. */
  function ParseTracks(p: Parser, f: Stream): (r: Step)
    ensures r.file.lines == f.lines && !Available(r.file)
    ensures Available(f) ==> r.file.cursor == |f.lines|
    ensures !Available(f) ==> r.file == f
    ensures r.parser.nextTimeMs == p.nextTimeMs && r.parser.args == p.args
    ensures |p.trackPositions| <= |r.parser.trackPositions|
    ensures r.parser.trackPositions[..|p.trackPositions|] == p.trackPositions
    ensures r.ok <==> |r.parser.trackPositions| > 0
    decreases |f.lines| - f.cursor
  {
    if !Available(f) then Step(p, f, |p.trackPositions| > 0)
    else
      var (line, g) := ReadLine(f);
      var q := if IsTrackStart(line) then p.(trackPositions := p.trackPositions + [Position(g)]) else p;
      ParseTracks(q, g)
  }

  /** The positions one call of `parse_tracks` appends to the index. */
  function Added(p: Parser, f: Stream): seq<nat>
  {
    ParseTracks(p, f).parser.trackPositions[|p.trackPositions|..]
  }

  /** `parse_tracks` changes nothing but the index, and only appends to it. */
  lemma ParseTracksAppends(p: Parser, f: Stream)
    ensures ParseTracks(p, f).parser == p.(trackPositions := p.trackPositions + Added(p, f))
  {
    var tp := ParseTracks(p, f).parser.trackPositions;
    assert tp == tp[..|p.trackPositions|] + tp[|p.trackPositions|..];
  }

  /** One turn of the `parse_tracks` loop: the line read contributes its
      following position when it is a track start, then the scan goes on. */
  lemma AddedStep(p: Parser, f: Stream)
    requires Available(f)
    ensures var g := f.(cursor := f.cursor + 1);
      Added(p, f) ==
        if IsTrackStart(f.lines[f.cursor])
        then [f.cursor + 1] + Added(p.(trackPositions := p.trackPositions + [f.cursor + 1]), g)
        else Added(p, g)
  {
    var g := f.(cursor := f.cursor + 1);
    if IsTrackStart(f.lines[f.cursor]) {
      var q := p.(trackPositions := p.trackPositions + [f.cursor + 1]);
      var r := ParseTracks(q, g);
      assert ParseTracks(p, f) == r;
      assert r.parser.trackPositions[..|q.trackPositions|] == q.trackPositions;
      assert r.parser.trackPositions[|p.trackPositions|] == f.cursor + 1;
      assert Added(p, f) == [f.cursor + 1] + Added(q, g);
    }
  }

  /** `n` is the position just after a track-start line at or past `from`. */
  predicate IsTrackPosition(lines: seq<string>, from: nat, n: nat)
  {
    from < n <= |lines| && IsTrackStart(lines[n - 1])
  }

  /** `a` lists, in strictly increasing order, exactly the positions just
      after the track-start lines at or past `from`. */
  ghost predicate IndexesTrackStarts(lines: seq<string>, from: nat, a: seq<nat>)
  {
    && (forall i :: 0 <= i < |a| ==> IsTrackPosition(lines, from, a[i]))
    && (forall i, j :: 0 <= i < j < |a| ==> a[i] < a[j])
    && (forall n :: IsTrackPosition(lines, from, n) ==> n in a)
  }

  /** Where no line starts a track, the index is empty. */
  lemma NoTrackStartsNoneAdded(lines: seq<string>, from: nat, a: seq<nat>)
    requires IndexesTrackStarts(lines, from, a)
    requires forall n: nat :: !IsTrackPosition(lines, from, n)
    ensures a == []
  {
    assert |a| > 0 ==> IsTrackPosition(lines, from, a[0]);
  }

  /** An index of the lines past `c` extends to one of the lines from `c`. */
  lemma IndexesTrackStartsStep(lines: seq<string>, c: nat, later: seq<nat>)
    requires c < |lines| && IndexesTrackStarts(lines, c + 1, later)
    ensures IndexesTrackStarts(lines, c, if IsTrackStart(lines[c]) then [c + 1] + later else later)
  {
    if IsTrackStart(lines[c]) {
      var all := [c + 1] + later;
      forall i | 0 <= i < |all| ensures IsTrackPosition(lines, c, all[i]) {
        if i > 0 {
          assert all[i] == later[i - 1];
        }
      }
      forall i, j | 0 <= i < j < |all| ensures all[i] < all[j] {
        assert all[j] == later[j - 1];
        if i > 0 {
          assert all[i] == later[i - 1];
        }
      }
      forall n: nat | IsTrackPosition(lines, c, n) ensures n in all {
        if n > c + 1 {
          assert IsTrackPosition(lines, c + 1, n);
        }
      }
    } else {
      forall n: nat | IsTrackPosition(lines, c, n) ensures n in later {
        assert IsTrackPosition(lines, c + 1, n);
      }
    }
  }

  /** The positions `parse_tracks` adds are exactly the positions just after
      the track-start lines from the cursor on, in strictly increasing
      order. */
  lemma {:induction false} ParseTracksIndexesTrackStarts(p: Parser, f: Stream)
    ensures IndexesTrackStarts(f.lines, f.cursor, Added(p, f))
    decreases |f.lines| - f.cursor
  {
    if Available(f) {
      var c := f.cursor;
      var g := f.(cursor := c + 1);
      var q := if IsTrackStart(f.lines[c])
        then p.(trackPositions := p.trackPositions + [c + 1]) else p;
      AddedStep(p, f);
      ParseTracksIndexesTrackStarts(q, g);
      IndexesTrackStartsStep(f.lines, c, Added(q, g));
    } else {
      assert Added(p, f) == [];
    }
  }

  /** What `parse_next_line` does with the line it settles on: a track end
      clears the held line and fails, anything else is tokenized. */
  function TakeLine(p: Parser, line: string, f: Stream): (r: Step)
    ensures r.file == f && r.parser.trackPositions == p.trackPositions
    ensures r.ok <==> !IsTrackEnd(line)
    ensures r.ok ==> r.parser.nextTimeMs == AddU32(p.nextTimeMs, ToInt(TimeField(line)))
    ensures r.ok ==> |r.parser.args| >= 1
    ensures !r.ok ==> r.parser == Clear(p)
  {
    if IsTrackEnd(line) then Step(Clear(p), f, false)
    else
      var (t, args) := Tokenize(line, p.nextTimeMs);
      Step(p.(nextTimeMs := t, args := args), f, true)
  }

  /** `parse_next_line()`: at the end of the file, clears and fails;
      otherwise reads a line, reads one more in its place when it is a track
      header, and takes the line read last. */
  function ParseNextLine(p: Parser, f: Stream): (r: Step)
    ensures r.file.lines == f.lines && r.parser.trackPositions == p.trackPositions
    ensures !Available(f) ==> r == Step(Clear(p), f, false)
    ensures Available(f) ==> f.cursor < r.file.cursor <= f.cursor + 2
    ensures r.ok ==> Available(f) && |r.parser.args| >= 1
    ensures !r.ok ==> r.parser == Clear(p)
  {
    if !Available(f) then Step(Clear(p), f, false)
    else
      var (first, g) := ReadLine(f);
      var (line, h) := if IsTrackStart(first) then ReadLine(g) else (first, g);
      TakeLine(p, line, h)
  }

  /** `hasNextLine()`: true at once while a line is held, otherwise the
      result of parsing the next one. */
  function HasNextLine(p: Parser, f: Stream): (r: Step)
    ensures r.ok ==> |r.parser.args| >= 1
    ensures HasNextLineUnchecked(p) ==> r == Step(p, f, true)
  {
    if HasNextLineUnchecked(p) then Step(p, f, true) else ParseNextLine(p, f)
  }

  /** `seek(track, time_ms)`: zeroes the running time and moves the file to
      the track's recorded position. When that file seek fails, the loop is
      never entered: `seek` fails with the time at 0 and the old arguments
      still held. Once it succeeds, the loop test `next_time_ms <= time_ms`
      holds (0 is below every `uint32_t`), and every path through the loop
      body returns or breaks, so exactly one `parse_next_line` decides the
      result, whatever `time_ms` is. */
  function Seek(p: Parser, f: Stream, track: nat, timeMs: U32): (r: Step)
    requires track < |p.trackPositions|
    ensures r.file.lines == f.lines && r.parser.trackPositions == p.trackPositions
    ensures p.trackPositions[track] > |f.lines| ==> r == Step(p.(nextTimeMs := 0), f, false)
    ensures p.trackPositions[track] <= |f.lines| && r.ok ==>
      |r.parser.args| >= 1 && p.trackPositions[track] < r.file.cursor <= p.trackPositions[track] + 2
    ensures p.trackPositions[track] <= |f.lines| && !r.ok ==> r.parser == Clear(p)
  {
    var start := p.(nextTimeMs := 0);
    var (found, g) := SeekTo(f, p.trackPositions[track]);
    if found then ParseNextLine(start, g) else Step(start, f, false)
  }

  /** `seek(time_ms)`: seeks within the first track. Like `Seek`, it
      leaves the index alone, fails when the first track's position lies
      past the file, and otherwise holds a line of that track or clears. */
  function SeekFirstTrack(p: Parser, f: Stream, timeMs: U32): (r: Step)
    requires |p.trackPositions| > 0
    ensures r.file.lines == f.lines && r.parser.trackPositions == p.trackPositions
    ensures p.trackPositions[0] > |f.lines| ==> !r.ok
    ensures r.ok ==> |r.parser.args| >= 1 && p.trackPositions[0] < r.file.cursor
  {
    Seek(p, f, 0, timeMs)
  }

  /** `attach(f, track_idx)`: clears the held line, indexes the tracks from
      the file's current position on, and seeks to the start of the chosen
      track; fails without seeking when the index is empty or too short. */
  function Attach(p: Parser, f: Stream, trackIdx: nat): (r: Step)
    ensures r.file.lines == f.lines
    ensures |p.trackPositions| <= |r.parser.trackPositions|
    ensures r.parser.trackPositions[..|p.trackPositions|] == p.trackPositions
    ensures r.ok ==> trackIdx < |r.parser.trackPositions| && |r.parser.args| >= 1
    ensures trackIdx >= |r.parser.trackPositions| ==>
      !r.ok && r.parser.nextTimeMs == SENTINEL && r.parser.args == [] && !Available(r.file)
  {
    var scan := ParseTracks(Clear(p), f);
    if !scan.ok then Step(scan.parser, scan.file, false)
    else if trackIdx < |scan.parser.trackPositions| then Seek(scan.parser, scan.file, trackIdx, 0)
    else Step(scan.parser, scan.file, false)
  }

  /** `attach` with the index emptied before the scan, so that it holds the
      tracks of this file only; `Attach` keeps the positions recorded for
      earlier files, which mean nothing in this one. */
  function AttachRebuilt(p: Parser, f: Stream, trackIdx: nat): (r: Step)
    ensures r.file.lines == f.lines
    ensures r.ok ==> trackIdx < |r.parser.trackPositions| && |r.parser.args| >= 1
    ensures trackIdx >= |r.parser.trackPositions| ==>
      !r.ok && r.parser.nextTimeMs == SENTINEL && r.parser.args == [] && !Available(r.file)
  {
    Attach(p.(trackPositions := []), f, trackIdx)
  }

  /** `nextTimeMs()` */
  function NextTimeMs(p: Parser): U32
  {
    p.nextTimeMs
  }

  /** `numTracks()` */
  function NumTracks(p: Parser): nat
  {
    |p.trackPositions|
  }

  /** `numArgs()`: the count is returned as a `uint8_t`. */
  function NumArgs(p: Parser): (n: nat)
    ensures n < 256
    ensures |p.args| < 256 ==> n == |p.args|
  {
    |p.args| % 256
  }

  /** `argAsString(i)` */
  function ArgAsString(p: Parser, i: nat): string
    requires i < |p.args|
  {
    p.args[i]
  }

  /** `argAsInt(i)`: an argument whose first character is not a digit, a
      sign or white space reads as 0. */
  function ArgAsInt(p: Parser, i: nat): (v: nat)
    requires i < |p.args|
    ensures |p.args[i]| == 0 || !MayStartNumber(p.args[i][0]) ==> v == 0
  {
    ToInt(p.args[i])
  }
}
