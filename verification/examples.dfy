/**
 Concrete runs of the MTR parser on small scripts.
 */
module ParserExamples {
  import opened ArduinoString
  import opened LineStream
  import opened Tokenizer
  import opened MtrParser

  /** `100 a b c;` carries a delay of 100 and the arguments a, b and c. */
  lemma TokenizeThreeArguments(time: U32)
    ensures Tokenize("100 a b c;", time) == (AddU32(time, 100), ["a", "b", "c"])
  {
    assert DataLine(100, ["a", "b", "c"], "") == "100 a b c;" by {
      assert Decimal(100) == "100";
      assert Join(["a", "b", "c"]) == "a b c";
    }
    TokenizeDataLine(100, ["a", "b", "c"], "", time);
  }

  /** `50 x;` carries a delay of 50 and the single argument x. */
  lemma TokenizeOneArgument(time: U32)
    ensures Tokenize("50 x;", time) == (AddU32(time, 50), ["x"])
  {
    assert DataLine(50, ["x"], "") == "50 x;" by {
      assert Decimal(50) == "50";
    }
    TokenizeDataLine(50, ["x"], "", time);
  }

  /** In `10 a;b c` the last `;` lies before the last space, so `substring`
      swaps the ends of the last argument: it is `;b `, text from before the
      last space, space included. */
  lemma SemicolonBeforeLastSpace(time: U32)
    ensures Tokenize("10 a;b c", time) == (AddU32(time, 10), ["a;b", ";b "])
  {
    var line := "10 a;b c";
    assert IndexOf(line, ' ', 0) == At(2) && IndexOf(line, ' ', 3) == At(6);
    assert IndexOf(line, ' ', 7) == NPos;
    LastOccurrenceAt(line, ';', 4);
    assert ToInt(line[..2]) == 10 by {
      ToIntDecimal(10, "");
      assert Decimal(10) + "" == line[..2];
    }
    assert ParseArgs(line, Tokens(7, NPos)) == [line[4..7]];
    assert TimeField(line) == line[..2];
    assert ParseTime(line, time) == (AddU32(time, 10), Tokens(3, At(6)));
    assert ParseArgs(line, Tokens(3, At(6))) == [line[3..6]] + ParseArgs(line, Tokens(7, NPos));
    assert line[3..6] == "a;b" && line[4..7] == ";b ";
    assert ParseArgs(line, Tokens(3, At(6))) == ["a;b", ";b "];
    assert Tokenize(line, time) == (ParseTime(line, time).0, ParseArgs(line, ParseTime(line, time).1));
  }
}

module ScriptExamples {
  import opened ArduinoString
  import opened LineStream
  import opened Tokenizer
  import opened MtrParser
  import opened ParserProperties

  /** A script of two tracks: `10 a;` and `20 b;` in the first, `5 c;` in
      the second. */
  const TwoTracks: seq<string> := ["track", "10 a;", "20 b;", "end;", "track", "5 c;", "end;"]

  /** Scripts laid out like `TwoTracks`, whatever their header and footer
      lines say after the markers. */
  predicate TwoTrackScript(lines: seq<string>)
  {
    && |lines| == 7
    && IsTrackStart(lines[0]) && IsTrackStart(lines[4])
    && lines[1] == DataLine(10, ["a"], "")
    && lines[2] == DataLine(20, ["b"], "")
    && lines[5] == DataLine(5, ["c"], "")
    && IsTrackEnd(lines[3]) && IsTrackEnd(lines[6])
  }

  /** `TwoTracks` has that layout. */
  lemma TwoTracksLayout()
    ensures TwoTrackScript(TwoTracks)
  {
    assert Decimal(10) == "10" && Decimal(20) == "20" && Decimal(5) == "5";
  }

  /** The data lines, footers and headers of a two-track script. */
  lemma TwoTrackLines(lines: seq<string>)
    requires TwoTrackScript(lines)
    ensures IsDataLine(lines[1]) && IsDataLine(lines[2]) && IsDataLine(lines[5])
    ensures !IsTrackStart(lines[3]) && !IsTrackStart(lines[6])
  {
    DataLineIsData(10, ["a"], "");
    DataLineIsData(20, ["b"], "");
    DataLineIsData(5, ["c"], "");
    MarkersAreExclusive(lines[3]);
    MarkersAreExclusive(lines[6]);
  }

  /** The lines after which a track starts in a two-track script. */
  lemma TwoTrackPositions(lines: seq<string>)
    requires TwoTrackScript(lines)
    ensures forall n: nat :: IsTrackPosition(lines, 0, n) <==> n == 1 || n == 5
  {
    TwoTrackLines(lines);
  }

  /** The only strictly increasing sequence over `{x, y}` holding both. */
  lemma IncreasingPair(a: seq<nat>, x: nat, y: nat)
    requires x < y && x in a && y in a
    requires forall i :: 0 <= i < |a| ==> a[i] == x || a[i] == y
    requires forall i, j :: 0 <= i < j < |a| ==> a[i] < a[j]
    ensures a == [x, y]
  {
    assert |a| >= 2;
    assert a[0] == x && a[1] == y;
    assert |a| == 2 by {
      assert forall i :: 1 <= i < |a| ==> a[i] == y;
      assert a[1] == a[|a| - 1];
    }
  }

  /** The scan of a two-track script finds the positions after lines 0
      and 4. */
  lemma TwoTrackIndex(p: Parser, lines: seq<string>)
    requires TwoTrackScript(lines)
    ensures Added(p, Stream(lines, 0)) == [1, 5]
  {
    var a := Added(p, Stream(lines, 0));
    assert IndexesTrackStarts(lines, 0, a) by {
      ParseTracksIndexesTrackStarts(p, Stream(lines, 0));
    }
    assert forall n: nat :: IsTrackPosition(lines, 0, n) <==> n == 1 || n == 5 by {
      TwoTrackPositions(lines);
    }
    assert IsTrackPosition(lines, 0, 1) && IsTrackPosition(lines, 0, 5);
    IncreasingPair(a, 1, 5);
  }

  /** `attach` on a two-track script scans it to the end, appends 1 and 5
      to the index and seeks within the result. */
  lemma AttachTwoTracks(p: Parser, lines: seq<string>, trackIdx: nat)
    requires TwoTrackScript(lines)
    ensures var scan := ParseTracks(Clear(p), Stream(lines, 0));
      && scan.parser == Clear(p).(trackPositions := p.trackPositions + [1, 5])
      && scan.file == Stream(lines, 7)
      && (trackIdx < |p.trackPositions| + 2 ==>
            Attach(p, Stream(lines, 0), trackIdx) == Seek(scan.parser, scan.file, trackIdx, 0))
  {
    var f := Stream(lines, 0);
    AttachAppendsTrackPositions(p, f, trackIdx);
    ParseTracksAppends(Clear(p), f);
    TwoTrackIndex(Clear(p), lines);
  }

  /** Attaching to the first track of a two-track script holds `10 a;` at
      10 ms, behind whatever positions the parser held before. */
  lemma AttachToFirstTrack(p: Parser, lines: seq<string>)
    requires TwoTrackScript(lines)
    ensures Attach(p, Stream(lines, 0), |p.trackPositions|) ==
      Step(Parser(10, ["a"], p.trackPositions + [1, 5]), Stream(lines, 2), true)
  {
    var k := |p.trackPositions|;
    var q := Parser(SENTINEL, [], p.trackPositions + [1, 5]);
    assert q.trackPositions[k] == 1;
    SeekOntoDataLine(q, Stream(lines, 7), k, 0, 10, ["a"], "");
    AttachTwoTracks(p, lines, k);
  }

  /** Attaching to the second track of a two-track script holds `5 c;` at
      5 ms. */
  lemma AttachToSecondTrack(p: Parser, lines: seq<string>)
    requires TwoTrackScript(lines)
    ensures Attach(p, Stream(lines, 0), |p.trackPositions| + 1) ==
      Step(Parser(5, ["c"], p.trackPositions + [1, 5]), Stream(lines, 6), true)
  {
    var k := |p.trackPositions| + 1;
    var q := Parser(SENTINEL, [], p.trackPositions + [1, 5]);
    assert q.trackPositions[k] == 5;
    SeekOntoDataLine(q, Stream(lines, 7), k, 0, 5, ["c"], "");
    AttachTwoTracks(p, lines, k);
  }

  /** A fresh parser attached to the second track of `TwoTracks` reports
      two tracks and holds the one argument `c` at 5 ms. */
  lemma AttachFreshToSecondTrack()
    ensures var r := Attach(Init(), Stream(TwoTracks, 0), 1);
      && r.ok && NumTracks(r.parser) == 2 && NextTimeMs(r.parser) == 5
      && NumArgs(r.parser) == 1 && ArgAsString(r.parser, 0) == "c"
  {
    TwoTracksLayout();
    AttachToSecondTrack(Init(), TwoTracks);
  }

  /** Polling the held `10 a;` answers true without reading; after `pop`
      the poll reads `20 b;`, whose delta is added to the running time. */
  lemma WalkFirstTrack(tp: seq<nat>, lines: seq<string>)
    requires TwoTrackScript(lines)
    ensures var q := Parser(10, ["a"], tp);
      && HasNextLine(q, Stream(lines, 2)) == Step(q, Stream(lines, 2), true)
      && HasNextLine(Pop(q), Stream(lines, 2)) == Step(Parser(30, ["b"], tp), Stream(lines, 3), true)
  {
    assert AddU32(10, 20) == 30;
    ParseNextLineOntoDataLine(Parser(10, [], tp), Stream(lines, 2), 20, ["b"], "");
  }

  /** `seek(time_ms)` rewinds to the first track wherever the file and the
      parser stand, and holds `10 a;` at 10 ms again whatever the time. */
  lemma RewindToFirstTrack(q: Parser, lines: seq<string>, c: nat, timeMs: U32)
    requires TwoTrackScript(lines)
    requires |q.trackPositions| > 0 && q.trackPositions[0] == 1
    ensures SeekFirstTrack(q, Stream(lines, c), timeMs) ==
      Step(q.(nextTimeMs := 10, args := ["a"]), Stream(lines, 2), true)
  {
    SeekOntoDataLine(q, Stream(lines, c), 0, timeMs, 10, ["a"], "");
  }

  /** After `pop` the poll meets the footer of the first track: the held
      line is cleared and the poll fails. */
  lemma EndOfFirstTrack(tp: seq<nat>, lines: seq<string>)
    requires TwoTrackScript(lines)
    ensures HasNextLine(Pop(Parser(30, ["b"], tp)), Stream(lines, 3)) ==
      Step(Parser(SENTINEL, [], tp), Stream(lines, 4), false)
  {
    TwoTrackLines(lines);
  }

  /** Polling on past the footer skips the second header and reads `5 c;`,
      but the running time restarts from the sentinel and wraps round, so
      the line is held at 4 ms rather than 5. */
  lemma PollPastTrackEnd(tp: seq<nat>, lines: seq<string>)
    requires TwoTrackScript(lines)
    ensures HasNextLine(Parser(SENTINEL, [], tp), Stream(lines, 4)) ==
      Step(Parser(4, ["c"], tp), Stream(lines, 6), true)
  {
    var p := Parser(SENTINEL, [], tp);
    assert AddU32(SENTINEL, 5) == 4;
    assert ParseNextLine(p, Stream(lines, 4)) == ParseNextLine(p, Stream(lines, 5)) by {
      TwoTrackLines(lines);
      ParseNextLineSkipsHeader(p, Stream(lines, 4));
    }
    ParseNextLineOntoDataLine(p, Stream(lines, 5), 5, ["c"], "");
  }

  /** The line `5 c;` stays held while it is polled; after `pop` the next
      poll meets the track end and fails. */
  lemma PollSecondTrack(tp: seq<nat>, lines: seq<string>)
    requires TwoTrackScript(lines)
    ensures var q := Parser(5, ["c"], tp);
      var f := Stream(lines, 6);
      && HasNextLine(q, f) == Step(q, f, true)
      && HasNextLine(Pop(q), f) == Step(Clear(q), f.(cursor := 7), false)
  {
    TwoTrackLines(lines);
  }

  /** Attaching a second file keeps the first file's positions in front of
      the new ones: after a two-track script, a file of two data lines and
      no track header is attached successfully, and track 0 lands on its
      second line. The rebuilt index finds no track in it and fails. */
  lemma ReattachUsesStalePositions(p: Parser, other: seq<string>)
    requires p.trackPositions == [1, 5]
    requires |other| == 2 && !IsTrackStart(other[0])
    requires other[1] == DataLine(2, ["y"], "")
    ensures Attach(p, Stream(other, 0), 0) ==
      Step(Parser(2, ["y"], [1, 5]), Stream(other, 2), true)
    ensures !AttachRebuilt(p, Stream(other, 0), 0).ok
    ensures forall n: nat :: !IsTrackPosition(other, 0, n)
  {
    var f := Stream(other, 0);
    assert !IsTrackStart(other[1]) by {
      DataLineIsData(2, ["y"], "");
    }
    assert forall n: nat :: !IsTrackPosition(other, 0, n);
    assert Added(Clear(p), f) == [] by {
      ParseTracksIndexesTrackStarts(Clear(p), f);
      NoTrackStartsNoneAdded(other, 0, Added(Clear(p), f));
    }
    var scan := ParseTracks(Clear(p), f);
    assert scan.parser == Parser(SENTINEL, [], [1, 5]) && scan.file == Stream(other, 2) by {
      ParseTracksAppends(Clear(p), f);
    }
    SeekOntoDataLine(scan.parser, scan.file, 0, 0, 2, ["y"], "");
    AttachRebuiltIndexesTrackStarts(p, f, 0);
  }
}
