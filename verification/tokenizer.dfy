/**
 The line tokenizer of the MTR parser: `parse_time`, `parse_args` and
 `fetch_next_token_index`. A data line is split at spaces; the field before
 the first space is a millisecond delta added to the running time, every
 later space-terminated field is an argument, and the field after the last
 space gives the last argument: that field cut at the line's last `;`, or,
 when that `;` lies before the field, the text from the `;` up to it.
 */
module Tokenizer {
  import opened ArduinoString

  /** A `uint32_t` value. */
  type U32 = x: nat | x < 0x1_0000_0000

  /** `t += d` on a `uint32_t`: the sum wraps round modulo 2^32. */
  function AddU32(t: U32, d: nat): (r: U32)
    ensures t + d < 0x1_0000_0000 ==> r == t + d
    ensures 0x1_0000_0000 <= t + d < 0x2_0000_0000 ==> r == t + d - 0x1_0000_0000
  {
    (t + d) % 0x1_0000_0000
  }

  /** Adding to a running time of 0 does not wrap. */
  lemma AddU32Zero(d: U32)
    ensures AddU32(0, d) == d
  {
  }

  /** The pair of `size_t` variables `token_begin` and `token_end` that the
      tokenizer threads through its steps. */
  datatype Tokens = Tokens(begin: nat, end: Idx)

  /** `fetch_next_token_index`: the next token starts just after the
      previous space (at 0 when there was none, as `-1 + 1` wraps) and ends at
      the next space. */
  function FetchNextTokenIndex(line: string, end: Idx): (t: Tokens)
    ensures end.NPos? ==> t.begin == 0
    ensures end.At? ==> t.begin == end.pos + 1
    ensures t.end.At? ==> t.begin <= t.end.pos < |line| && line[t.end.pos] == ' '
    ensures forall k :: t.begin <= k < RightEnd(t.end, line) ==> line[k] != ' '
  {
    var begin := Succ(end);
    Tokens(begin, IndexOf(line, ' ', begin))
  }

  /** The time field: the text before the first space, or the whole line
      when it has no space. */
  function TimeField(line: string): (field: string)
    ensures field <= line
    ensures ' ' !in field
    ensures |field| < |line| ==> line[|field|] == ' '
  {
    Substring(line, 0, RightEnd(IndexOf(line, ' ', 0), line))
  }

  /** `parse_time`: adds the time field's value to the running time and
      positions the token indices on the first argument. */
  function ParseTime(line: string, time: U32): (r: (U32, Tokens))
    ensures r.0 == AddU32(time, ToInt(TimeField(line)))
    ensures ' ' in line ==> r.1.begin == |TimeField(line)| + 1
    ensures ' ' !in line ==> r.1 == Tokens(0, NPos)
    ensures r.1.end == IndexOf(line, ' ', r.1.begin)
  {
    var end := IndexOf(line, ' ', 0);
    var t := AddU32(time, ToInt(Substring(line, 0, RightEnd(end, line))));
    (t, FetchNextTokenIndex(line, end))
  }

  /** The final argument: from `begin` to the line's last `;`, or to the end
      of the line when it has none. When that `;` lies before `begin`,
      `substring` swaps the ends and the text runs from the `;` to `begin`. */
  function LastArg(line: string, begin: nat): (a: string)
    ensures LastIndexOf(line, ';').NPos? ==> a == if begin < |line| then line[begin..] else ""
    ensures LastIndexOf(line, ';').At? && begin <= LastIndexOf(line, ';').pos ==>
      a == line[begin..LastIndexOf(line, ';').pos]
    ensures LastIndexOf(line, ';').At? && LastIndexOf(line, ';').pos < begin <= |line| ==>
      a == line[LastIndexOf(line, ';').pos..begin]
  {
    Substring(line, begin, RightEnd(LastIndexOf(line, ';'), line))
  }

  /** Bounds the number of spaces `ParseArgs` can still find. */
  function SpacesLeft(line: string, end: Idx): nat
  {
    match end
    case NPos => 0
    case At(n) => |line| + 1 - Min(n, |line|)
  }

  /** `parse_args`: while a space was found, the token up to it is an
      argument and the indices move on; the last token is then appended
      unconditionally, as `LastArg` cuts it at the last `;`. */
  function ParseArgs(line: string, t: Tokens): (args: seq<string>)
    ensures |args| >= 1
    ensures t.end.NPos? ==> args == [LastArg(line, t.begin)]
    decreases SpacesLeft(line, t.end)
  {
    match t.end
    case NPos => [LastArg(line, t.begin)]
    case At(e) =>
      [Substring(line, t.begin, e)] + ParseArgs(line, FetchNextTokenIndex(line, t.end))
  }

  /** Tokens each followed by one space. */
  function Spaced(tokens: seq<string>): string
  {
    if |tokens| == 0 then "" else tokens[0] + " " + Spaced(tokens[1..])
  }

  /** Where the last token starts: just after the last space, or at `begin`
      when no space is left. */
  function LastTokenStart(line: string, t: Tokens): nat
  {
    if t.end.NPos? then t.begin else Succ(LastIndexOf(line, ' '))
  }

  /** `args` are what `parse_args` should return from the token indices
      `t`: every argument but the last is a space-free token, and together,
      each followed by its space, they spell the line from `t.begin` up to
      the start of the last token, which holds no space; the last argument
      is `LastArg` from that start: the last token cut at the line's last
      `;`, or, when that `;` lies before the token, the text from the `;`
      up to the token's start. */
  predicate ArgsOfTokens(line: string, t: Tokens, args: seq<string>)
  {
    var k := LastTokenStart(line, t);
    && |args| >= 1
    && args[|args| - 1] == LastArg(line, k)
    && SpaceFree(args[..|args| - 1])
    && (t.end.At? ==> t.begin < k <= |line| && line[t.begin..k] == Spaced(args[..|args| - 1]))
    && (forall j :: k <= j < |line| ==> line[j] != ' ')
  }

  /** `parse_args`, from token indices positioned as the tokenizer keeps
      them, returns the space-delimited tokens and then `LastArg` of the
      text after the last space. */
  lemma {:induction false} ParseArgsTokens(line: string, t: Tokens)
    requires t.end == IndexOf(line, ' ', t.begin)
    ensures ArgsOfTokens(line, t, ParseArgs(line, t))
    decreases SpacesLeft(line, t.end)
  {
    if t.end.At? {
      ParseArgsTokens(line, FetchNextTokenIndex(line, t.end));
      ParseArgsTokensStep(line, t);
    }
  }

  /** The inductive step of `ParseArgsTokens`. */
  lemma ParseArgsTokensStep(line: string, t: Tokens)
    requires t.end.At? && t.end == IndexOf(line, ' ', t.begin)
    requires var u := FetchNextTokenIndex(line, t.end);
      ArgsOfTokens(line, u, ParseArgs(line, u))
    ensures ArgsOfTokens(line, t, ParseArgs(line, t))
  {
    var u := FetchNextTokenIndex(line, t.end);
    NextTokenStart(line, t);
    ArgsOfTokensCons(line, t, u, ParseArgs(line, u), ParseArgs(line, t));
  }

  /** A space-free token ending at the space that `t` found goes in front of
      the arguments read from just after that space. */
  lemma ArgsOfTokensCons(line: string, t: Tokens, u: Tokens, rest: seq<string>, args: seq<string>)
    requires t.end.At? && t.begin <= t.end.pos < |line| && line[t.end.pos] == ' '
    requires forall j :: t.begin <= j < t.end.pos ==> line[j] != ' '
    requires u.begin == t.end.pos + 1 && LastTokenStart(line, u) == LastTokenStart(line, t)
    requires ArgsOfTokens(line, u, rest) && (u.end.NPos? ==> |rest| == 1)
    requires args == [line[t.begin..t.end.pos]] + rest
    ensures ArgsOfTokens(line, t, args)
  {
    var k := LastTokenStart(line, u);
    var e := t.end.pos;
    assert e < k <= |line| && line[e + 1..k] == Spaced(rest[..|rest| - 1]) by {
      if u.end.NPos? {
        assert k == e + 1 && |rest[..|rest| - 1]| == 0;
      }
    }
    SpacedCons(line, t.begin, e, k, rest, args);
  }

  /** After a space at `e`, the last token starts where it did before, and
      `parse_args` has taken the token up to `e` as an argument. */
  lemma NextTokenStart(line: string, t: Tokens)
    requires t.end.At? && t.end == IndexOf(line, ' ', t.begin)
    ensures var u := FetchNextTokenIndex(line, t.end);
      && u.begin == t.end.pos + 1
      && LastTokenStart(line, u) == LastTokenStart(line, t)
      && ParseArgs(line, t) == [line[t.begin..t.end.pos]] + ParseArgs(line, u)
  {
    var u := FetchNextTokenIndex(line, t.end);
    if u.end.NPos? {
      LastSpaceBefore(line, t.end.pos);
    }
  }

  /** One step of `ParseArgsTokens`: the space-free token from `b` to the
      space at `e` goes in front of the arguments after that space. */
  lemma SpacedCons(line: string, b: nat, e: nat, k: nat, rest: seq<string>, args: seq<string>)
    requires b <= e < k <= |line| && line[e] == ' '
    requires forall j :: b <= j < e ==> line[j] != ' '
    requires |rest| >= 1 && SpaceFree(rest[..|rest| - 1])
    requires line[e + 1..k] == Spaced(rest[..|rest| - 1])
    requires args == [line[b..e]] + rest
    ensures args[|args| - 1] == rest[|rest| - 1]
    ensures SpaceFree(args[..|args| - 1])
    ensures line[b..k] == Spaced(args[..|args| - 1])
  {
    var w := line[b..e];
    var init := args[..|args| - 1];
    assert init == [w] + rest[..|rest| - 1];
    assert init[1..] == rest[..|rest| - 1];
    forall i | 0 <= i < |init| ensures ' ' !in init[i] {
      if i > 0 {
        assert init[i] == rest[..|rest| - 1][i - 1];
      } else {
        assert forall j :: 0 <= j < |w| ==> w[j] == line[b + j];
      }
    }
    assert line[b..k] == w + " " + line[e + 1..k];
  }

  /** `parse_time` followed by `parse_args`: the new running time and the
      line's arguments. */
  function Tokenize(line: string, time: U32): (r: (U32, seq<string>))
    ensures r.0 == AddU32(time, ToInt(TimeField(line)))
    ensures |r.1| >= 1
  {
    var (t, tokens) := ParseTime(line, time);
    (t, ParseArgs(line, tokens))
  }

  /** Arguments written out with one space between neighbours. */
  function Join(args: seq<string>): string
  {
    if |args| == 0 then ""
    else if |args| == 1 then args[0]
    else args[0] + " " + Join(args[1..])
  }

  /** A well-formed data line `delta a1 ... an;rest`. */
  function DataLine(delta: nat, args: seq<string>, rest: string): string
  {
    Decimal(delta) + " " + Join(args) + ";" + rest
  }

  predicate SpaceFree(args: seq<string>)
  {
    forall i :: 0 <= i < |args| ==> ' ' !in args[i]
  }

  /** A suffix without spaces holds no space for `indexOf` to find. */
  lemma NoSpaceInSuffix(line: string, b: nat)
    requires b <= |line| && ' ' !in line[b..]
    ensures IndexOf(line, ' ', b) == NPos
  {
    forall k | b <= k < |line| ensures line[k] != ' ' {
      assert line[k] == line[b..][k - b];
    }
  }

  /** In a suffix that reads `w` then a space, with `w` space-free,
      `indexOf` finds the space after `w`. */
  lemma SpaceAfterWord(line: string, b: nat, w: string, tail: string)
    requires b <= |line| && line[b..] == w + tail
    requires ' ' !in w && |tail| > 0 && tail[0] == ' '
    ensures IndexOf(line, ' ', b) == At(b + |w|)
  {
    assert line[b + |w|] == line[b..][|w|];
    forall k | b <= k < b + |w| ensures line[k] != ' ' {
      assert line[k] == line[b..][k - b] == w[k - b];
    }
  }

  /** A `c` at `k`, with none after it, is the last one. */
  lemma LastOccurrenceAt(line: string, c: char, k: nat)
    requires k < |line| && line[k] == c
    requires forall j :: k < j < |line| ==> line[j] != c
    ensures LastIndexOf(line, c) == At(k)
  {
  }

  /** A space at `e` with none found after it is the line's last space, and
      the last token starts just past it. */
  lemma LastSpaceBefore(line: string, e: nat)
    requires e < |line| && line[e] == ' ' && IndexOf(line, ' ', e + 1) == NPos
    ensures Succ(LastIndexOf(line, ' ')) == e + 1
  {
    LastOccurrenceAt(line, ' ', e);
  }

  /** The `;` at `k`, with none after it, is the last one. */
  lemma LastSemicolonAt(line: string, k: nat)
    requires k < |line| && line[k] == ';' && ';' !in line[k + 1..]
    ensures LastIndexOf(line, ';') == At(k)
  {
    forall j | k < j < |line| ensures line[j] != ';' {
      assert line[j] == line[k + 1..][j - k - 1];
    }
    LastOccurrenceAt(line, ';', k);
  }

  /** The last token of a suffix that reads `a;rest`, with `a` space-free
      and `rest` free of spaces and semicolons, is `a`. */
  lemma ParseArgsOfLastWord(line: string, b: nat, a: string, rest: string)
    requires ' ' !in a && ' ' !in rest && ';' !in rest
    requires b <= |line| && line[b..] == a + ";" + rest
    ensures ParseArgs(line, Tokens(b, IndexOf(line, ' ', b))) == [a]
  {
    var end := b + |a|;
    assert ' ' !in line[b..] by {
      forall k | 0 <= k < |line[b..]| ensures line[b..][k] != ' ' {
        if k < |a| {
          assert line[b..][k] == a[k];
        } else if k > |a| {
          assert line[b..][k] == rest[k - |a| - 1];
        }
      }
    }
    NoSpaceInSuffix(line, b);
    assert line[end] == line[b..][|a|];
    assert line[end + 1..] == line[b..][|a| + 1..] == rest;
    LastSemicolonAt(line, end);
    assert line[b..end] == line[b..][..|a|] == a;
  }

  /** Joining two or more arguments puts a space after the first. */
  lemma JoinCons(args: seq<string>)
    requires |args| >= 2
    ensures Join(args) == args[0] + " " + Join(args[1..])
  {
  }

  /** The arguments after the first of space-free arguments are space-free. */
  lemma SpaceFreeTail(args: seq<string>)
    requires |args| >= 1 && SpaceFree(args)
    ensures SpaceFree(args[1..])
  {
    forall i | 0 <= i < |args[1..]| ensures ' ' !in args[1..][i] {
      assert args[1..][i] == args[i + 1];
    }
  }

  /** A suffix that reads `w after`, with `w` space-free, is split by
      `indexOf` at the space after `w`. */
  lemma SplitAtWord(line: string, b: nat, w: string, after: string)
    requires ' ' !in w
    requires b <= |line| && line[b..] == w + " " + after
    ensures IndexOf(line, ' ', b) == At(b + |w|)
    ensures Substring(line, b, b + |w|) == w
    ensures line[b + |w| + 1..] == after
  {
    assert line[b..] == w + (" " + after);
    SpaceAfterWord(line, b, w, " " + after);
    assert line[b..b + |w|] == line[b..][..|w|];
    assert line[b + |w| + 1..] == line[b..][|w| + 1..];
  }

  /** A token that ends at a space is an argument of its own, in front of
      the arguments after that space. */
  lemma ParseArgsAtSpace(line: string, b: nat, e: nat, args: seq<string>)
    requires |args| >= 1
    requires IndexOf(line, ' ', b) == At(e) && Substring(line, b, e) == args[0]
    requires ParseArgs(line, Tokens(e + 1, IndexOf(line, ' ', e + 1))) == args[1..]
    ensures ParseArgs(line, Tokens(b, IndexOf(line, ' ', b))) == args
  {
    var u := FetchNextTokenIndex(line, At(e));
    assert u == Tokens(e + 1, IndexOf(line, ' ', e + 1));
    assert ParseArgs(line, Tokens(b, At(e))) == [args[0]] + ParseArgs(line, u);
    assert args == [args[0]] + args[1..];
  }

  /** Two or more joined arguments: the first ends at the first space, and
      what follows that space again reads as joined arguments. */
  lemma SplitJoined(line: string, b: nat, args: seq<string>, rest: string)
    requires |args| >= 2 && SpaceFree(args)
    requires b <= |line| && line[b..] == Join(args) + ";" + rest
    ensures var e := b + |args[0]|;
      && IndexOf(line, ' ', b) == At(e)
      && Substring(line, b, e) == args[0]
      && e + 1 <= |line| && line[e + 1..] == Join(args[1..]) + ";" + rest
      && SpaceFree(args[1..])
  {
    var after := Join(args[1..]) + ";" + rest;
    JoinCons(args);
    assert line[b..] == args[0] + " " + after;
    SplitAtWord(line, b, args[0], after);
    SpaceFreeTail(args);
  }

  /** The tokens of a suffix that reads `a1 ... an;rest` are `a1`, ..., `an`. */
  lemma {:induction false} ParseArgsOfJoined(line: string, b: nat, args: seq<string>, rest: string)
    requires |args| >= 1 && SpaceFree(args)
    requires ' ' !in rest && ';' !in rest
    requires b <= |line| && line[b..] == Join(args) + ";" + rest
    ensures ParseArgs(line, Tokens(b, IndexOf(line, ' ', b))) == args
    decreases |args|
  {
    if |args| == 1 {
      ParseArgsOfLastWord(line, b, args[0], rest);
    } else {
      var e := b + |args[0]|;
      assert IndexOf(line, ' ', b) == At(e) && Substring(line, b, e) == args[0]
        && ParseArgs(line, Tokens(e + 1, IndexOf(line, ' ', e + 1))) == args[1..] by {
        SplitJoined(line, b, args, rest);
        ParseArgsOfJoined(line, e + 1, args[1..], rest);
      }
      ParseArgsAtSpace(line, b, e, args);
    }
  }

  /** The time field of a line that starts with a space-free word followed
      by a space is that word. */
  lemma TimeFieldOfWord(w: string, tail: string)
    requires ' ' !in w
    requires |tail| > 0 && tail[0] == ' '
    ensures TimeField(w + tail) == w
  {
    var line := w + tail;
    var f := TimeField(line);
    assert line[|w|] == ' ';
    assert forall k :: 0 <= k < |w| ==> line[k] == w[k] && w[k] != ' ';
    assert forall k :: 0 <= k < |f| ==> line[k] == f[k] && f[k] != ' ';
    assert |f| == |w|;
  }

  /** The time field of a data line is its decimal delta. */
  lemma DataLineTimeField(delta: nat, tail: string)
    requires |tail| > 0 && tail[0] == ' '
    ensures TimeField(Decimal(delta) + tail) == Decimal(delta)
    ensures ToInt(TimeField(Decimal(delta) + tail)) == delta
  {
    var d := Decimal(delta);
    assert ' ' !in d by {
      forall k | 0 <= k < |d| ensures d[k] != ' ' {
        assert IsDigit(d[k]);
      }
    }
    TimeFieldOfWord(d, tail);
    ToIntDecimal(delta, "");
    assert d + "" == d;
  }

  /** The text `w x;y` splits at the space after `w`. */
  lemma SpaceSplit(w: string, x: string, y: string)
    ensures var line := w + " " + x + ";" + y;
      && line == w + (" " + x + ";" + y)
      && line[|w|] == ' '
      && line[|w| + 1..] == x + ";" + y
  {
    var line := w + " " + x + ";" + y;
    assert line == w + (" " + x + ";" + y);
    assert line[|w| + 1..] == x + ";" + y;
  }

  /** Tokenizing a well-formed data line gives back its delta, added to the
      running time, and exactly its arguments; text after the last `;`
      (a carriage return, say) is dropped. */
  lemma TokenizeDataLine(delta: nat, args: seq<string>, rest: string, time: U32)
    requires |args| >= 1 && SpaceFree(args)
    requires ' ' !in rest && ';' !in rest
    ensures Tokenize(DataLine(delta, args, rest), time) == (AddU32(time, delta), args)
  {
    var d := Decimal(delta);
    var line := DataLine(delta, args, rest);
    var tokens := ParseTime(line, time).1;
    assert ParseTime(line, time).0 == AddU32(time, delta)
      && tokens == Tokens(|d| + 1, IndexOf(line, ' ', |d| + 1))
      && line[|d| + 1..] == Join(args) + ";" + rest by {
      SpaceSplit(d, Join(args), rest);
      DataLineTimeField(delta, " " + Join(args) + ";" + rest);
    }
    ParseArgsOfJoined(line, |d| + 1, args, rest);
  }

  /** A line without any space is all time field, and still yields exactly
      one argument: the whole line cut at its last `;`. */
  lemma TokenizeLineWithoutSpace(line: string, time: U32)
    requires ' ' !in line
    ensures Tokenize(line, time).0 == AddU32(time, ToInt(line))
    ensures Tokenize(line, time).1 ==
      match LastIndexOf(line, ';')
      case At(k) => [line[..k]]
      case NPos => [line]
  {
    assert TimeField(line) == line;
  }
}
