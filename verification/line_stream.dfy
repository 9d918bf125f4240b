/**
 The `File` the parser is attached to, seen through the four calls the parser
 makes: `available()`, `readStringUntil('\n')`, `position()` and `seek(p)`.
 The file's text is its sequence of lines (each without its `'\n'`), and a
 position counts the lines read so far, so "the position just after line k"
 is `k + 1`. Byte offsets are not modelled.
 */
module LineStream {

  datatype Stream = Stream(lines: seq<string>, cursor: nat)

  /** `available()`: some text is left to read. */
  predicate Available(f: Stream)
  {
    f.cursor < |f.lines|
  }

  /** `readStringUntil('\n')`: the line at the cursor, and the stream moved
      past it; at the end of the file, the empty string and no movement. */
  function ReadLine(f: Stream): (r: (string, Stream))
    ensures r.1.lines == f.lines
    ensures Available(f) ==> r.0 == f.lines[f.cursor] && r.1.cursor == f.cursor + 1
    ensures !Available(f) ==> r.0 == "" && r.1 == f
  {
    if Available(f) then (f.lines[f.cursor], f.(cursor := f.cursor + 1)) else ("", f)
  }

  /** `position()` */
  function Position(f: Stream): nat
  {
    f.cursor
  }

  /** `seek(p)`: succeeds, and moves the cursor to `p`, exactly when `p` is
      within the file; a failed seek leaves the stream where it was. */
  function SeekTo(f: Stream, p: nat): (r: (bool, Stream))
    ensures r.1.lines == f.lines
    ensures r.0 <==> p <= |f.lines|
    ensures r.0 ==> r.1.cursor == p
    ensures !r.0 ==> r.1 == f
  {
    if p <= |f.lines| then (true, f.(cursor := p)) else (false, f)
  }
}
