/** Cutting a text into frames at its blank lines, and a frame into lines, the way the
    browser's reader does (frontend/src/lib/sse.ts). */
module Framing {
  /** Where the first blank line starts, or -1. */
  function FindBreak(s: string): (r: int)
    ensures r == -1 || (0 <= r && r + 2 <= |s| && s[r] == '\n' && s[r + 1] == '\n')
  {
    if |s| < 2 then -1
    else if s[0] == '\n' && s[1] == '\n' then 0
    else
      var r := FindBreak(s[1..]);
      if r < 0 then -1 else r + 1
  }

  function FindNewline(s: string): (r: int)
    ensures r == -1 || 0 <= r < |s|
  {
    if s == "" then -1
    else if s[0] == '\n' then 0
    else
      var r := FindNewline(s[1..]);
      if r < 0 then -1 else r + 1
  }

  function Lines(s: string): seq<string>
    decreases |s|
  {
    var n := FindNewline(s);
    if n < 0 then [s] else [s[..n]] + Lines(s[n + 1..])
  }

  /** A text cut at its blank lines: the complete frames, and the unfinished one. */
  datatype Cut = Cut(frames: seq<string>, rest: string)

  function Split(s: string): Cut
    decreases |s|
  {
    var n := FindBreak(s);
    if n < 0 then Cut([], s)
    else
      var later := Split(s[n + 2..]);
      Cut([s[..n]] + later.frames, later.rest)
  }

  lemma {:induction false} FindBreakOfMore(a: string, b: string)
    requires FindBreak(a) >= 0
    ensures FindBreak(a + b) == FindBreak(a)
  {
    if a[0] == '\n' && a[1] == '\n' {
    } else {
      assert (a + b)[1..] == a[1..] + b;
      FindBreakOfMore(a[1..], b);
    }
  }

  function Then(c: Cut, d: Cut): Cut { Cut(c.frames + d.frames, d.rest) }

  lemma {:induction false} ThenThen(x: Cut, y: Cut, z: Cut)
    ensures Then(Then(x, y), z) == Then(x, Then(y, z))
  {
    assert x.frames + y.frames + z.frames == x.frames + (y.frames + z.frames);
  }

  lemma SplitAt(s: string, frame: string, later: string)
    requires FindBreak(s) == |frame| && s[..|frame|] == frame && s[|frame| + 2..] == later
    ensures Split(s) == Then(Cut([frame], later), Split(later))
  {
  }

  lemma Shift(a: string, b: string, n: nat)
    requires n + 2 <= |a|
    ensures (a + b)[..n] == a[..n] && (a + b)[n + 2..] == a[n + 2..] + b
  {
  }

  /** Splitting can stop and go on anywhere: the frames of a longer text are those of the
      first part, followed by those of what that leaves and the new part. */
  lemma {:induction false} SplitOfMore(a: string, b: string)
    ensures Split(a + b) == Then(Split(a), Split(Split(a).rest + b))
    decreases |a|
  {
    var n := FindBreak(a);
    if n >= 0 {
      var frame, later := a[..n], a[n + 2..];
      FindBreakOfMore(a, b);
      Shift(a, b, n);
      SplitAt(a, frame, later);
      SplitAt(a + b, frame, later + b);
      SplitOfMore(later, b);
      ThenThen(Cut([frame], later), Split(later), Split(Split(later).rest + b));
    } else {
      assert Split(a) == Cut([], a);
    }
  }

  predicate OneLine(s: string) { forall i | 0 <= i < |s| :: s[i] != '\n' }

  lemma {:induction false} BreakAfterLine(line: string, more: string)
    requires OneLine(line)
    ensures FindBreak(line + ['\n', '\n'] + more) == |line|
    ensures FindNewline(line) == -1
  {
    var s := line + ['\n', '\n'] + more;
    if line == "" {
    } else {
      assert s[1..] == line[1..] + ['\n', '\n'] + more;
      BreakAfterLine(line[1..], more);
    }
  }
}
