/** The audio player's ring buffer (frontend/public/audio/pcm_player_processor.js). */
module PcmPlayer {
  import opened Values

  const BUFFER_SIZE := 96000
  const REPORT_FRAMES := 1024

  function Min(a: nat, b: nat): nat { if a < b then a else b }

  /** The playing time of a number of samples in milliseconds, rounded half up. */
  function PlayedMs(samples: nat, rate: real): (ms: int)
    requires rate > 0.0
    ensures ms as real - 0.5 <= samples as real / rate * 1000.0 < ms as real + 0.5
  {
    (samples as real / rate * 1000.0 + 0.5).Floor
  }

  /** The progress message of the player. */
  datatype Progress = Progress(playedMs: int, isPlaying: bool)

  /** The slot that lies `i` places after `r` in a ring of `n`. */
  function Slot(r: nat, i: nat, n: nat): nat
    requires r < n && i <= n
  {
    if r + i < n then r + i else r + i - n
  }

  lemma {:induction false} SlotIsModulo(r: nat, i: nat, n: nat)
    requires r < n && i <= n
    ensures (r + i) % n == Slot(r, i, n)
  {
    var q := (r + i) / n;
    assert r + i == q * n + (r + i) % n;
    ProductBounds(q, n);
  }

  lemma ProductBounds(q: int, n: nat)
    ensures q >= 2 ==> q * n >= 2 * n
    ensures q <= 0 ==> q * n <= 0
    ensures q == 1 ==> q * n == n
  {
  }

  function Silence(n: nat): seq<real> { seq(n, _ => 0.0) }

  lemma FramesInOrder(frames: seq<real>, queue: seq<real>)
    requires forall j | 0 <= j < |frames| :: frames[j] == if j < |queue| then queue[j] else 0.0
    ensures var k := Min(|queue|, |frames|); frames == queue[..k] + Silence(|frames| - k)
  {
  }

  function Repeat(b: bool, n: nat): seq<bool> { seq(n, _ => b) }

  lemma MoreFates(fates: seq<bool>, b: bool, n: nat)
    ensures fates + Repeat(b, n + 1) == fates + Repeat(b, n) + [b]
  {
  }

  /** The samples whose fate was to be played, in order. */
  function PlayedOf(samples: seq<real>, fates: seq<bool>): seq<real>
    requires |samples| == |fates|
  {
    if samples == [] then []
    else
      var n := |samples| - 1;
      PlayedOf(samples[..n], fates[..n]) + (if fates[n] then [samples[n]] else [])
  }

  lemma {:induction false} PlayedOfMore(samples: seq<real>, fates: seq<bool>, x: real, fate: bool)
    requires |samples| == |fates|
    ensures PlayedOf(samples + [x], fates + [fate]) == PlayedOf(samples, fates) + (if fate then [x] else [])
  {
    assert (samples + [x])[..|samples|] == samples && (fates + [fate])[..|fates|] == fates;
  }

  /** The player. Its ghost fields keep every sample it ever accepted, what became of
      those no longer in the buffer (played or flushed), and everything it played. */
  class Player {
    const size: nat
    const buffer: array<real>
    var readIndex: nat
    var writeIndex: nat
    var available: nat
    var totalPlayed: nat
    var lastReport: nat
    ghost var accepted: seq<real>
    ghost var fates: seq<bool>
    ghost var played: seq<real>

    ghost predicate Valid() reads this, buffer {
      && size > 0 && buffer.Length == size && readIndex < size && available <= size
      && writeIndex == Slot(readIndex, available, size)
      && |accepted| == |fates| + available
      && (forall i | 0 <= i < available :: buffer[Slot(readIndex, i, size)] == accepted[|fates| + i])
      && played == PlayedOf(accepted[..|fates|], fates)
      && totalPlayed == |played|
    }

    /** The bounded queue that the ring stands for. */
    ghost function Contents(): seq<real>
      reads this
      requires |fates| <= |accepted|
    {
      accepted[|fates|..]
    }

    constructor ()
      ensures Valid() && size == BUFFER_SIZE && accepted == [] && fates == [] && fresh(buffer)
    {
      size := BUFFER_SIZE;
      buffer := new real[BUFFER_SIZE];
      readIndex, writeIndex, available, totalPlayed, lastReport := 0, 0, 0, 0, 0;
      accepted, fates, played := [], [], [];
    }

    /** One sample in; dropped when the ring is full. */
    method PushOne(x: real)
      requires Valid()
      modifies this`writeIndex, this`available, this`accepted, buffer
      ensures Valid()
      ensures accepted == if old(available) < size then old(accepted) + [x] else old(accepted)
    {
      if available < size {
        SlotIsModulo(writeIndex, 1, size);
        buffer[writeIndex] := x;
        writeIndex := (writeIndex + 1) % size;
        available := available + 1;
        accepted := accepted + [x];
        assert accepted[..|fates|] == old(accepted)[..|fates|];
      }
    }

    /** A push accepts exactly the first samples that fit. */
    method Push(incoming: seq<real>)
      requires Valid()
      modifies this`writeIndex, this`available, this`accepted, buffer
      ensures Valid()
      ensures accepted == old(accepted) + incoming[..Min(|incoming|, size - old(available))]
      ensures Contents() == old(Contents()) + incoming[..Min(|incoming|, size - old(available))]
    {
      for i := 0 to |incoming|
        invariant Valid()
        invariant accepted == old(accepted) + incoming[..Min(i, size - old(available))]
      {
        PushOne(incoming[i]);
        assert i < size - old(available) ==> incoming[..i + 1] == incoming[..i] + [incoming[i]];
      }
    }

    /** A flush forgets what is buffered, and reports how much had been played. */
    method Flush(rate: real) returns (playedMs: int)
      requires Valid() && rate > 0.0
      modifies this`readIndex, this`writeIndex, this`available, this`fates
      ensures Valid() && Contents() == []
      ensures fates == old(fates) + Repeat(false, old(available))
      ensures playedMs == PlayedMs(|played|, rate)
    {
      playedMs := PlayedMs(totalPlayed, rate);
      FlushedFates(accepted, fates, available);
      assert accepted[..|accepted|] == accepted;
      fates := fates + Repeat(false, available);
      readIndex, writeIndex, available := 0, 0, 0;
    }

    /** One sample out, if there is one. */
    method TakeOne() returns (x: real)
      requires Valid() && available > 0
      modifies this`readIndex, this`available, this`totalPlayed, this`fates, this`played
      ensures Valid() && x == old(Contents())[0]
      ensures fates == old(fates) + [true] && played == old(played) + [x] && available == old(available) - 1
    {
      SlotIsModulo(readIndex, 1, size);
      x := buffer[readIndex];
      ghost var r, n := readIndex, |fates|;
      assert x == accepted[n] by { assert Slot(r, 0, size) == r; }
      PlayedOfMore(accepted[..|fates|], fates, x, true);
      assert accepted[..|fates| + 1] == accepted[..|fates|] + [x];
      readIndex := (readIndex + 1) % size;
      available := available - 1;
      totalPlayed := totalPlayed + 1;
      fates, played := fates + [true], played + [x];
      forall i | 0 <= i < available
        ensures buffer[Slot(readIndex, i, size)] == accepted[|fates| + i]
      {
        assert Slot(readIndex, i, size) == Slot(r, i + 1, size);
      }
    }

    /** One frame on both channels: the oldest sample, or silence. */
    method RenderFrame(left: array<real>, right: array<real>, i: nat)
      requires Valid() && i < left.Length == right.Length && left != buffer && right != buffer
      modifies this`readIndex, this`available, this`totalPlayed, this`fates, this`played, left, right
      ensures Valid()
      ensures forall j | 0 <= j < left.Length && j != i :: left[j] == old(left[j]) && right[j] == old(right[j])
      ensures left[i] == right[i] == if old(available) > 0 then old(Contents())[0] else 0.0
      ensures if old(available) > 0 then
                fates == old(fates) + [true] && played == old(played) + [left[i]] && available == old(available) - 1
              else fates == old(fates) && played == old(played) && available == 0
    {
      var sample := 0.0;
      if available > 0 {
        sample := TakeOne();
      }
      left[i] := sample;
      if right != left {
        right[i] := sample;
      }
    }

    /** One render quantum: the oldest samples in order, then silence, on both channels
        (`right` may be the same array as `left`). Reports progress every so many frames,
        and that the buffer has run empty. */
    method Process(left: array<real>, right: array<real>, rate: real) returns (progress: Option<Progress>, empty: bool)
      requires Valid() && right.Length == left.Length && left != buffer && right != buffer && rate > 0.0
      modifies this`readIndex, this`available, this`totalPlayed, this`lastReport, this`fates, this`played, left, right
      ensures Valid()
      ensures var k := Min(old(available), left.Length); var out := old(Contents())[..k];
              && left[..] == right[..] == out + Silence(left.Length - k)
              && played == old(played) + out && Contents() == old(Contents())[k..]
              && fates == old(fates) + Repeat(true, k)
      ensures progress.Some? <==> old(lastReport) + left.Length >= REPORT_FRAMES
      ensures progress.Some? ==> progress.value == Progress(PlayedMs(|played|, rate), Contents() != [])
      ensures lastReport == if progress.Some? then 0 else old(lastReport) + left.Length
      ensures empty <==> Contents() == [] && played != []
    {
      Render(left, right);
      var due := Report(left.Length);
      progress := if due then Some(Progress(PlayedMs(totalPlayed, rate), available > 0)) else None;
      empty := available == 0 && totalPlayed > 0;
    }

    /** The frames of a quantum. */
    method Render(left: array<real>, right: array<real>)
      requires Valid() && right.Length == left.Length && left != buffer && right != buffer
      modifies this`readIndex, this`available, this`totalPlayed, this`fates, this`played, left, right
      ensures Valid()
      ensures var k := Min(old(available), left.Length); var out := old(Contents())[..k];
              && left[..] == right[..] == out + Silence(left.Length - k)
              && played == old(played) + out && Contents() == old(Contents())[k..]
              && fates == old(fates) + Repeat(true, k)
    {
      ghost var queue := Contents();
      RenderAll(left, right);
      FramesInOrder(left[..], queue);
      FramesInOrder(right[..], queue);
      ghost var k := Min(|queue|, left.Length);
      assert accepted[|old(fates)|..][k..] == accepted[|old(fates)| + k..];
    }

    /** Counts the frames since the last report, and starts over when one is due. */
    method Report(frames: nat) returns (due: bool)
      modifies this`lastReport
      ensures due <==> old(lastReport) + frames >= REPORT_FRAMES
      ensures lastReport == if due then 0 else old(lastReport) + frames
    {
      lastReport := lastReport + frames;
      due := lastReport >= REPORT_FRAMES;
      if due {
        lastReport := 0;
      }
    }

    method RenderAll(left: array<real>, right: array<real>)
      requires Valid() && right.Length == left.Length && left != buffer && right != buffer
      modifies this`readIndex, this`available, this`totalPlayed, this`fates, this`played, left, right
      ensures Valid() && Rendered(old(Contents()), old(fates), old(played), Min(left.Length, old(available)))
      ensures forall j | 0 <= j < left.Length ::
                left[j] == right[j] == if j < old(available) then old(Contents())[j] else 0.0
    {
      ghost var queue := Contents();
      for i := 0 to left.Length
        invariant Valid() && Rendered(queue, old(fates), old(played), Min(i, |queue|))
        invariant forall j | 0 <= j < i :: left[j] == right[j] == if j < |queue| then queue[j] else 0.0
      {
        ghost var k := Min(i, |queue|);
        assert available > 0 ==> Contents()[0] == queue[i];
        RenderFrame(left, right, i);
        if i < |queue| {
          MoreFates(old(fates), true, k);
          assert queue[..k + 1] == queue[..k] + [queue[k]];
        }
      }
    }

    /** The player after `k` of the samples in `queue` were rendered. */
    ghost predicate Rendered(queue: seq<real>, fates0: seq<bool>, played0: seq<real>, k: nat) reads this {
      && k <= |queue| && |fates0| + |queue| == |accepted| && accepted[|fates0|..] == queue
      && available == |queue| - k && fates == fates0 + Repeat(true, k) && played == played0 + queue[..k]
    }

    /** The write position is where the ring arithmetic of the program puts it. */
    lemma {:induction false} WriteFollowsRead()
      requires Valid()
      ensures writeIndex == (readIndex + available) % size
    {
      SlotIsModulo(readIndex, available, size);
    }

    /** Every accepted sample is played, waiting or flushed; and what was played is the
        accepted samples in order, without the flushed ones. */
    lemma {:induction false} NothingIsLostOrReordered()
      requires Valid()
      ensures |accepted| == |played| + available + Flushed(fates)
      ensures played == PlayedOf(accepted[..|fates|], fates)
    {
      CountFates(accepted[..|fates|], fates);
    }
  }

  function Flushed(fates: seq<bool>): nat {
    if fates == [] then 0
    else Flushed(fates[..|fates| - 1]) + if fates[|fates| - 1] then 0 else 1
  }

  lemma {:induction false} CountFates(samples: seq<real>, fates: seq<bool>)
    requires |samples| == |fates|
    ensures |PlayedOf(samples, fates)| + Flushed(fates) == |samples|
  {
    if samples == [] {
    } else {
      var n := |samples| - 1;
      CountFates(samples[..n], fates[..n]);
    }
  }

  lemma {:induction false} FlushedFates(accepted: seq<real>, fates: seq<bool>, n: nat)
    requires |fates| + n <= |accepted|
    ensures var all := fates + Repeat(false, n);
            PlayedOf(accepted[..|fates| + n], all) == PlayedOf(accepted[..|fates|], fates)
  {
    if n == 0 {
      assert fates + Repeat(false, 0) == fates;
    } else {
      var all, m := fates + Repeat(false, n - 1), |fates| + n - 1;
      FlushedFates(accepted, fates, n - 1);
      PlayedOfMore(accepted[..m], all, accepted[m], false);
      assert accepted[..m] + [accepted[m]] == accepted[..m + 1];
      MoreFates(fates, false, n - 1);
    }
  }
}
