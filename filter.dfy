/** The bookkeeping of the feature extractor in sopare/filter.py: the
    half-chunk-shifted buffer, the decision whether a chunk is windowed,
    and the progressive chunked summation of the spectrum. The transforms
    themselves (FFT, Hann window, logarithm, tanh, normalisation) are not
    modelled; the filter reports which of them it would apply. */
module Filter {
  import opened Basics
  import opened Features

  /** check_for_windowing: some frame tag marks a segment boundary. */
  function CheckForWindowing(meta: seq<string>): (r: bool)
    ensures r <==> exists i :: 0 <= i < |meta| && (meta[i] == StartAnalysis || meta[i] == Silence)
  {
    if meta == [] then false
    else if meta[0] == StartAnalysis || meta[0] == Silence then true
    else
      var rest := CheckForWindowing(meta[1..]);
      assert forall i :: 0 < i < |meta| ==> meta[i] == meta[1..][i - 1];
      rest
  }

  /** The list `[v for v in range(0, n)]` that seeds the shift buffer. */
  function Placeholder(n: int): (r: seq<real>)
    ensures |r| == (if n > 0 then n else 0)
    ensures forall i :: 0 <= i < |r| ==> r[i] == i as real
  {
    if n > 0 then seq(n, i => i as real) else []
  }

  /** The state n_shift works on: the call counter, the shift buffer and the
      previous chunk (None before the first call). */
  datatype ShiftState = ShiftState(counter: nat, buffer: seq<real>, last: Option<seq<real>>)

  /** The state after n_shift(data); `reset` is the flag `first`, which
      restarts the counter. */
  function NShiftStep(chunks: int, reset: bool, st: ShiftState, data: seq<real>): (r: ShiftState)
    requires !reset && st.counter >= 2 ==> st.last.Some?
    ensures r.counter == (if reset then 0 else st.counter) + 1
    ensures r.last == Some(data)
    ensures r.counter == 1 ==> r.buffer == Placeholder(chunks / 2) + data[|data| / 2..]
  {
    var counter := if reset then 0 else st.counter;
    var buffer := if reset then [] else st.buffer;
    if counter == 0 then ShiftState(1, Placeholder(chunks / 2) + data[|data| / 2..], Some(data))
    else if counter == 1 then ShiftState(2, buffer[|buffer| / 2..] + data[..|data| / 2], Some(data))
    else ShiftState(counter + 1, st.last.value[|st.last.value| / 2..] + data[..|data| / 2], Some(data))
  }

  /** Chunk i of a stream cut into chunks of `chunks` values. */
  function ChunkOf(stream: seq<real>, chunks: nat, i: nat): (r: seq<real>)
    requires (i + 1) * chunks <= |stream|
    ensures |r| == chunks
  {
    stream[i * chunks..(i + 1) * chunks]
  }

  /** The shift state after the first k chunks of a stream in which no chunk
      after the first starts a new segment. */
  function Replay(chunks: nat, stream: seq<real>, k: nat): (r: ShiftState)
    requires k * chunks <= |stream|
    ensures r.counter == k
    ensures k > 0 ==> r.last == Some(ChunkOf(stream, chunks, k - 1))
    ensures k > 0 ==> |r.buffer| == chunks
  {
    if k == 0 then ShiftState(0, [], None)
    else
      assert (k - 1) * chunks <= k * chunks;
      NShiftStep(chunks, k == 1, Replay(chunks, stream, k - 1), ChunkOf(stream, chunks, k - 1))
  }

  /** From the second chunk on the shift buffer is the window of the stream
      that straddles the start x of the current chunk: the last
      chunks - chunks/2 values before x and the first chunks/2 values from x
      (half a chunk on each side when chunks is even). */
  lemma ShiftStraddles(chunks: nat, stream: seq<real>, k: nat)
    requires chunks > 0 && k >= 2 && k * chunks <= |stream|
    ensures (k - 1) * chunks <= k * chunks
    ensures var x := (k - 1) * chunks;
      x - (chunks - chunks / 2) >= 0
      && Replay(chunks, stream, k).buffer == stream[x - (chunks - chunks / 2)..x + chunks / 2]
  {
    if k == 2 {
      ShiftSecond(chunks, stream);
    } else {
      ShiftLater(chunks, stream, k);
    }
  }

  /** The second call: the seeded buffer loses its placeholder half. */
  lemma ShiftSecond(chunks: nat, stream: seq<real>)
    requires chunks > 0 && 2 * chunks <= |stream|
    ensures Replay(chunks, stream, 2).buffer == stream[chunks / 2..chunks + chunks / 2]
  {
    var h := chunks / 2;
    var st := Replay(chunks, stream, 1);
    assert ChunkOf(stream, chunks, 0) == stream[..chunks];
    assert ChunkOf(stream, chunks, 1) == stream[chunks..2 * chunks];
    assert st.buffer == Placeholder(h) + stream[..chunks][h..];
    assert stream[h..chunks + h] == stream[..chunks][h..] + stream[chunks..2 * chunks][..h];
  }

  /** Later calls: the second half of the previous chunk and the first half
      of the current one. */
  lemma ShiftLater(chunks: nat, stream: seq<real>, k: nat)
    requires chunks > 0 && k >= 3 && k * chunks <= |stream|
    ensures (k - 1) * chunks <= k * chunks
    ensures var x := (k - 1) * chunks;
      x - (chunks - chunks / 2) >= 0
      && Replay(chunks, stream, k).buffer == stream[x - (chunks - chunks / 2)..x + chunks / 2]
  {
    var i := k - 2;
    var x := (k - 1) * chunks;
    var h := chunks / 2;
    ChunkHalves(stream, chunks, i);
    ChunkHalves(stream, chunks, k - 1);
    assert x == i * chunks + chunks;
    assert stream[x - (chunks - h)..x + h] == stream[i * chunks + h..x] + stream[x..x + h];
  }

  /** The two halves of chunk i as slices of the stream. */
  lemma ChunkHalves(stream: seq<real>, chunks: nat, i: nat)
    requires (i + 1) * chunks <= |stream|
    ensures (i + 1) * chunks == i * chunks + chunks
    ensures ChunkOf(stream, chunks, i)[chunks / 2..] == stream[i * chunks + chunks / 2..i * chunks + chunks]
    ensures ChunkOf(stream, chunks, i)[..chunks / 2] == stream[i * chunks..i * chunks + chunks / 2]
  {
    MulSucc(i, chunks);
  }

  /** Python's int() on a float: truncation toward zero. */
  function Trunc(r: real): (n: int)
    ensures r >= 0.0 ==> n as real <= r < n as real + 1.0
    ensures r < 0.0 ==> n as real - 1.0 < r <= n as real
  {
    if r >= 0.0 then r.Floor else -((-r).Floor)
  }

  /** The two variables get_chunked_norm updates: `progessive` and
      `min_prog_step`, the width of the next slice. */
  datatype Progress = Progress(factor: real, width: int)

  /** One update of the progression at bin x: past START_PROGRESSIVE_FACTOR
      the factor grows and widens the slice, capped at MAX_PROGRESSIVE_STEP. */
  function Advance(p: Progress, x: int, maxStep: int, start: Option<real>): (r: Progress)
    ensures start.Some? && x as real >= start.value ==> r.width <= maxStep
    ensures start.Some? && x as real >= start.value ==>
      r.factor == p.factor * (1.0 + start.value)
      && r.width == MinInt(p.width + Trunc(r.factor), maxStep)
    ensures !(start.Some? && x as real >= start.value) ==> r == p
  {
    if start.Some? && x as real >= start.value then
      var factor := p.factor + p.factor * start.value;
      var width := p.width + Trunc(factor);
      Progress(factor, if width > maxStep then maxStep else width)
    else p
  }

  /** The progression after the first i iterations of the loop, which visits
      the bins 0, step, 2 * step, ... */
  function ProgressAt(step: int, maxStep: int, start: Option<real>, i: nat): Progress
  {
    if i == 0 then Progress(1.0, step)
    else Advance(ProgressAt(step, maxStep, start, i - 1), (i - 1) * step, maxStep, start)
  }

  /** (i + 1) * step, spelled out for the solver. */
  lemma MulSucc(i: int, step: int)
    ensures (i + 1) * step == i * step + step
  {
  }

  /** Without START_PROGRESSIVE_FACTOR every slice has the initial width. */
  lemma {:induction false} FixedWidth(step: int, maxStep: int, i: nat)
    ensures ProgressAt(step, maxStep, None, i).width == step
  {
    if i > 0 {
      FixedWidth(step, maxStep, i - 1);
    }
  }

  /** Once the progression has started, no slice is wider than
      MAX_PROGRESSIVE_STEP. */
  lemma WidthCapped(step: int, maxStep: int, start: real, i: nat)
    requires i > 0 && ((i - 1) * step) as real >= start
    ensures ProgressAt(step, maxStep, Some(start), i).width <= maxStep
  {
  }

  /** The sum that iteration i appends: the slice from bin i * step of the
      width the progression has reached in that iteration. */
  function ChunkAt(nfft: seq<real>, step: int, maxStep: int, start: Option<real>, i: nat): real
  {
    Sum(Slice(nfft, i * step, i * step + ProgressAt(step, maxStep, start, i + 1).width))
  }

  /** get_chunked_norm: one sum per bin visited by `range(0, size, step)`,
      over the slice from that bin of the current width; without
      START_PROGRESSIVE_FACTOR the slices tile the spectrum and the sums add
      up to its total. A step of 0 makes `range` raise. */
  method ChunkedNorm(nfft: seq<real>, minStep: int, maxStep: int, start: Option<real>) returns (chunked: seq<real>)
    requires minStep != 0
    ensures minStep > 0 ==> |chunked| * minStep >= |nfft| && (|chunked| == 0 || (|chunked| - 1) * minStep < |nfft|)
    ensures minStep < 0 ==> chunked == []
    ensures forall i :: 0 <= i < |chunked| ==> chunked[i] == ChunkAt(nfft, minStep, maxStep, start, i)
    ensures start == None && minStep > 0 ==> Sum(chunked) == Sum(nfft)
  {
    chunked := [];
    if minStep < 0 {
      return;
    }
    var progress := Progress(1.0, minStep);
    var x := 0;
    var i := 0;
    while x < |nfft|
      invariant LoopState(nfft, minStep, maxStep, start, i, x, progress, chunked)
      decreases |nfft| - x
    {
      var next := Advance(progress, x, maxStep, start);
      var part := Sum(Slice(nfft, x, x + next.width));
      LoopStep(nfft, minStep, maxStep, start, i, x, progress, chunked, next, part);
      progress := next;
      chunked := chunked + [part];
      x := x + minStep;
      i := i + 1;
    }
    LoopDone(nfft, minStep, maxStep, start, i, x, progress, chunked);
  }

  /** The invariant of the get_chunked_norm loop. */
  predicate LoopState(nfft: seq<real>, step: int, maxStep: int, start: Option<real>, i: nat, x: int,
                      progress: Progress, chunked: seq<real>)
  {
    Chunked(nfft, step, maxStep, start, i, x, progress, chunked)
    && (start == None ==> Tiled(nfft, step, x, chunked))
  }

  lemma LoopStep(nfft: seq<real>, step: int, maxStep: int, start: Option<real>, i: nat, x: int,
                 progress: Progress, chunked: seq<real>, next: Progress, part: real)
    requires step > 0 && x < |nfft| && LoopState(nfft, step, maxStep, start, i, x, progress, chunked)
    requires next == Advance(progress, x, maxStep, start) && part == Sum(Slice(nfft, x, x + next.width))
    ensures LoopState(nfft, step, maxStep, start, i + 1, x + step, next, chunked + [part])
  {
    ChunkStep(nfft, step, maxStep, start, i, x, progress, chunked, next, part);
    if start == None {
      TileStep(nfft, step, maxStep, start, i, x, progress, chunked, next, part);
    }
  }

  /** When the loop ends, i is the number of iterations of the range. */
  lemma LoopDone(nfft: seq<real>, step: int, maxStep: int, start: Option<real>, i: nat, x: int,
                 progress: Progress, chunked: seq<real>)
    requires step > 0 && x >= |nfft| && LoopState(nfft, step, maxStep, start, i, x, progress, chunked)
    ensures |chunked| * step >= |nfft| && (|chunked| == 0 || (|chunked| - 1) * step < |nfft|)
    ensures forall j :: 0 <= j < |chunked| ==> chunked[j] == ChunkAt(nfft, step, maxStep, start, j)
    ensures start == None ==> Sum(chunked) == Sum(nfft)
  {
    MulSucc(i - 1, step);
    assert nfft[..|nfft|] == nfft;
  }

  /** The state of the get_chunked_norm loop after i iterations: the next bin
      is x, the progression has advanced i times, and the i sums so far are
      the specified ones; without progression they add up to the bins
      before x. */
  predicate Chunked(nfft: seq<real>, step: int, maxStep: int, start: Option<real>, i: nat, x: int,
                    progress: Progress, chunked: seq<real>)
  {
    x == i * step && (i == 0 || x - step < |nfft|)
    && progress == ProgressAt(step, maxStep, start, i)
    && |chunked| == i
    && (forall j :: 0 <= j < i ==> chunked[j] == ChunkAt(nfft, step, maxStep, start, j))
  }

  /** Without progression the sums so far add up to the bins before x. */
  predicate Tiled(nfft: seq<real>, step: int, x: int, chunked: seq<real>)
  {
    0 <= x <= |nfft| + step && Sum(chunked) == Sum(nfft[..MinInt(x, |nfft|)])
  }

  /** One iteration of the get_chunked_norm loop keeps its state. */
  lemma ChunkStep(nfft: seq<real>, step: int, maxStep: int, start: Option<real>, i: nat, x: int,
                  progress: Progress, chunked: seq<real>, next: Progress, part: real)
    requires step > 0 && x < |nfft| && Chunked(nfft, step, maxStep, start, i, x, progress, chunked)
    requires next == Advance(progress, x, maxStep, start) && part == Sum(Slice(nfft, x, x + next.width))
    ensures Chunked(nfft, step, maxStep, start, i + 1, x + step, next, chunked + [part])
  {
    NextChunk(nfft, step, maxStep, start, i, x, progress);
    var c := chunked + [part];
    forall j | 0 <= j < i + 1 ensures c[j] == ChunkAt(nfft, step, maxStep, start, j) {
      if j < i {
        assert c[j] == chunked[j];
      }
    }
  }

  /** Without progression one iteration appends the sum of the next step
      bins. */
  lemma TileStep(nfft: seq<real>, step: int, maxStep: int, start: Option<real>, i: nat, x: int, progress: Progress,
                 chunked: seq<real>, next: Progress, part: real)
    requires start == None && step > 0 && 0 <= x < |nfft| && Tiled(nfft, step, x, chunked)
    requires progress == ProgressAt(step, maxStep, start, i)
    requires next == Advance(progress, x, maxStep, start) && part == Sum(Slice(nfft, x, x + next.width))
    ensures Tiled(nfft, step, x + step, chunked + [part])
  {
    FixedWidth(step, maxStep, i);
    AddSlice(nfft, x, step, chunked, part);
  }

  /** Iteration i of get_chunked_norm starts at bin i * step and appends
      ChunkAt(i). */
  lemma NextChunk(nfft: seq<real>, step: int, maxStep: int, start: Option<real>, i: nat, x: int, progress: Progress)
    requires x == i * step && progress == ProgressAt(step, maxStep, start, i)
    ensures Advance(progress, x, maxStep, start) == ProgressAt(step, maxStep, start, i + 1)
    ensures Sum(Slice(nfft, x, x + Advance(progress, x, maxStep, start).width)) == ChunkAt(nfft, step, maxStep, start, i)
    ensures x + step == (i + 1) * step
  {
    MulSucc(i, step);
  }

  /** The next disjoint slice extends the covered prefix. */
  lemma AddSlice(nfft: seq<real>, x: nat, step: int, chunked: seq<real>, part: real)
    requires step > 0 && x < |nfft| && Sum(chunked) == Sum(nfft[..x])
    requires part == Sum(Slice(nfft, x, x + step))
    ensures Sum(chunked + [part]) == Sum(nfft[..MinInt(x + step, |nfft|)])
  {
    var m := MinInt(x + step, |nfft|);
    assert Slice(nfft, x, x + step) == nfft[x..m];
    assert nfft[..m] == nfft[..x] + nfft[x..m];
    SumConcat(nfft[..x], nfft[x..m]);
    assert (chunked + [part])[..|chunked|] == chunked;
  }

  /** Whether numpy raises on transforming n values. `rfft` refuses zero
      points. The Hann window is built for n rounded up to an even length,
      so on the windowed branch an odd n does not match it, unless n is 1,
      which broadcasts against the two-point window. */
  predicate TransformRaises(windowed: bool, n: nat)
  {
    n == 0 || (windowed && n % 2 != 0 && n != 1)
  }

  /** In a stream of full chunks, with CHUNKS even or 1, neither the chunk
      nor the shift buffer makes a transform raise, on either branch. */
  lemma FullChunksNeverRaise(chunks: nat, stream: seq<real>, k: nat, windowed: bool)
    requires 0 < k && k * chunks <= |stream|
    requires chunks % 2 == 0 || chunks == 1
    requires chunks > 0
    ensures !TransformRaises(windowed, |ChunkOf(stream, chunks, k - 1)|)
    ensures !TransformRaises(windowed, |Replay(chunks, stream, k).buffer|)
  {
  }

  /** With an odd CHUNKS of at least 3, the windowed branch raises on every
      full chunk. */
  lemma OddChunksRaise(chunks: nat, stream: seq<real>, k: nat)
    requires 0 < k && k * chunks <= |stream|
    requires chunks % 2 != 0 && chunks >= 3
    ensures TransformRaises(true, |ChunkOf(stream, chunks, k - 1)|)
  {
  }

  /** The stateful part of Filtering. CHUNKS and HANNING come from the
      configuration and do not change. */
  class Filtering {
    const chunks: int
    const hanning: bool
    var first: bool
    var dataShift: seq<real>
    var lastData: Option<seq<real>>
    var dataShiftCounter: nat

    /** A counter past zero means a chunk has been seen. */
    ghost predicate Valid()
      reads this
    {
      dataShiftCounter > 0 ==> lastData.Some?
    }

    function State(): ShiftState
      reads this
    {
      ShiftState(dataShiftCounter, dataShift, lastData)
    }

    constructor(chunks: int, hanning: bool)
      ensures Valid()
      ensures this.chunks == chunks && this.hanning == hanning
      ensures first && dataShift == [] && lastData == None && dataShiftCounter == 0
    {
      this.chunks := chunks;
      this.hanning := hanning;
      first := true;
      dataShift := [];
      lastData := None;
      dataShiftCounter := 0;
    }

    /** n_shift: update the shift buffer with the chunk `data`. */
    method NShift(data: seq<real>)
      modifies this
      requires Valid()
      ensures Valid()
      ensures State() == NShiftStep(chunks, old(first), old(State()), data)
      ensures first == old(first)
    {
      if first {
        dataShift := [];
        dataShiftCounter := 0;
      }
      if dataShiftCounter == 0 {
        dataShift := Placeholder(chunks / 2);
        dataShift := dataShift + data[|data| / 2..];
      } else if dataShiftCounter == 1 {
        dataShift := dataShift[|dataShift| / 2..];
        dataShift := dataShift + data[..|data| / 2];
      } else {
        dataShift := lastData.value[|lastData.value| / 2..];
        dataShift := dataShift + data[..|data| / 2];
      }
      lastData := Some(data);
      dataShiftCounter := dataShiftCounter + 1;
    }

    /** The branch of filter that decides on windowing: a chunk is windowed
        only at the start of a segment, with HANNING on and a full chunk;
        the shift buffer is transformed once it holds CHUNKS values. The
        plain branch re-arms `first` from the frame tags; the windowed one
        clears it only once the shift buffer was windowed too. A transform
        that raises (TransformRaises) stops the call: `raised` reports it,
        and nothing after it happens. */
    method Filter(data: seq<real>, meta: seq<string>) returns (windowed: bool, shiftTransformed: bool, raised: bool)
      modifies this
      requires Valid()
      ensures Valid()
      ensures State() == NShiftStep(chunks, old(first), old(State()), data)
      ensures windowed <==> old(first) && hanning && |data| >= chunks
      ensures raised <==> TransformRaises(windowed, |data|) ||
                          (|dataShift| >= chunks && TransformRaises(windowed, |dataShift|))
      ensures shiftTransformed <==> |dataShift| >= chunks && !raised
      ensures raised ==> first == old(first)
      ensures !raised && !windowed ==> first == CheckForWindowing(meta)
      ensures !raised && windowed ==> first == (|dataShift| < chunks)
    {
      NShift(data);
      windowed := first && hanning && |data| >= chunks;
      shiftTransformed := false;
      raised := TransformRaises(windowed, |data|);
      if raised {
        return;
      }
      if |dataShift| >= chunks {
        raised := TransformRaises(windowed, |dataShift|);
        if raised {
          return;
        }
        shiftTransformed := true;
      }
      if !windowed {
        first := CheckForWindowing(meta);
      } else if shiftTransformed {
        first := false;
      }
    }
  }
}
