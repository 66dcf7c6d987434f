/** Chunk scheduling over the (possibly padded) signal: starts at
    `0, step, 2*step, ...` while the start is below the padded length; each
    chunk is the slice `[start, start + C)` cut at the end of the signal and
    padded back up to `C` samples before the model sees it. */
module Schedule {
  import opened Signal
  import Padding

  /** Number of passes of the enhancer's `while i < len: ...; i += step`
      loop: the smallest count whose multiple of `step` reaches `len`. */
  function ChunkCount(len: nat, step: nat): (n: nat)
    requires step >= 1
    ensures n * step >= len
    ensures n == 0 || (n - 1) * step < len
    ensures n == 0 <==> len == 0
    decreases len
  {
    if len == 0 then 0
    else if len <= step then 1
    else
      var m := ChunkCount(len - step, step);
      assert (m + 1) * step == m * step + step;
      m + 1
  }

  lemma MulMonotone(a: int, b: int, step: nat)
    requires a <= b
    ensures a * step <= b * step
  {
  }

  /** The `j`-th chunk exists exactly when its start lies inside the signal. */
  lemma ChunkExists(len: nat, step: nat, j: nat)
    requires step >= 1
    ensures j < ChunkCount(len, step) <==> j * step < len
  {
    var n := ChunkCount(len, step);
    if j < n {
      MulMonotone(j, n - 1, step);
    } else {
      MulMonotone(n, j, step);
    }
  }

  lemma ModOfMultiple(j: nat, step: nat)
    requires step >= 1
    ensures (j * step) % step == 0
  {
    var q, r := (j * step) / step, (j * step) % step;
    assert step * q + r == j * step;
    assert (j - q) * step == r;
    if j - q >= 1 {
      MulMonotone(1, j - q, step);
    } else if j - q <= -1 {
      MulMonotone(j - q, -1, step);
    }
  }

  lemma DivOfMultiple(i: nat, step: nat)
    requires step >= 1 && i % step == 0
    ensures (i / step) * step == i
  {
    assert step * (i / step) + i % step == i;
  }

  /** The starts the loop visits, in order: the `j`-th is `j * step`. */
  function ChunkStarts(len: nat, step: nat): (starts: seq<nat>)
    requires step >= 1
    ensures |starts| == ChunkCount(len, step)
    ensures forall j :: 0 <= j < |starts| ==> starts[j] == j * step
  {
    seq(ChunkCount(len, step), j requires 0 <= j => j * step)
  }

  /** The starts are exactly the multiples of `step` below `len`, in
      increasing order; an empty signal has none. */
  lemma ChunkStartsAreMultiples(len: nat, step: nat)
    requires step >= 1
    ensures len == 0 ==> ChunkStarts(len, step) == []
    ensures forall i :: i in ChunkStarts(len, step) <==> 0 <= i < len && i % step == 0
  {
    forall i | i in ChunkStarts(len, step) ensures 0 <= i < len && i % step == 0 {
      StartIsMultiple(len, step, i);
    }
    forall i | 0 <= i < len && i % step == 0 ensures i in ChunkStarts(len, step) {
      MultipleIsStart(len, step, i);
    }
  }

  /** The loop visits the starts in increasing order. */
  lemma ChunkStartsIncreasing(len: nat, step: nat)
    requires step >= 1
    ensures forall j, k :: 0 <= j < k < |ChunkStarts(len, step)| ==>
      ChunkStarts(len, step)[j] < ChunkStarts(len, step)[k]
  {
    var starts := ChunkStarts(len, step);
    forall j, k | 0 <= j < k < |starts| ensures starts[j] < starts[k] {
      MulMonotone(j + 1, k, step);
    }
  }

  lemma MultipleIsStart(len: nat, step: nat, i: nat)
    requires step >= 1 && i < len && i % step == 0
    ensures i in ChunkStarts(len, step)
  {
    var j := i / step;
    DivOfMultiple(i, step);
    ChunkExists(len, step, j);
    assert ChunkStarts(len, step)[j] == i;
  }

  lemma StartIsMultiple(len: nat, step: nat, i: nat)
    requires step >= 1 && i in ChunkStarts(len, step)
    ensures i < len && i % step == 0
  {
    var starts := ChunkStarts(len, step);
    var j :| 0 <= j < |starts| && starts[j] == i;
    ChunkExists(len, step, j);
    ModOfMultiple(j, step);
  }

  /** Whether position `p` is written by the chunk starting at `start`: the
      slice `[start, start + C)` cut at the signal end `len`. */
  predicate InSlice(start: int, p: int, len: int, chunkSize: int) {
    start <= p < len && p < start + chunkSize
  }

  /** `part.shape[-1]` for the chunk starting at `start`. */
  function SliceLength(len: nat, chunkSize: nat, start: nat): (n: nat)
    requires start < len
    ensures n == if len - start < chunkSize then len - start else chunkSize
    ensures forall p :: start <= p < start + n <==> InSlice(start, p, len, chunkSize)
  {
    if len - start < chunkSize then len - start else chunkSize
  }

  /** One channel of the chunk starting at `start`, brought to exactly
      `chunkSize` samples. A short slice is reflect-padded at its end when it
      has more than `C // 2 + 1` samples, and zero-padded otherwise. */
  function ChunkRow(row: seq<real>, start: nat, chunkSize: nat): (r: seq<real>)
    requires start < |row| && chunkSize >= 1
    ensures |r| == chunkSize
    ensures forall k :: 0 <= k < chunkSize && InSlice(start, start + k, |row|, chunkSize) ==>
      r[k] == row[start + k]
    ensures |row| - start < chunkSize && |row| - start > chunkSize / 2 + 1 ==>
      forall k :: |row| - start <= k < chunkSize ==> r[k] == row[2 * |row| - 2 - (start + k)]
    ensures |row| - start < chunkSize && |row| - start <= chunkSize / 2 + 1 ==>
      forall k :: |row| - start <= k < chunkSize ==> r[k] == 0.0
  {
    var length := SliceLength(|row|, chunkSize, start);
    var part := row[start..start + length];
    if length < chunkSize then
      if length > chunkSize / 2 + 1 then
        Padding.ReflectPad(part, 0, chunkSize - length)
      else
        part + seq(chunkSize - length, _ => 0.0)
    else
      part
  }

  /** A model input of shape `[channels, chunkSize]`. */
  predicate IsChunk(c: seq<seq<real>>, channels: nat, chunkSize: nat) {
    |c| == channels && Rectangular(c, chunkSize)
  }

  /** The chunk starting at `start`, every channel padded to `chunkSize`. */
  function Chunk(x: seq<seq<real>>, start: nat, chunkSize: nat): (c: seq<seq<real>>)
    requires IsSignal(x) && start < Length(x) && chunkSize >= 1
    ensures IsChunk(c, |x|, chunkSize)
    ensures forall ch, k :: 0 <= ch < |x| && 0 <= k < chunkSize && InSlice(start, start + k, Length(x), chunkSize) ==>
      c[ch][k] == x[ch][start + k]
  {
    seq(|x|, ch requires 0 <= ch < |x| => ChunkRow(x[ch], start, chunkSize))
  }

  /** Every channel of the chunk is that channel's padded slice, so past
      the slice the model sees the reflected or zero tail of `ChunkRow`. */
  lemma ChunkIsRows(x: seq<seq<real>>, start: nat, chunkSize: nat)
    requires IsSignal(x) && start < Length(x) && chunkSize >= 1
    ensures forall ch :: 0 <= ch < |x| ==> Chunk(x, start, chunkSize)[ch] == ChunkRow(x[ch], start, chunkSize)
  {
  }
}
