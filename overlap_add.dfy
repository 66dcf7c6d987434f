/** The enhancer's reconstruction pass: pad the signal, run every chunk
    through the model, add each output (weighted by the chunk's mask) and the
    mask itself into two buffers, divide, turn the 0/0 cells into 0 and strip
    the border again. */
module OverlapAdd {
  import opened Signal
  import opened Padding
  import opened Window
  import opened Schedule

  /** Chunk length `C`, hop between chunk starts, and the number of trailing
      samples of each chunk that the base mask drops. */
  datatype Config = Config(chunkSize: nat, step: nat, fadeSize: nat) {
    /** What the pass needs to run: a positive hop no longer than a chunk
        (a zero hop never leaves the loop) and a fade that fits the mask. */
    predicate Valid() {
      1 <= step <= chunkSize && 1 <= fadeSize <= chunkSize
    }

    /** Width of the reflect border added on each side of the signal. */
    function Border(): (b: int)
      ensures Valid() ==> 0 <= b < chunkSize
      ensures step + b == chunkSize
    {
      chunkSize - step
    }
  }

  /** The constants the enhancer hard-codes for a signal loaded at
      `sampleRate`: ten-second chunks, two chunks per window (`C // 2`), and a
      three-second fade counted at 44.1 kHz. From 26460 Hz on (the loader
      always resamples to 44100 Hz) they are valid and the fade fits inside
      the border, which is what full coverage needs. */
  function SourceConfig(sampleRate: nat): (cfg: Config)
    ensures cfg.chunkSize == 10 * sampleRate && cfg.step == cfg.chunkSize / 2
    ensures cfg.fadeSize == 3 * 44100
    ensures sampleRate >= 26460 ==> cfg.Valid() && cfg.fadeSize <= cfg.Border()
  {
    var c := 10 * sampleRate;
    Config(c, c / 2, 3 * 44100)
  }

  /** The restoration model: one `[channels, C]` chunk in, one out. */
  type Model = seq<seq<real>> -> seq<seq<real>>

  /** The model keeps the shape of every chunk it is given. */
  ghost predicate ShapePreserving(model: Model, channels: nat, chunkSize: nat) {
    forall c {:trigger model(c)} :: IsChunk(c, channels, chunkSize) ==> IsChunk(model(c), channels, chunkSize)
  }

  /** The model that hands its chunk back unchanged. */
  function Identity(c: seq<seq<real>>): seq<seq<real>> {
    c
  }

  /** Weight that the chunk starting at `start` adds to `counter` at `p`. */
  function Weight(cfg: Config, len: nat, start: nat, p: int): real {
    if InSlice(start, p, len, cfg.chunkSize)
    then MaskAt(cfg.chunkSize, cfg.fadeSize, RoleOf(start, cfg.chunkSize, len), p - start)
    else 0.0
  }

  /** What the chunks starting at `i, i + step, ...` (below `len`) add to
      `counter` at `p`: the sum of their weights. The whole pass adds
      `CounterFrom(cfg, len, 0, p)`. */
  function CounterFrom(cfg: Config, len: nat, i: nat, p: int): (s: real)
    requires cfg.step >= 1
    ensures 0.0 <= s
    decreases len - i
  {
    if i >= len then 0.0
    else Weight(cfg, len, i, p) + CounterFrom(cfg, len, i + cfg.step, p)
  }

  /** Sample `k` of channel `ch` of a model output. The pass only runs with
      a shape-preserving model, where this is plain indexing; the 0 for an
      index outside the output keeps the specification total. */
  function OutAt(out: seq<seq<real>>, ch: int, k: int): real {
    if 0 <= ch < |out| && 0 <= k < |out[ch]| then out[ch][k] else 0.0
  }

  /** `v * w` for a mask entry `w`, which is 0 or 1: the sample itself or
      nothing. */
  function Masked(v: real, w: real): real {
    if w == 0.0 then 0.0 else v
  }

  /** What the chunk starting at `start` adds to `result` at channel `ch`,
      position `p`: the model's output for that chunk times its mask. */
  function Contribution(model: Model, x: seq<seq<real>>, cfg: Config, start: nat, ch: nat, p: int): real
    requires IsSignal(x) && cfg.chunkSize >= 1
  {
    if InSlice(start, p, Length(x), cfg.chunkSize) then
      var out := model(Chunk(x, start, cfg.chunkSize));
      Masked(OutAt(out, ch, p - start), MaskAt(cfg.chunkSize, cfg.fadeSize, RoleOf(start, cfg.chunkSize, Length(x)), p - start))
    else 0.0
  }

  /** What the chunks starting at `i, i + step, ...` add to `result` at
      channel `ch`, position `p`. */
  function ResultFrom(model: Model, x: seq<seq<real>>, cfg: Config, i: nat, ch: nat, p: int): real
    requires IsSignal(x) && cfg.Valid()
    decreases Length(x) - i
  {
    if i >= Length(x) then 0.0
    else Contribution(model, x, cfg, i, ch, p) + ResultFrom(model, x, cfg, i + cfg.step, ch, p)
  }

  /** A floating-point quotient: a number, or NaN for the zero-weight cells. */
  datatype Sample = Finite(value: real) | NaN

  /** `result / counter` for one cell. With weights in {0, 1} a zero
      `counter` comes with a zero `result` (see ZeroWeightZeroSum), so the
      only non-number the division produces is 0/0, that is NaN. */
  function Divide(sum: real, weight: real): (q: Sample)
    ensures q.NaN? <==> weight == 0.0
    ensures weight != 0.0 ==> q == Finite(sum / weight)
  {
    if weight == 0.0 then NaN else Finite(sum / weight)
  }

  /** `np.nan_to_num(..., nan=0.0)`. */
  function NanToNum(q: Sample): (v: real)
    ensures q.NaN? ==> v == 0.0
    ensures q.Finite? ==> v == q.value
  {
    match q
    case Finite(v) => v
    case NaN => 0.0
  }

  /** The signal the chunker walks over: `x` with the reflect border when
      the pad test passes on its length, `x` itself otherwise. */
  function Prepared(x: seq<seq<real>>, cfg: Config): (data: seq<seq<real>>)
    requires cfg.Valid() && IsSignal(x)
    ensures IsSignal(data) && |data| == |x|
    ensures Length(data) == PaddedLength(Length(x), cfg.Border())
    ensures Length(data) - 2 * StripOffset(Length(data), cfg.Border()) == Length(x)
    ensures data == if ShouldPad(Length(x), cfg.Border()) then PadSignal(x, cfg.Border()) else x
  {
    var border := cfg.Border();
    if ShouldPad(Length(x), border) then PadSignal(x, border) else x
  }

  /** The input sits unchanged in the middle of the prepared signal, at the
      offset the final slice strips. */
  lemma PreparedAt(x: seq<seq<real>>, cfg: Config, ch: nat, t: nat)
    requires cfg.Valid() && IsSignal(x) && ch < |x| && t < Length(x)
    ensures Prepared(x, cfg)[ch][StripOffset(Length(Prepared(x, cfg)), cfg.Border()) + t] == x[ch][t]
  {
    var border := cfg.Border();
    if ShouldPad(Length(x), border) {
      assert PadSignal(x, border)[ch][border..border + Length(x)][t] == x[ch][t];
    }
  }

  /** One cell of `final_output`: the weighted sum over the weight, with a
      0/0 cell turned into 0. */
  function Cell(model: Model, data: seq<seq<real>>, cfg: Config, ch: nat, p: int): real
    requires cfg.Valid() && IsSignal(data)
  {
    NanToNum(Divide(ResultFrom(model, data, cfg, 0, ch, p), CounterFrom(cfg, Length(data), 0, p)))
  }

  /** `final_output` before the border is removed: every cell of the
      padded signal normalised. */
  function Normalised(model: Model, data: seq<seq<real>>, cfg: Config): (full: seq<seq<real>>)
    requires cfg.Valid() && IsSignal(data)
    ensures |full| == |data| && Rectangular(full, Length(data))
    ensures forall ch, p :: 0 <= ch < |data| && 0 <= p < Length(data) ==> full[ch][p] == Cell(model, data, cfg, ch, p)
  {
    seq(|data|, ch requires 0 <= ch < |data| =>
      seq(Length(data), p requires 0 <= p < Length(data) => Cell(model, data, cfg, ch, p)))
  }

  /** The whole pass as a value: the signal that `Enhance` returns for input
      `x`. The strip decision is taken again on the padded length, as the
      enhancer does; the output has the input's shape whatever the model. */
  function Reconstruct(model: Model, x: seq<seq<real>>, cfg: Config): (y: seq<seq<real>>)
    requires cfg.Valid() && IsSignal(x)
    ensures |y| == |x| && Rectangular(y, Length(x))
    ensures forall ch, t :: 0 <= ch < |x| && 0 <= t < Length(x) ==>
      y[ch][t] == Cell(model, Prepared(x, cfg), cfg, ch, StripOffset(Length(Prepared(x, cfg)), cfg.Border()) + t)
  {
    var data := Prepared(x, cfg);
    var off := StripOffset(Length(data), cfg.Border());
    seq(|x|, ch requires 0 <= ch < |x| =>
      seq(Length(x), t requires 0 <= t < Length(x) => Cell(model, data, cfg, ch, off + t)))
  }

  /** The reconstruction is the normalised padded signal with the border
      sliced off again, as `Finish` computes it. */
  lemma ReconstructIsUnpad(model: Model, x: seq<seq<real>>, cfg: Config)
    requires cfg.Valid() && IsSignal(x)
    ensures var data := Prepared(x, cfg);
      Reconstruct(model, x, cfg) == Unpad(Normalised(model, data, cfg), Length(data), cfg.Border())
  {
    var data := Prepared(x, cfg);
    var u := Unpad(Normalised(model, data, cfg), Length(data), cfg.Border());
    var off := StripOffset(Length(data), cfg.Border());
    if ShouldPad(Length(data), cfg.Border()) {
      assert forall ch, t :: 0 <= ch < |x| && 0 <= t < Length(x) ==> u[ch][t] == Normalised(model, data, cfg)[ch][off + t];
    }
    SameSamples(Reconstruct(model, x, cfg), u, Length(x));
  }

  /** Coverage: when the fade fits inside the border, every position `p` at
      or after a chunk start `i` gets weight 1 from the last chunk starting at
      or before it, so the chunks from `i` on give it a weight of at least 1. */
  lemma {:induction false} CoveredFrom(cfg: Config, len: nat, i: nat, p: int)
    requires cfg.Valid() && cfg.fadeSize <= cfg.Border() && i <= p < len
    ensures CounterFrom(cfg, len, i, p) >= 1.0
    decreases len - i
  {
    if p < i + cfg.step {
      assert Weight(cfg, len, i, p) == 1.0;
    } else {
      CoveredFrom(cfg, len, i + cfg.step, p);
    }
  }

  /** Coverage of the whole (padded) signal: `counter` is at least 1 at every
      position once all chunks are added. */
  lemma Coverage(cfg: Config, len: nat, p: int)
    requires cfg.Valid() && cfg.fadeSize <= cfg.Border() && 0 <= p < len
    ensures CounterFrom(cfg, len, 0, p) >= 1.0
  {
    CoveredFrom(cfg, len, 0, p);
  }

  /** Every weight is a mask entry, 0 or 1, and a chunk gives no weight
      outside its slice. */
  lemma WeightIsMaskEntry(cfg: Config, len: nat, start: nat, p: int)
    ensures Weight(cfg, len, start, p) == 0.0 || Weight(cfg, len, start, p) == 1.0
    ensures !InSlice(start, p, len, cfg.chunkSize) ==> Weight(cfg, len, start, p) == 0.0
  {
  }

  /** For a model that keeps the chunk's shape, what a chunk adds to
      `result` inside its slice is the model's output times the mask entry,
      and outside the slice nothing. */
  lemma ContributionIsWeightedOutput(model: Model, x: seq<seq<real>>, cfg: Config, start: nat, ch: nat, p: int)
    requires IsSignal(x) && cfg.chunkSize >= 1 && start < Length(x) && ch < |x|
    requires IsChunk(model(Chunk(x, start, cfg.chunkSize)), |x|, cfg.chunkSize)
    ensures Contribution(model, x, cfg, start, ch, p) ==
      if InSlice(start, p, Length(x), cfg.chunkSize)
      then model(Chunk(x, start, cfg.chunkSize))[ch][p - start] * Weight(cfg, Length(x), start, p)
      else 0.0
  {
    if InSlice(start, p, Length(x), cfg.chunkSize) {
      MaskedIsProduct(model(Chunk(x, start, cfg.chunkSize))[ch][p - start], Weight(cfg, Length(x), start, p));
    }
  }

  /** A cell that the chunks from `i` on do not weight receives nothing
      from them either. */
  lemma {:induction false} ZeroWeightZeroSum(model: Model, x: seq<seq<real>>, cfg: Config, i: nat, ch: nat, p: int)
    requires IsSignal(x) && cfg.Valid()
    requires CounterFrom(cfg, Length(x), i, p) == 0.0
    ensures ResultFrom(model, x, cfg, i, ch, p) == 0.0
    decreases Length(x) - i
  {
    if i < Length(x) {
      assert Weight(cfg, Length(x), i, p) == 0.0;
      ZeroWeightZeroSum(model, x, cfg, i + cfg.step, ch, p);
    }
  }

  /** A cell is the weighted sum over the total weight where that weight is
      nonzero, and 0 where no chunk weighted it: there the quotient was 0/0. */
  lemma CellIsQuotient(model: Model, data: seq<seq<real>>, cfg: Config, ch: nat, p: int)
    requires cfg.Valid() && IsSignal(data)
    ensures CounterFrom(cfg, Length(data), 0, p) == 0.0 ==>
      ResultFrom(model, data, cfg, 0, ch, p) == 0.0 && Cell(model, data, cfg, ch, p) == 0.0
    ensures CounterFrom(cfg, Length(data), 0, p) != 0.0 ==>
      Cell(model, data, cfg, ch, p) == ResultFrom(model, data, cfg, 0, ch, p) / CounterFrom(cfg, Length(data), 0, p)
  {
    if CounterFrom(cfg, Length(data), 0, p) == 0.0 {
      ZeroWeightZeroSum(model, data, cfg, 0, ch, p);
    }
  }

  lemma MaskedIsProduct(v: real, w: real)
    requires w == 0.0 || w == 1.0
    ensures Masked(v, w) == v * w
  {
  }

  lemma IdentityPreservesShape(channels: nat, chunkSize: nat)
    ensures ShapePreserving(Identity, channels, chunkSize)
  {
  }

  /** With the identity model a chunk adds its own samples where its
      weight is 1. */
  lemma IdentityContribution(x: seq<seq<real>>, cfg: Config, start: nat, ch: nat, p: nat)
    requires IsSignal(x) && ch < |x| && p < Length(x) && cfg.chunkSize >= 1
    ensures Contribution(Identity, x, cfg, start, ch, p) == Masked(x[ch][p], Weight(cfg, Length(x), start, p))
  {
    if InSlice(start, p, Length(x), cfg.chunkSize) {
      var c := Chunk(x, start, cfg.chunkSize);
      assert c[ch][p - start] == x[ch][start + (p - start)];
    }
  }

  lemma Distribute(a: real, b: real, v: real)
    ensures a * v + b * v == (a + b) * v
  {
  }

  /** The sum of `v` over the chunks from `i` on that weight `p` with 1. */
  function RepeatedFrom(cfg: Config, len: nat, i: nat, p: int, v: real): real
    requires cfg.step >= 1
    decreases len - i
  {
    if i >= len then 0.0
    else Masked(v, Weight(cfg, len, i, p)) + RepeatedFrom(cfg, len, i + cfg.step, p, v)
  }

  /** Adding `v` once per unit of weight gives the weight times `v`. */
  lemma {:induction false} RepeatedIsProduct(cfg: Config, len: nat, i: nat, p: int, v: real)
    requires cfg.step >= 1
    ensures RepeatedFrom(cfg, len, i, p, v) == CounterFrom(cfg, len, i, p) * v
    decreases len - i
  {
    if i < len {
      var w, rest := Weight(cfg, len, i, p), CounterFrom(cfg, len, i + cfg.step, p);
      RepeatedIsProduct(cfg, len, i + cfg.step, p, v);
      MaskedIsProduct(v, w);
      Distribute(w, rest, v);
    }
  }

  /** With the identity model each chunk hands back its own samples, so the
      chunks from `i` on add up the signal once per unit of weight. */
  lemma {:induction false} IdentitySum(x: seq<seq<real>>, cfg: Config, i: nat, ch: nat, p: nat)
    requires IsSignal(x) && cfg.Valid() && ch < |x| && p < Length(x)
    ensures ResultFrom(Identity, x, cfg, i, ch, p) == RepeatedFrom(cfg, Length(x), i, p, x[ch][p])
    decreases Length(x) - i
  {
    if i < Length(x) {
      IdentitySum(x, cfg, i + cfg.step, ch, p);
      IdentityContribution(x, cfg, i, ch, p);
    }
  }

  /** Dividing `c * v` by a nonzero weight `c` gives `v` back. */
  lemma DivideBack(sum: real, c: real, v: real)
    requires c != 0.0 && sum == c * v
    ensures NanToNum(Divide(sum, c)) == v
  {
  }

  /** The sum of `v` over the chunks, divided by their total weight, is `v`
      again once that weight is nonzero. */
  lemma RepeatedOverCounter(cfg: Config, len: nat, p: int, v: real)
    requires cfg.step >= 1 && CounterFrom(cfg, len, 0, p) >= 1.0
    ensures NanToNum(Divide(RepeatedFrom(cfg, len, 0, p, v), CounterFrom(cfg, len, 0, p))) == v
  {
    RepeatedIsProduct(cfg, len, 0, p, v);
    DivideBack(RepeatedFrom(cfg, len, 0, p, v), CounterFrom(cfg, len, 0, p), v);
  }

  /** With the identity model a covered cell comes out as the sample that
      went in. */
  lemma IdentityCell(data: seq<seq<real>>, cfg: Config, ch: nat, p: nat)
    requires cfg.Valid() && IsSignal(data) && cfg.fadeSize <= cfg.Border()
    requires ch < |data| && p < Length(data)
    ensures Cell(Identity, data, cfg, ch, p) == data[ch][p]
  {
    IdentitySum(data, cfg, 0, ch, p);
    Coverage(cfg, Length(data), p);
    RepeatedOverCounter(cfg, Length(data), p, data[ch][p]);
  }

  /** Round trip: with the identity model and full coverage the pass gives
      back its input exactly, sample for sample, padding and all. */
  lemma {:induction false} IdentityRoundTrip(x: seq<seq<real>>, cfg: Config)
    requires cfg.Valid() && IsSignal(x) && cfg.fadeSize <= cfg.Border()
    ensures Reconstruct(Identity, x, cfg) == x
  {
    var y := Reconstruct(Identity, x, cfg);
    forall ch | 0 <= ch < |x| ensures y[ch] == x[ch] {
      IdentityRow(x, cfg, ch);
    }
  }

  /** A signal of the input's shape whose every sample is the matching
      normalised cell is the reconstruction. */
  lemma ReconstructFromCells(model: Model, x: seq<seq<real>>, cfg: Config, y: seq<seq<real>>)
    requires cfg.Valid() && IsSignal(x) && |y| == |x| && Rectangular(y, Length(x))
    requires forall ch, t :: 0 <= ch < |x| && 0 <= t < Length(x) ==>
      y[ch][t] == Cell(model, Prepared(x, cfg), cfg, ch, StripOffset(Length(Prepared(x, cfg)), cfg.Border()) + t)
    ensures y == Reconstruct(model, x, cfg)
  {
    SameSamples(y, Reconstruct(model, x, cfg), Length(x));
  }

  /** One channel of the round trip. */
  lemma IdentityRow(x: seq<seq<real>>, cfg: Config, ch: nat)
    requires cfg.Valid() && IsSignal(x) && cfg.fadeSize <= cfg.Border() && ch < |x|
    ensures Reconstruct(Identity, x, cfg)[ch] == x[ch]
  {
    var row := Reconstruct(Identity, x, cfg)[ch];
    forall t | 0 <= t < Length(x) ensures row[t] == x[ch][t] {
      IdentitySample(x, cfg, ch, t);
    }
  }

  /** One sample of the round trip. */
  lemma IdentitySample(x: seq<seq<real>>, cfg: Config, ch: nat, t: nat)
    requires cfg.Valid() && IsSignal(x) && cfg.fadeSize <= cfg.Border() && ch < |x| && t < Length(x)
    ensures Reconstruct(Identity, x, cfg)[ch][t] == x[ch][t]
  {
    var data := Prepared(x, cfg);
    IdentityCell(data, cfg, ch, StripOffset(Length(data), cfg.Border()) + t);
    PreparedAt(x, cfg, ch, t);
  }

  /** One channel of the accumulation step: only the cells
      `[start, start + length)` of channel `ch` change. */
  method AccumulateRow(result: array2<real>, counter: array2<real>, ch: nat, out: seq<real>,
                       window: seq<real>, start: nat, length: nat)
    requires ch < result.Length0 == counter.Length0
    requires result.Length1 == counter.Length1 && start + length <= result.Length1
    requires length <= |window| && length <= |out|
    requires result != counter
    modifies result, counter
    ensures forall c, p :: 0 <= c < result.Length0 && 0 <= p < result.Length1 && (c != ch || !(start <= p < start + length)) ==>
      result[c, p] == old(result[c, p]) && counter[c, p] == old(counter[c, p])
    ensures forall p :: start <= p < start + length ==>
      result[ch, p] == old(result[ch, p]) + out[p - start] * window[p - start] &&
      counter[ch, p] == old(counter[ch, p]) + window[p - start]
  {
    var k := 0;
    while k < length
      invariant 0 <= k <= length
      invariant forall c, p :: 0 <= c < result.Length0 && 0 <= p < result.Length1 && (c != ch || !(start <= p < start + k)) ==>
        result[c, p] == old(result[c, p]) && counter[c, p] == old(counter[c, p])
      invariant forall p :: start <= p < start + k ==>
        result[ch, p] == old(result[ch, p]) + out[p - start] * window[p - start] &&
        counter[ch, p] == old(counter[ch, p]) + window[p - start]
    {
      result[ch, start + k] := result[ch, start + k] + out[k] * window[k];
      counter[ch, start + k] := counter[ch, start + k] + window[k];
      k := k + 1;
    }
  }

  /** `result[..., i:i+length] += out[..., :length] * window[..., :length]`
      and `counter[..., i:i+length] += window[..., :length]`: only the cells
      `[start, start + length)` of each channel change. */
  method Accumulate(result: array2<real>, counter: array2<real>, out: seq<seq<real>>,
                    window: seq<real>, start: nat, length: nat)
    requires result.Length0 == counter.Length0 == |out|
    requires result.Length1 == counter.Length1 && start + length <= result.Length1
    requires length <= |window| && forall ch :: 0 <= ch < |out| ==> length <= |out[ch]|
    requires result != counter
    modifies result, counter
    ensures forall ch, p :: 0 <= ch < result.Length0 && 0 <= p < result.Length1 ==>
      result[ch, p] == old(result[ch, p]) +
        (if start <= p < start + length then out[ch][p - start] * window[p - start] else 0.0)
    ensures forall ch, p :: 0 <= ch < counter.Length0 && 0 <= p < counter.Length1 ==>
      counter[ch, p] == old(counter[ch, p]) + (if start <= p < start + length then window[p - start] else 0.0)
  {
    var ch := 0;
    while ch < |out|
      invariant 0 <= ch <= |out|
      invariant forall c, p :: 0 <= c < result.Length0 && 0 <= p < result.Length1 ==>
        result[c, p] == old(result[c, p]) +
          (if c < ch && start <= p < start + length then out[c][p - start] * window[p - start] else 0.0)
      invariant forall c, p :: 0 <= c < counter.Length0 && 0 <= p < counter.Length1 ==>
        counter[c, p] == old(counter[c, p]) +
          (if c < ch && start <= p < start + length then window[p - start] else 0.0)
    {
      AccumulateRow(result, counter, ch, out[ch], window, start, length);
      ch := ch + 1;
    }
  }

  /** `final_output = result / counter`, NaN replaced by 0, then `Unpad`. */
  method Finish(result: array2<real>, counter: array2<real>, border: int) returns (y: seq<seq<real>>)
    requires result.Length0 == counter.Length0 && result.Length1 == counter.Length1
    ensures var off := StripOffset(result.Length1, border);
            |y| == result.Length0 && Rectangular(y, result.Length1 - 2 * off) &&
            forall ch, t :: 0 <= ch < |y| && 0 <= t < result.Length1 - 2 * off ==>
              y[ch][t] == NanToNum(Divide(result[ch, off + t], counter[ch, off + t]))
  {
    var channels, len := result.Length0, result.Length1;
    var full: seq<seq<real>> := [];
    var ch := 0;
    while ch < channels
      invariant 0 <= ch <= channels && |full| == ch
      invariant forall c :: 0 <= c < ch ==> |full[c]| == len
      invariant forall c, p :: 0 <= c < ch && 0 <= p < len ==>
        full[c][p] == NanToNum(Divide(result[c, p], counter[c, p]))
    {
      var row := [];
      var p := 0;
      while p < len
        invariant 0 <= p <= len && |row| == p
        invariant forall q :: 0 <= q < p ==> row[q] == NanToNum(Divide(result[ch, q], counter[ch, q]))
      {
        row := row + [NanToNum(Divide(result[ch, p], counter[ch, p]))];
        p := p + 1;
      }
      full := full + [row];
      ch := ch + 1;
    }
    y := Unpad(full, len, border);
  }

  /** Advancing the loop by one chunk: the next start is one more multiple
      of `step`, and it is the next entry of `ChunkStarts`. */
  lemma NextStart(len: nat, step: nat, n: nat)
    requires step >= 1 && n * step < len
    ensures (n + 1) * step == n * step + step
    ensures n < ChunkCount(len, step)
    ensures ChunkStarts(len, step)[..n] + [n * step] == ChunkStarts(len, step)[..n + 1]
  {
    ChunkExists(len, step, n);
  }

  /** What one pass of the loop adds at channel `ch`, position `p`: the
      masked model output and the mask entry inside the chunk's slice, and
      nothing outside it, are exactly the next terms of `ResultFrom` and
      `CounterFrom`. */
  lemma StepCell(model: Model, data: seq<seq<real>>, cfg: Config, i: nat, ch: nat, p: nat,
                 out: seq<seq<real>>, window: seq<real>, length: nat)
    requires cfg.Valid() && IsSignal(data) && i < Length(data) && ch < |data| && p < Length(data)
    requires out == model(Chunk(data, i, cfg.chunkSize)) && IsChunk(out, |data|, cfg.chunkSize)
    requires |window| == cfg.chunkSize
    requires forall k :: 0 <= k < |window| ==>
      window[k] == MaskAt(cfg.chunkSize, cfg.fadeSize, RoleOf(i, cfg.chunkSize, Length(data)), k)
    requires length == SliceLength(Length(data), cfg.chunkSize, i)
    ensures ResultFrom(model, data, cfg, i, ch, p) ==
      (if i <= p < i + length then out[ch][p - i] * window[p - i] else 0.0) +
      ResultFrom(model, data, cfg, i + cfg.step, ch, p)
    ensures CounterFrom(cfg, Length(data), i, p) ==
      (if i <= p < i + length then window[p - i] else 0.0) + CounterFrom(cfg, Length(data), i + cfg.step, p)
  {
    if i <= p < i + length {
      MaskedIsProduct(out[ch][p - i], window[p - i]);
    }
  }

  /** The loop invariant: the buffers hold what the chunks before `i` add,
      that is, the full sums less the sums from `i` on. */
  ghost predicate Accumulated(model: Model, data: seq<seq<real>>, cfg: Config,
                              result: array2<real>, counter: array2<real>, i: nat)
    requires cfg.Valid() && IsSignal(data)
    reads result, counter
  {
    result.Length0 == counter.Length0 == |data| &&
    result.Length1 == counter.Length1 == Length(data) &&
    forall ch, p :: 0 <= ch < |data| && 0 <= p < Length(data) ==>
      result[ch, p] + ResultFrom(model, data, cfg, i, ch, p) == ResultFrom(model, data, cfg, 0, ch, p) &&
      counter[ch, p] + CounterFrom(cfg, Length(data), i, p) == CounterFrom(cfg, Length(data), 0, p)
  }

  /** Once the start has passed the end, the buffers hold the full sums. */
  lemma AccumulatedAll(model: Model, data: seq<seq<real>>, cfg: Config,
                       result: array2<real>, counter: array2<real>, i: nat)
    requires cfg.Valid() && IsSignal(data) && i >= Length(data)
    requires Accumulated(model, data, cfg, result, counter, i)
    ensures forall ch, p :: 0 <= ch < |data| && 0 <= p < Length(data) ==>
      result[ch, p] == ResultFrom(model, data, cfg, 0, ch, p) &&
      counter[ch, p] == CounterFrom(cfg, Length(data), 0, p)
  {
    forall ch, p | 0 <= ch < |data| && 0 <= p < Length(data)
      ensures result[ch, p] == ResultFrom(model, data, cfg, 0, ch, p)
      ensures counter[ch, p] == CounterFrom(cfg, Length(data), 0, p)
    {
      assert ResultFrom(model, data, cfg, i, ch, p) == 0.0 && CounterFrom(cfg, Length(data), i, p) == 0.0;
    }
  }

  /** One pass of the scheduler loop for the chunk starting at `i`: cut
      the chunk, run the model, copy and adjust the mask, and add the masked
      output and the mask into the buffers. What it adds at each cell is the
      term of `ResultFrom` and `CounterFrom` for this start. */
  method ProcessChunk(model: Model, data: seq<seq<real>>, cfg: Config, base: array<real>,
                      result: array2<real>, counter: array2<real>, i: nat)
    returns (next: nat)
    requires cfg.Valid() && IsSignal(data) && i < Length(data)
    requires ShapePreserving(model, |data|, cfg.chunkSize)
    requires base.Length == cfg.chunkSize
    requires forall k :: 0 <= k < base.Length ==> base[k] == BaseAt(cfg.chunkSize, cfg.fadeSize, k)
    requires result != counter
    requires result.Length0 == counter.Length0 == |data|
    requires result.Length1 == counter.Length1 == Length(data)
    requires Accumulated(model, data, cfg, result, counter, i)
    modifies result, counter
    ensures next == i + cfg.step
    ensures Accumulated(model, data, cfg, result, counter, next)
    ensures forall ch, p :: 0 <= ch < |data| && 0 <= p < Length(data) ==>
      result[ch, p] + ResultFrom(model, data, cfg, i + cfg.step, ch, p) ==
        old(result[ch, p]) + ResultFrom(model, data, cfg, i, ch, p) &&
      counter[ch, p] + CounterFrom(cfg, Length(data), i + cfg.step, p) ==
        old(counter[ch, p]) + CounterFrom(cfg, Length(data), i, p)
  {
    var chunk := Chunk(data, i, cfg.chunkSize);
    var out := model(chunk);
    var window := ChunkWindow(base, cfg.fadeSize, i, Length(data));
    var length := SliceLength(Length(data), cfg.chunkSize, i);
    var w := window[..];
    Accumulate(result, counter, out, w, i, length);
    forall ch, p | 0 <= ch < |data| && 0 <= p < Length(data)
      ensures result[ch, p] + ResultFrom(model, data, cfg, i + cfg.step, ch, p) ==
        old(result[ch, p]) + ResultFrom(model, data, cfg, i, ch, p)
      ensures counter[ch, p] + CounterFrom(cfg, Length(data), i + cfg.step, p) ==
        old(counter[ch, p]) + CounterFrom(cfg, Length(data), i, p)
      ensures result[ch, p] + ResultFrom(model, data, cfg, i + cfg.step, ch, p) == ResultFrom(model, data, cfg, 0, ch, p)
      ensures counter[ch, p] + CounterFrom(cfg, Length(data), i + cfg.step, p) == CounterFrom(cfg, Length(data), 0, p)
    {
      StepCell(model, data, cfg, i, ch, p, out, w, length);
      assert result[ch, p] == old(result[ch, p]) + (if i <= p < i + length then out[ch][p - i] * w[p - i] else 0.0);
    }
    next := i + cfg.step;
  }

  /** The scheduler loop of `enchance` over the prepared signal `data`:
      allocate the two buffers, then for every start cut a chunk, run the
      model on it, copy and adjust the mask, and add both into the buffers.
      The buffers end up holding the sums that `ResultFrom` and
      `CounterFrom` define, and the model is called once per start in
      `ChunkStarts`, in order. */
  method OverlapAddLoop(model: Model, data: seq<seq<real>>, cfg: Config)
    returns (result: array2<real>, counter: array2<real>, ghost calls: seq<nat>)
    requires cfg.Valid() && IsSignal(data)
    requires ShapePreserving(model, |data|, cfg.chunkSize)
    ensures fresh(result) && fresh(counter)
    ensures result.Length0 == counter.Length0 == |data|
    ensures result.Length1 == counter.Length1 == Length(data)
    ensures forall ch, p :: 0 <= ch < |data| && 0 <= p < Length(data) ==>
      result[ch, p] == ResultFrom(model, data, cfg, 0, ch, p) &&
      counter[ch, p] == CounterFrom(cfg, Length(data), 0, p)
    ensures calls == ChunkStarts(Length(data), cfg.step)
  {
    var chunkSize, step, fadeSize := cfg.chunkSize, cfg.step, cfg.fadeSize;
    var len := Length(data);
    var base := WindowingArray(chunkSize, fadeSize);
    result := new real[|data|, len]((_, _) => 0.0);
    counter := new real[|data|, len]((_, _) => 0.0);

    var i: nat := 0;
    ghost var n: nat := 0;
    calls := [];
    while i < len
      invariant i == n * step && n <= ChunkCount(len, step)
      invariant calls == ChunkStarts(len, step)[..n]
      invariant fresh(result) && fresh(counter) && result != counter
      invariant result.Length0 == counter.Length0 == |data|
      invariant result.Length1 == counter.Length1 == len
      invariant forall k :: 0 <= k < base.Length ==> base[k] == BaseAt(chunkSize, fadeSize, k)
      invariant Accumulated(model, data, cfg, result, counter, i)
    {
      NextStart(len, step, n);
      var next := ProcessChunk(model, data, cfg, base, result, counter, i);
      calls := calls + [i];
      i, n := next, n + 1;
    }
    LastStart(len, step, n);
    AccumulatedAll(model, data, cfg, result, counter, i);
  }

  /** The loop stops after exactly `ChunkCount` passes, having visited every
      start. */
  lemma LastStart(len: nat, step: nat, n: nat)
    requires step >= 1 && n * step >= len && n <= ChunkCount(len, step)
    ensures ChunkStarts(len, step)[..n] == ChunkStarts(len, step)
  {
    ChunkExists(len, step, n);
  }

  /** `enchance` with the model as a parameter: the output is `Reconstruct`,
      and the model is called once per start in `ChunkStarts`, in order. */
  method Enhance(model: Model, audio: Audio, cfg: Config) returns (y: seq<seq<real>>, ghost calls: seq<nat>)
    requires cfg.Valid() && WellFormed(audio)
    requires ShapePreserving(model, |Channels(audio)|, cfg.chunkSize)
    ensures y == Reconstruct(model, Channels(audio), cfg)
    ensures calls == ChunkStarts(PaddedLength(Length(Channels(audio)), cfg.Border()), cfg.step)
  {
    var x := Channels(audio);
    var data := Prepared(x, cfg);
    var result, counter;
    result, counter, calls := OverlapAddLoop(model, data, cfg);
    y := Finish(result, counter, cfg.Border());
    ghost var off := StripOffset(Length(data), cfg.Border());
    forall ch, t | 0 <= ch < |x| && 0 <= t < Length(x) ensures y[ch][t] == Cell(model, data, cfg, ch, off + t) {
    }
    ReconstructFromCells(model, x, cfg, y);
  }
}
