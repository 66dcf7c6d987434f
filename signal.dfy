/** Decoded audio as the enhancer receives it: real-valued samples, either one
    bare row (a mono file) or one row per channel. */
module Signal {

  /** What the loader hands over: a 1-D array for mono audio, a 2-D
      `[channels, length]` array otherwise. */
  datatype Audio = Mono(samples: seq<real>) | Multi(rows: seq<seq<real>>)

  /** Every row of `x` holds exactly `len` samples. */
  predicate Rectangular(x: seq<seq<real>>, len: nat) {
    forall ch :: 0 <= ch < |x| ==> |x[ch]| == len
  }

  /** At least one channel, all channels of one length. */
  predicate IsSignal(x: seq<seq<real>>) {
    |x| >= 1 && Rectangular(x, |x[0]|)
  }

  /** Number of samples per channel. */
  function Length(x: seq<seq<real>>): nat
    requires IsSignal(x)
  {
    |x[0]|
  }

  predicate WellFormed(a: Audio) {
    a.Mono? || IsSignal(a.rows)
  }

  /** A mono input gains a leading channel axis; a multi-channel input is
      used as it is. Either way the samples and their order are kept. */
  function Channels(a: Audio): (x: seq<seq<real>>)
    requires WellFormed(a)
    ensures IsSignal(x)
    ensures a.Mono? ==> |x| == 1 && x[0] == a.samples
    ensures a.Multi? ==> x == a.rows
  {
    match a
    case Mono(s) => [s]
    case Multi(rows) => rows
  }

  /** Two signals of the same shape with the same samples are equal. */
  lemma SameSamples(a: seq<seq<real>>, b: seq<seq<real>>, len: nat)
    requires |a| == |b| && Rectangular(a, len) && Rectangular(b, len)
    requires forall ch, t :: 0 <= ch < |a| && 0 <= t < len ==> a[ch][t] == b[ch][t]
    ensures a == b
  {
    forall ch | 0 <= ch < |a| ensures a[ch] == b[ch] {
      assert |a[ch]| == |b[ch]| == len;
    }
  }
}
