/** The border the enhancer adds around the whole signal before chunking and
    removes again after normalisation. Padding mirrors the signal about its
    first and last samples without repeating them ('reflect' padding). */
module Padding {
  import opened Signal

  /** Whether a signal of `len` samples gets (and later loses) a border of
      `border` samples on each side. The enhancer evaluates this once on the
      input length and once more, for stripping, on the padded length. */
  predicate ShouldPad(len: int, border: int)
    ensures ShouldPad(len, border) ==> 0 < border < len && 2 * border < len
  {
    len > 2 * border && border > 0
  }

  /** Sample `q` of `row` extended by reflection at both ends. Defined for
      every `q` that lies less than `|row|` samples outside the row, which is
      the reach a reflect pad narrower than the row needs. */
  function ReflectAt(row: seq<real>, q: int): real
    requires -|row| < q < 2 * |row| - 1
  {
    if q < 0 then row[-q]
    else if q < |row| then row[q]
    else row[2 * |row| - 2 - q]
  }

  /** Reflect padding of one row by `left` and `right` samples. Like the
      tensor library, it is only defined when each pad is narrower than the
      row; that requirement is what makes the reflection well defined. */
  function ReflectPad(row: seq<real>, left: nat, right: nat): (r: seq<real>)
    requires left < |row| && right < |row|
    ensures |r| == left + |row| + right
    ensures r[left..left + |row|] == row
    ensures forall k :: 0 <= k < left ==> r[k] == row[left - k]
    ensures forall k :: left + |row| <= k < |r| ==> r[k] == row[2 * |row| - 2 - (k - left)]
  {
    var r := seq(left + |row| + right, k requires 0 <= k < left + |row| + right => ReflectAt(row, k - left));
    assert forall k :: 0 <= k < |r| ==> r[k] == ReflectAt(row, k - left);
    assert forall k :: 0 <= k < |row| ==> r[left..left + |row|][k] == row[k];
    r
  }

  /** Reflect padding of every channel by `border` on both sides. */
  function PadSignal(x: seq<seq<real>>, border: nat): (r: seq<seq<real>>)
    requires IsSignal(x) && border < Length(x)
    ensures IsSignal(r) && |r| == |x| && Length(r) == Length(x) + 2 * border
    ensures forall ch :: 0 <= ch < |x| ==> r[ch][border..border + Length(x)] == x[ch]
  {
    seq(|x|, ch requires 0 <= ch < |x| => ReflectPad(x[ch], border, border))
  }

  /** Every channel of the padded signal is that channel reflect-padded by
      `border` on both sides. */
  lemma PadSignalRows(x: seq<seq<real>>, border: nat)
    requires IsSignal(x) && border < Length(x)
    ensures forall ch :: 0 <= ch < |x| ==> PadSignal(x, border)[ch] == ReflectPad(x[ch], border, border)
  {
  }

  /** Slicing `[border:-border]` on every channel. */
  function Strip(y: seq<seq<real>>, border: nat): (r: seq<seq<real>>)
    requires forall ch :: 0 <= ch < |y| ==> 2 * border <= |y[ch]|
    ensures |r| == |y|
    ensures forall ch :: 0 <= ch < |y| ==> |r[ch]| == |y[ch]| - 2 * border
    ensures forall ch, t :: 0 <= ch < |y| && 0 <= t < |y[ch]| - 2 * border ==> r[ch][t] == y[ch][border + t]
  {
    seq(|y|, ch requires 0 <= ch < |y| => y[ch][border..|y[ch]| - border])
  }

  /** Stripping the border that was added gives back the signal exactly. */
  lemma {:induction false} StripPad(x: seq<seq<real>>, border: nat)
    requires IsSignal(x) && border < Length(x)
    ensures Strip(PadSignal(x, border), border) == x
  {
    var r := Strip(PadSignal(x, border), border);
    forall ch | 0 <= ch < |x| ensures r[ch] == x[ch] {
      assert |r[ch]| == |x[ch]|;
    }
  }

  /** The length the chunker sees. It takes the same pad decision as the
      input length, so the second test (on the padded length) strips exactly
      when the first padded, and what is left has the input's length. */
  function PaddedLength(len: nat, border: int): (n: nat)
    ensures ShouldPad(n, border) == ShouldPad(len, border)
    ensures n - (if ShouldPad(n, border) then 2 * border else 0) == len
    ensures ShouldPad(len, border) ==> border < len
  {
    if ShouldPad(len, border) then len + 2 * border else len
  }
  /** How many samples the final slice drops at each end of a signal of
      `len` samples: the border when the pad test passes on `len`. */
  function StripOffset(len: nat, border: int): (off: nat)
    ensures ShouldPad(len, border) ==> off == border
    ensures !ShouldPad(len, border) ==> off == 0
  {
    if ShouldPad(len, border) then border else 0
  }

  /** The enhancer's second pad test and its slice: `Strip` when the pad
      test passes on the length `len` of the normalised signal, nothing
      otherwise. */
  function Unpad(y: seq<seq<real>>, len: nat, border: int): (r: seq<seq<real>>)
    requires Rectangular(y, len)
    ensures |r| == |y| && Rectangular(r, len - 2 * StripOffset(len, border))
    ensures ShouldPad(len, border) ==> r == Strip(y, border)
    ensures !ShouldPad(len, border) ==> r == y
  {
    if ShouldPad(len, border) then Strip(y, border) else y
  }
}
