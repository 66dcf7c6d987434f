/** The per-chunk weighting mask. Despite its name it holds no fade: the base
    mask is all ones except its last `fadeSize` entries, which are zero, so the
    unreliable tail of a chunk is dropped from the overlap-add. Each chunk
    works on its own copy, which is then adjusted for the chunk's position. */
module Window {

  /** Where a chunk sits in the schedule. */
  datatype Role = First | Interior | Last

  /** The enhancer's `if i == 0 ... elif i + C >= len`: a chunk starting at 0
      is the first even when it also reaches the end. */
  function RoleOf(start: nat, chunkSize: nat, paddedLength: nat): (r: Role)
    ensures r == First <==> start == 0
    ensures r == Last <==> start != 0 && start + chunkSize >= paddedLength
    ensures r == Interior <==> start != 0 && start + chunkSize < paddedLength
  {
    if start == 0 then First
    else if start + chunkSize >= paddedLength then Last
    else Interior
  }

  /** Entry `k` of the base mask of `size` entries. */
  function BaseAt(size: nat, fadeSize: nat, k: nat): (w: real)
    ensures w == 0.0 || w == 1.0
    ensures w == 0.0 <==> k >= size - fadeSize
  {
    if k >= size - fadeSize then 0.0 else 1.0
  }

  /** Entry `k` of the copy of the base mask that a chunk with role `role`
      uses: the first chunk sets its leading `fadeSize` entries to 1, the last
      chunk its trailing `fadeSize` entries; everything else is the base. */
  function MaskAt(size: nat, fadeSize: nat, role: Role, k: nat): (w: real)
    ensures w == 0.0 || w == 1.0
    ensures role == Last ==> w == 1.0
    ensures role == First && k < fadeSize ==> w == 1.0
    ensures role == Interior ==> (w == 0.0 <==> k >= size - fadeSize)
    ensures role == First ==> (w == 0.0 <==> fadeSize <= k && k >= size - fadeSize)
  {
    if role == First && k < fadeSize then 1.0
    else if role == Last && k >= size - fadeSize then 1.0
    else BaseAt(size, fadeSize, k)
  }

  /** `_getWindowingArray`: ones, the last `fadeSize` entries multiplied by
      an all-zero ramp, then the first `fadeSize` entries multiplied by an
      all-one ramp (which leaves them as they are). A fade of zero or one
      longer than the window makes the tensor library refuse the in-place
      products, hence the precondition. */
  method WindowingArray(windowSize: nat, fadeSize: nat) returns (window: array<real>)
    requires 1 <= fadeSize <= windowSize
    ensures fresh(window) && window.Length == windowSize
    ensures forall k :: 0 <= k < windowSize ==>
      window[k] == (if k >= windowSize - fadeSize then 0.0 else 1.0)
  {
    var fadeIn := seq(fadeSize, _ => 1.0);
    var fadeOut := seq(fadeSize, _ => 0.0);
    window := new real[windowSize](_ => 1.0);
    var tail := windowSize - fadeSize;
    var k := 0;
    while k < fadeSize
      invariant 0 <= k <= fadeSize
      invariant forall j :: 0 <= j < windowSize ==>
        window[j] == (if tail <= j < tail + k then 0.0 else 1.0)
    {
      window[tail + k] := window[tail + k] * fadeOut[k];
      k := k + 1;
    }
    k := 0;
    while k < fadeSize
      invariant 0 <= k <= fadeSize
      invariant forall j :: 0 <= j < windowSize ==>
        window[j] == (if j >= tail then 0.0 else 1.0)
    {
      window[k] := window[k] * fadeIn[k];
      k := k + 1;
    }
  }

  /** The `window = windowingArray.clone()` step and its positional override
      for the chunk starting at `start`. The base mask is only read: its
      copy is what gets changed. */
  method ChunkWindow(base: array<real>, fadeSize: nat, start: nat, paddedLength: nat)
    returns (window: array<real>)
    requires 1 <= fadeSize <= base.Length
    requires forall k :: 0 <= k < base.Length ==> base[k] == BaseAt(base.Length, fadeSize, k)
    ensures fresh(window) && window.Length == base.Length
    ensures forall k :: 0 <= k < window.Length ==>
      window[k] == MaskAt(base.Length, fadeSize, RoleOf(start, base.Length, paddedLength), k)
  {
    var size := base.Length;
    window := new real[size](k requires 0 <= k < size reads base => base[k]);
    if start == 0 {
      // leading `fadeSize` entries set to 1
      var k := 0;
      while k < fadeSize
        invariant 0 <= k <= fadeSize
        invariant forall j :: 0 <= j < size ==>
          window[j] == (if j < k then 1.0 else BaseAt(size, fadeSize, j))
      {
        window[k] := 1.0;
        k := k + 1;
      }
    } else if start + size >= paddedLength {
      // trailing `fadeSize` entries set to 1
      var k := 0;
      while k < fadeSize
        invariant 0 <= k <= fadeSize
        invariant forall j :: 0 <= j < size ==>
          window[j] == (if size - fadeSize <= j < size - fadeSize + k then 1.0 else BaseAt(size, fadeSize, j))
      {
        window[size - fadeSize + k] := 1.0;
        k := k + 1;
      }
    }
  }
}
