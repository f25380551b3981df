/** Python slicing and the fixed-size batching that both the ingestion endpoint
    (`range(0, total, BATCH_SIZE)`) and the bulk client (`range(ceil(N / BATCH_SIZE))`)
    perform on their input lists. */
module Chunking {
  import opened Common

  /** Python's `s[lo:hi]` for non-negative bounds: both ends are clamped to the
      length, and the slice is empty when the clamped `hi` is not past `lo`. */
  function Slice<T>(s: seq<T>, lo: nat, hi: nat): (r: seq<T>)
    ensures |r| == if lo < Min(hi, |s|) then Min(hi, |s|) - lo else 0
    ensures forall j :: 0 <= j < |r| ==> r[j] == s[lo + j]
  {
    if lo < Min(hi, |s|) then s[lo..Min(hi, |s|)] else []
  }

  /** The whole tail from `lo` on. */
  lemma SliceToEnd<T>(s: seq<T>, lo: nat)
    requires lo <= |s|
    ensures Slice(s, lo, |s|) == s[lo..]
  {
  }

  /** Two adjacent slices make up the slice that spans both. */
  lemma SliceConcat<T>(s: seq<T>, a: nat, b: nat, c: nat)
    requires a <= b
    ensures Slice(s, a, b) + Slice(s, b, c) == Slice(s, a, Max(b, c))
  {
    var lhs := Slice(s, a, b) + Slice(s, b, c);
    var rhs := Slice(s, a, Max(b, c));
    assert |lhs| == |rhs|;
    forall j | 0 <= j < |lhs|
      ensures lhs[j] == rhs[j]
    {
      if j < |Slice(s, a, b)| {
        assert lhs[j] == s[a + j];
      } else {
        assert lhs[j] == Slice(s, b, c)[j - |Slice(s, a, b)|];
      }
    }
  }

  /** Clamping: a slice whose end lies past the length is the slice to the length. */
  lemma SliceClamp<T>(s: seq<T>, lo: nat, hi: nat)
    requires |s| <= hi
    ensures Slice(s, lo, hi) == Slice(s, lo, |s|)
  {
  }

  /** `ceil(n / d)` on naturals. */
  function CeilDiv(n: nat, d: nat): (q: nat)
    requires d > 0
    ensures n <= q * d
    ensures q == 0 || (q - 1) * d < n
    decreases n
  {
    if n == 0 then 0
    else
      var q' := CeilDiv(n - Min(n, d), d);
      assert (q' + 1) * d == q' * d + d;
      1 + q'
  }

  /** The slices `s[j:j+size]` for `j` in `range(i, len(s), size)`. */
  function ChunksFrom<T>(s: seq<T>, size: nat, i: nat): seq<seq<T>>
    requires size > 0
    decreases |s| - i
  {
    if i >= |s| then [] else [Slice(s, i, i + size)] + ChunksFrom(s, size, i + size)
  }

  /** The batches of `s`: `[s[i:i+size] for i in range(0, len(s), size)]`. */
  function Chunks<T>(s: seq<T>, size: nat): seq<seq<T>>
    requires size > 0
  {
    ChunksFrom(s, size, 0)
  }

  /** Concatenation of a sequence of sequences (Python's repeated `extend`). */
  function Flatten<T>(ss: seq<seq<T>>): seq<T>
    decreases |ss|
  {
    if |ss| == 0 then [] else ss[0] + Flatten(ss[1..])
  }

  /** Batches taken from offset `i`: there are `ceil((len(s) - i) / size)` of them,
      none empty and none longer than `size`. */
  lemma {:induction false} ChunksFromCount<T>(s: seq<T>, size: nat, i: nat)
    requires size > 0
    ensures |ChunksFrom(s, size, i)| == if i < |s| then CeilDiv(|s| - i, size) else 0
    ensures forall k :: 0 <= k < |ChunksFrom(s, size, i)| ==>
              0 < |ChunksFrom(s, size, i)[k]| <= size
    decreases |s| - i
  {
    if i < |s| {
      ChunksFromCount(s, size, i + size);
      var cs := ChunksFrom(s, size, i);
      var rest := ChunksFrom(s, size, i + size);
      assert cs == [Slice(s, i, i + size)] + rest;
      forall k | 0 < k < |cs|
        ensures 0 < |cs[k]| <= size
      {
        assert cs[k] == rest[k - 1];
      }
    }
  }

  /** The k-th batch taken from offset `i` starts at offset `o = i + k * size`. */
  lemma {:induction false} ChunksFromAt<T>(s: seq<T>, size: nat, i: nat, k: nat, o: nat)
    requires size > 0
    requires k < |ChunksFrom(s, size, i)| && o == i + k * size
    ensures ChunksFrom(s, size, i)[k] == Slice(s, o, o + size)
    decreases k
  {
    var rest := ChunksFrom(s, size, i + size);
    assert ChunksFrom(s, size, i) == [Slice(s, i, i + size)] + rest;
    if k > 0 {
      assert ChunksFrom(s, size, i)[k] == rest[k - 1];
      assert k * size == (k - 1) * size + size;
      ChunksFromAt(s, size, i + size, k - 1, o);
    }
  }

  /** The k-th batch taken from offset `i` is `s[i+k*size : i+(k+1)*size]`. */
  lemma ChunksFromIndex<T>(s: seq<T>, size: nat, i: nat, k: nat)
    requires size > 0
    requires k < |ChunksFrom(s, size, i)|
    ensures ChunksFrom(s, size, i)[k] == Slice(s, i + k * size, i + (k + 1) * size)
  {
    ChunksFromAt(s, size, i, k, i + k * size);
    assert (k + 1) * size == k * size + size;
  }

  /** Flattening a list with a first element. */
  lemma FlattenCons<T>(head: seq<T>, rest: seq<seq<T>>)
    ensures Flatten([head] + rest) == head + Flatten(rest)
  {
    assert ([head] + rest)[1..] == rest;
  }

  /** The slice from `i` is the batch at `i` followed by the slice after it. */
  lemma SliceSplit<T>(s: seq<T>, i: nat, size: nat)
    ensures Slice(s, i, |s|) == Slice(s, i, i + size) + Slice(s, i + size, |s|)
  {
    SliceConcat(s, i, i + size, |s|);
    if |s| < i + size {
      SliceClamp(s, i, i + size);
    }
  }

  /** The batches taken from offset `i` concatenate to `s[i:]`. */
  lemma {:induction false} ChunksFromFlatten<T>(s: seq<T>, size: nat, i: nat)
    requires size > 0
    ensures Flatten(ChunksFrom(s, size, i)) == Slice(s, i, |s|)
    decreases |s| - i
  {
    if i < |s| {
      var head := Slice(s, i, i + size);
      var rest := ChunksFrom(s, size, i + size);
      assert ChunksFrom(s, size, i) == [head] + rest;
      FlattenCons(head, rest);
      ChunksFromFlatten(s, size, i + size);
      SliceSplit(s, i, size);
    }
  }

  /** The batching of a whole list: `ceil(len(s) / size)` non-empty batches of at most
      `size` records, in input order, whose concatenation is the input. */
  lemma ChunksPartition<T>(s: seq<T>, size: nat)
    requires size > 0
    ensures |Chunks(s, size)| == CeilDiv(|s|, size)
    ensures forall k :: 0 <= k < |Chunks(s, size)| ==> 0 < |Chunks(s, size)[k]| <= size
    ensures forall k :: 0 <= k < |Chunks(s, size)| ==>
              Chunks(s, size)[k] == Slice(s, k * size, (k + 1) * size)
    ensures Flatten(Chunks(s, size)) == s
  {
    ChunksFromCount(s, size, 0);
    forall k | 0 <= k < |Chunks(s, size)|
      ensures Chunks(s, size)[k] == Slice(s, k * size, (k + 1) * size)
    {
      ChunksFromIndex(s, size, 0, k);
    }
    ChunksFromFlatten(s, size, 0);
    SliceToEnd(s, 0);
  }
}
