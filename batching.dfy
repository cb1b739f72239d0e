/**
 The batch scheduler of `sort_electrode`: the list comprehension
 `[mcd_labels[x:x+batch_size] for x in range(0, len(mcd_labels), batch_size)]`
 that cuts the ordered recording labels into contiguous chunks.
 */
module Batching {
  import opened SpikeTypes

  function Min(a: int, b: int): int { if a <= b then a else b }

  /** The chunks produced for the range values `x, x + B, x + 2B, ...` below
      `|labels|`; each is the Python slice `labels[x:x+B]`, which stops at the end
      of the list. Every chunk is non-empty and holds at most `B` labels. */
  function ChunksFrom<L>(labels: seq<L>, batchSize: nat, x: nat): (r: seq<seq<L>>)
    requires batchSize > 0
    ensures forall k :: 0 <= k < |r| ==> 0 < |r[k]| <= batchSize
    decreases |labels| - x
  {
    if x >= |labels| then []
    else [labels[x..Min(x + batchSize, |labels|)]] + ChunksFrom(labels, batchSize, x + batchSize)
  }

  /** The comprehension at its entry point. A negative step makes the Python
      `range` empty, so no chunk is produced; a zero step raises, which the
      orchestrator reports before calling this. */
  function Chunks<L>(labels: seq<L>, batchSize: int): (r: seq<seq<L>>)
    requires batchSize != 0
    ensures batchSize < 0 ==> r == []
    ensures forall k :: 0 <= k < |r| ==> 0 < |r[k]| <= batchSize
  {
    if batchSize < 0 then [] else ChunksFrom(labels, batchSize, 0)
  }

  /** Concatenating the chunks from offset `x` gives back the labels from `x`. */
  lemma {:induction false} ChunksFromFlatten<L>(labels: seq<L>, batchSize: nat, x: nat)
    requires batchSize > 0
    ensures Flatten(ChunksFrom(labels, batchSize, x)) == labels[Min(x, |labels|)..]
    decreases |labels| - x
  {
    if x < |labels| {
      var m := Min(x + batchSize, |labels|);
      var head := labels[x..m];
      var rest := ChunksFrom(labels, batchSize, x + batchSize);
      assert Flatten(ChunksFrom(labels, batchSize, x)) == head + labels[m..] by {
        assert ChunksFrom(labels, batchSize, x) == [head] + rest;
        ChunksFromFlatten(labels, batchSize, x + batchSize);
        FlattenAppend([head], rest);
        assert Flatten([head]) == head by {
          assert [head][..0] == [];
        }
      }
      assert labels[x..] == head + labels[m..];
    }
  }

  /** Partition round trip: concatenating the chunks in order yields exactly the
      original label list, so nothing is dropped, duplicated or reordered. */
  lemma PartitionRoundTrip<L>(labels: seq<L>, batchSize: int)
    requires batchSize > 0
    ensures Flatten(Chunks(labels, batchSize)) == labels
  {
    ChunksFromFlatten(labels, batchSize, 0);
  }

  /** Chunk `k` from offset `x` is the slice starting at `x + k*B`. */
  lemma {:induction false} ChunksFromAt<L>(labels: seq<L>, batchSize: nat, x: nat, k: nat)
    requires batchSize > 0
    requires k < |ChunksFrom(labels, batchSize, x)|
    ensures x + k * batchSize < |labels|
    ensures ChunksFrom(labels, batchSize, x)[k]
            == labels[x + k * batchSize..Min(x + k * batchSize + batchSize, |labels|)]
    decreases |labels| - x
  {
    var cs := ChunksFrom(labels, batchSize, x);
    if k > 0 {
      var rest := ChunksFrom(labels, batchSize, x + batchSize);
      assert cs[k] == rest[k - 1];
      ChunksFromAt(labels, batchSize, x + batchSize, k - 1);
      MulStep(k, batchSize);
    }
  }

  lemma MulStep(k: nat, b: nat)
    requires k > 0
    ensures k * b == (k - 1) * b + b
  {
  }

  /** The comprehension, element by element: chunk `k` is
      `labels[k*B : k*B + B]`, with Python's clamping at the end of the list. */
  lemma ChunkAt<L>(labels: seq<L>, batchSize: int, k: nat)
    requires batchSize > 0
    requires k < |Chunks(labels, batchSize)|
    ensures k * batchSize < |labels|
    ensures Chunks(labels, batchSize)[k]
            == labels[k * batchSize..Min(k * batchSize + batchSize, |labels|)]
  {
    ChunksFromAt(labels, batchSize, 0, k);
  }

  lemma {:induction false} MulBound(d: int, b: int)
    requires b > 0
    ensures d >= 1 ==> d * b >= b
    ensures d <= -1 ==> d * b <= -b
    decreases if d < 0 then -d else d
  {
    if d > 1 {
      MulBound(d - 1, b);
      assert d * b == (d - 1) * b + b;
    } else if d < -1 {
      MulBound(d + 1, b);
      assert d * b == (d + 1) * b - b;
    }
  }

  /** Euclidean division is determined by a quotient and an in-range remainder. */
  lemma DivUnique(n: int, b: int, q: int, r: int)
    requires b > 0 && 0 <= r < b && n == q * b + r
    ensures n / b == q
  {
    var q', r' := n / b, n % b;
    assert n == q' * b + r';
    assert (q - q') * b == r' - r;
    MulBound(q - q', b);
  }

  lemma DivStep(m: int, b: int)
    requires m >= 0 && b > 0
    ensures (m + b) / b == m / b + 1
  {
    var q, r := m / b, m % b;
    assert m + b == (q + 1) * b + r;
    DivUnique(m + b, b, q + 1, r);
  }

  /** From offset `x` there are `ceil((|labels| - x) / B)` chunks. */
  lemma {:induction false} ChunksFromCount<L>(labels: seq<L>, batchSize: nat, x: nat)
    requires batchSize > 0
    ensures |ChunksFrom(labels, batchSize, x)|
            == if x >= |labels| then 0 else (|labels| - x + batchSize - 1) / batchSize
    decreases |labels| - x
  {
    if x < |labels| {
      ChunksFromCount(labels, batchSize, x + batchSize);
      var d := |labels| - x;
      if x + batchSize >= |labels| {
        DivUnique(d + batchSize - 1, batchSize, 1, d - 1);
      } else {
        DivStep(d - 1, batchSize);
        assert d + batchSize - 1 == (d - 1) + batchSize;
      }
    }
  }

  /** Chunk sizes and count: there are `ceil(|labels| / B)` chunks (none for an
      empty list), each non-empty with at most `B` labels, and every chunk but the
      last holds exactly `B`. */
  lemma ChunkSizes<L>(labels: seq<L>, batchSize: int)
    requires batchSize > 0
    ensures |Chunks(labels, batchSize)| == (|labels| + batchSize - 1) / batchSize
    ensures forall k :: 0 <= k < |Chunks(labels, batchSize)| ==>
              0 < |Chunks(labels, batchSize)[k]| <= batchSize
    ensures forall k :: 0 <= k < |Chunks(labels, batchSize)| - 1 ==>
              |Chunks(labels, batchSize)[k]| == batchSize
  {
    var cs := Chunks(labels, batchSize);
    ChunksFromCount(labels, batchSize, 0);
    if |labels| == 0 {
      DivUnique(batchSize - 1, batchSize, 0, batchSize - 1);
    }
    forall k | 0 <= k < |cs| - 1
      ensures |cs[k]| == batchSize
    {
      ChunkAt(labels, batchSize, k + 1);
      ChunkAt(labels, batchSize, k);
      assert (k + 1) * batchSize == k * batchSize + batchSize;
    }
  }
}
