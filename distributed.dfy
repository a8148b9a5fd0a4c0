/** The index arithmetic of the two distributed samplers.  DistributedSampler pads
    the dataset's index list to a multiple of the number of replicas and gives each
    rank every num_replicas-th position; DistributedChunkSampler gives each rank a
    strided share of the chunk indices.  The permutation torch.randperm would draw
    for an epoch is a parameter of the iteration. */
module Distributed {

  datatype Option<T> = None | Some(value: T)

  function Min(a: nat, b: nat): nat { if a <= b then a else b }

  /** Integer ceiling of n / d: the least multiple count covering n. */
  function CeilDiv(n: nat, d: nat): (q: nat)
    requires d > 0
    ensures q * d >= n && q * d - n < d
  {
    var q := (n + d - 1) / d;
    assert n + d - 1 == q * d + (n + d - 1) % d;
    q
  }

  /** list(range(n)). */
  function Range(n: nat): (r: seq<nat>)
    ensures |r| == n && forall i :: 0 <= i < n ==> r[i] == i
  {
    seq(n, i requires 0 <= i < n => i)
  }

  /** A list holding each of 0 .. n-1 exactly once, as torch.randperm(n) returns. */
  predicate IsPermutation(p: seq<nat>, n: nat)
  {
    |p| == n && (forall i :: 0 <= i < n ==> p[i] < n) &&
    forall i, j :: 0 <= i < j < n ==> p[i] != p[j]
  }

  // ----- strides -----

  /** k * s as repeated addition; the stride lemmas reason about it step by step. */
  function Mul(k: nat, s: nat): nat
  {
    if k == 0 then 0 else Mul(k - 1, s) + s
  }

  lemma {:induction false} MulIsProduct(k: nat, s: nat)
    ensures Mul(k, s) == k * s
  {
    if k > 0 {
      MulIsProduct(k - 1, s);
    }
  }

  /** Each further multiple is at least one stride further on. */
  lemma {:induction false} MulGrows(a: nat, b: nat, s: nat)
    requires a < b
    ensures Mul(a, s) + s <= Mul(b, s)
    decreases b - a
  {
    if a + 1 < b {
      MulGrows(a + 1, b, s);
    }
  }

  /** Euclidean division by a stride: p is p % d plus (p / d) strides. */
  lemma DivMod(p: nat, d: nat)
    requires d > 0
    ensures p % d < d && p == p % d + Mul(p / d, d)
  {
    MulIsProduct(p / d, d);
  }

  // ----- Python slicing with a positive step -----

  /** Where a slice bound lands in a list of length `len`: a negative bound counts from
      the end, and both kinds are clamped to the list. */
  function SliceBound(b: int, len: nat): (k: nat)
    ensures k <= len
    ensures 0 <= b <= len ==> k == b
  {
    if b < 0 then (if len + b < 0 then 0 else len + b)
    else if b > len then len
    else b
  }

  /** How many of lo, lo + step, lo + 2*step, ... lie below hi. */
  function StrideCount(lo: nat, hi: nat, step: nat): nat
    requires step > 0
    decreases hi - lo
  {
    if lo >= hi then 0 else 1 + StrideCount(lo + step, hi, step)
  }

  /** The counted positions are exactly those below hi: the k-th lies below hi for every
      k under the count, and the next one does not. */
  lemma {:induction false} StrideCountBounds(lo: nat, hi: nat, step: nat, k: nat)
    requires step > 0
    ensures k < StrideCount(lo, hi, step) ==> lo + Mul(k, step) < hi
    ensures lo + Mul(StrideCount(lo, hi, step), step) >= hi
    decreases hi - lo
  {
    if lo < hi {
      if k > 0 {
        StrideCountBounds(lo + step, hi, step, k - 1);
      } else {
        StrideCountBounds(lo + step, hi, step, 0);
      }
    }
  }

  lemma StrideInBounds(lo: nat, hi: nat, step: nat)
    requires step > 0
    ensures forall k :: 0 <= k < StrideCount(lo, hi, step) ==> lo + Mul(k, step) < hi
  {
    forall k | 0 <= k < StrideCount(lo, hi, step) ensures lo + Mul(k, step) < hi {
      StrideCountBounds(lo, hi, step, k);
    }
  }

  /** The elements at lo, lo + step, lo + 2*step, ... below hi. */
  function Stride<T>(xs: seq<T>, lo: nat, hi: nat, step: nat): (r: seq<T>)
    requires step > 0 && hi <= |xs|
    ensures |r| == StrideCount(lo, hi, step)
    ensures forall k :: 0 <= k < |r| ==> lo + Mul(k, step) < hi
    ensures forall k :: 0 <= k < |r| ==> r[k] == xs[lo + Mul(k, step)]
  {
    StrideInBounds(lo, hi, step);
    seq(StrideCount(lo, hi, step), k requires 0 <= k < StrideCount(lo, hi, step) => xs[lo + Mul(k, step)])
  }

  /** xs[start:stop:step] for step > 0. */
  function Slice<T>(xs: seq<T>, start: int, stop: int, step: nat): (r: seq<T>)
    requires step > 0
    ensures |r| == StrideCount(SliceBound(start, |xs|), SliceBound(stop, |xs|), step)
    ensures forall k :: 0 <= k < |r| ==> SliceBound(start, |xs|) + Mul(k, step) < SliceBound(stop, |xs|)
    ensures forall k :: 0 <= k < |r| ==> r[k] == xs[SliceBound(start, |xs|) + Mul(k, step)]
  {
    Stride(xs, SliceBound(start, |xs|), SliceBound(stop, |xs|), step)
  }

  /** Slicing from every start below the step covers the list: position p is the
      (p / step)-th element of the slice that starts at p % step. */
  lemma PositionInSlice<T>(xs: seq<T>, step: nat, p: nat)
    requires 0 < step && p < |xs|
    ensures p / step < |Slice(xs, p % step, |xs|, step)|
    ensures Slice(xs, p % step, |xs|, step)[p / step] == xs[p]
  {
    var r, k := p % step, p / step;
    DivMod(p, step);
    var s := Slice(xs, r, |xs|, step);
    assert SliceBound(r, |xs|) == r && SliceBound(|xs|, |xs|) == |xs|;
    StrideCountBounds(r, |xs|, step, 0);
    if |s| < k {
      MulGrows(|s|, k, step);
    }
  }

  // ----- DistributedSampler -----

  /** The index list padded with its own first elements up to `total`
      (indices += indices[:total - len(indices)]). */
  function Padded(order: seq<nat>, total: nat): (r: seq<nat>)
    requires |order| <= total
    ensures |r| == |order| + Min(total - |order|, |order|)
    ensures r[..|order|] == order
    ensures forall p :: |order| <= p < |r| ==> r[p] == order[p - |order|]
  {
    order + order[..Min(total - |order|, |order|)]
  }

  /** The share of one rank: every num_replicas-th position of the padded list from
      position `rank` (indices[rank:total:num_replicas]). */
  function Shard(padded: seq<nat>, rank: int, total: nat, replicas: nat): (r: seq<nat>)
    requires replicas > 0
    ensures forall k :: 0 <= k < |r| ==> r[k] in padded
  {
    Slice(padded, rank, total, replicas)
  }

  class DistributedSampler {
    /** len(dataset), assumed constant. */
    const datasetLen: nat
    const numReplicas: nat
    const rank: int
    const shuffle: bool
    const numSamples: nat
    const totalSize: nat
    var epoch: int

    ghost predicate Valid()
      reads this
    {
      numReplicas > 0 && numSamples == CeilDiv(datasetLen, numReplicas) &&
      totalSize == numSamples * numReplicas
    }

    constructor (datasetLen: nat, numReplicas: nat, rank: int, shuffle: bool)
      requires numReplicas > 0
      ensures Valid()
      ensures this.datasetLen == datasetLen && this.numReplicas == numReplicas
      ensures this.rank == rank && this.shuffle == shuffle && epoch == 0
    {
      this.datasetLen := datasetLen;
      this.numReplicas := numReplicas;
      this.rank := rank;
      this.epoch := 0;
      var q := CeilDiv(datasetLen, numReplicas);
      this.numSamples := q;
      this.totalSize := q * numReplicas;
      this.shuffle := shuffle;
    }

    /** The index list before padding: the drawn permutation, or 0 .. n-1 in order. */
    function Order(perm: seq<nat>): (order: seq<nat>)
      reads this
    {
      if shuffle then perm else Range(datasetLen)
    }

    /** __iter__: pad, check the padded length, take this rank's share, check its length.
        A failed assertion is None. */
    method Iter(perm: seq<nat>) returns (r: Option<seq<nat>>)
      requires Valid()
      requires shuffle ==> IsPermutation(perm, datasetLen)
      ensures var padded := Padded(Order(perm), totalSize);
              r.Some? <==> |padded| == totalSize && |Shard(padded, rank, totalSize, numReplicas)| == numSamples
      ensures r.Some? ==> r.value == Shard(Padded(Order(perm), totalSize), rank, totalSize, numReplicas)
      ensures r.Some? ==> |r.value| == Len()
    {
      var indices: seq<nat>;
      if shuffle {
        indices := perm;
      } else {
        indices := Range(datasetLen);
      }
      indices := indices + indices[..Min(totalSize - |indices|, |indices|)];
      if |indices| != totalSize {
        return None;
      }
      indices := Slice(indices, rank, totalSize, numReplicas);
      if |indices| != numSamples {
        return None;
      }
      return Some(indices);
    }

    /** __len__. */
    function Len(): (n: nat)
      reads this
      requires Valid()
      ensures n * numReplicas == totalSize
    {
      numSamples
    }

    method SetEpoch(epoch: int)
      modifies this`epoch
      ensures this.epoch == epoch
    {
      this.epoch := epoch;
    }
  }

  /** Padding reaches the total exactly when the shortfall is no longer than the list. */
  lemma PaddingReachesTotalIff(order: seq<nat>, total: nat)
    requires |order| <= total
    ensures |Padded(order, total)| == total <==> total - |order| <= |order|
  {
  }

  /** So padding always succeeds once the dataset has at least replicas - 1 items. */
  lemma PaddingSucceedsWithEnoughItems(order: seq<nat>, replicas: nat)
    requires replicas > 0 && |order| + 1 >= replicas
    ensures |order| <= CeilDiv(|order|, replicas) * replicas
    ensures |Padded(order, CeilDiv(|order|, replicas) * replicas)| == CeilDiv(|order|, replicas) * replicas
  {
  }

  /** One item over three replicas: the total is 3, padding adds one copy, and the
      length assertion fails. */
  lemma PaddingFailsForOneItemOverThree()
    ensures CeilDiv(1, 3) * 3 == 3 && |Padded([0], 3)| == 2
  {
    assert CeilDiv(1, 3) == 1;
  }

  /** A rank in 0 .. replicas-1 receives exactly num_samples positions; a larger rank
      receives fewer, unless there is nothing to share. */
  lemma ShardLength(padded: seq<nat>, rank: nat, samples: nat, replicas: nat)
    requires replicas > 0 && |padded| == Mul(samples, replicas)
    ensures |Shard(padded, rank, |padded|, replicas)| == samples <==> rank < replicas || samples == 0
  {
    var total := |padded|;
    var len := |Shard(padded, rank, total, replicas)|;
    StrideCountBounds(SliceBound(rank, total), total, replicas, 0);
    if samples > 0 {
      MulGrows(0, samples, replicas);
      if rank < replicas {
        assert SliceBound(rank, total) == rank;
        if len < samples {
          MulGrows(len, samples, replicas);
        }
      }
    }
  }

  /** For a non-negative rank, both assertions of __iter__ hold exactly when the padding
      shortfall is no longer than the dataset and the rank is below num_replicas (or the
      dataset is empty). */
  lemma IterSucceedsIff(order: seq<nat>, replicas: nat, rank: nat)
    requires replicas > 0
    ensures var total := CeilDiv(|order|, replicas) * replicas;
            |order| <= total &&
            (|Padded(order, total)| == total && |Shard(Padded(order, total), rank, total, replicas)| == CeilDiv(|order|, replicas)
             <==> total - |order| <= |order| && (rank < replicas || |order| == 0))
  {
    var samples := CeilDiv(|order|, replicas);
    var total := samples * replicas;
    MulIsProduct(samples, replicas);
    if |Padded(order, total)| == total {
      ShardLength(Padded(order, total), rank, samples, replicas);
      if |order| == 0 {
        assert samples == 0;
      }
    }
  }

  /** The k-th element of a rank's share is padded position rank + k * replicas. */
  lemma ShardElement(padded: seq<nat>, rank: nat, replicas: nat, k: nat)
    requires replicas > 0 && rank <= |padded|
    requires k < |Shard(padded, rank, |padded|, replicas)|
    ensures rank + Mul(k, replicas) < |padded|
    ensures Shard(padded, rank, |padded|, replicas)[k] == padded[rank + Mul(k, replicas)]
  {
    assert SliceBound(rank, |padded|) == rank;
  }

  /** The ranks' shares never take the same position: rank r takes the positions
      r + k * replicas. */
  lemma SharesDisjoint(replicas: nat, r1: nat, k1: nat, r2: nat, k2: nat)
    requires r1 < replicas && r2 < replicas
    requires r1 + Mul(k1, replicas) == r2 + Mul(k2, replicas)
    ensures r1 == r2 && k1 == k2
  {
    if k1 < k2 {
      MulGrows(k1, k2, replicas);
    } else if k2 < k1 {
      MulGrows(k2, k1, replicas);
    }
  }

  /** Together the ranks' shares take every position: position p is the (p / replicas)-th
      element of the share of rank p % replicas. */
  lemma SharesCover(padded: seq<nat>, samples: nat, replicas: nat, p: nat)
    requires replicas > 0 && |padded| == Mul(samples, replicas) && p < |padded|
    ensures p % replicas < replicas && p / replicas < samples
    ensures p / replicas < |Shard(padded, p % replicas, |padded|, replicas)|
    ensures Shard(padded, p % replicas, |padded|, replicas)[p / replicas] == padded[p]
  {
    var k := p / replicas;
    DivMod(p, replicas);
    if k > samples {
      MulGrows(samples, k, replicas);
    }
    PositionInSlice(padded, replicas, p);
  }

  /** Without shuffling, padded position p holds p below n and p - n above it, so every
      index handed out lies in 0 .. n-1. */
  lemma SequentialPadding(n: nat, total: nat, p: nat)
    requires n <= total && total - n <= n && p < total
    ensures Padded(Range(n), total)[p] == if p < n then p else p - n
    ensures Padded(Range(n), total)[p] < n
  {
    if p < n {
      assert Padded(Range(n), total)[p] == Padded(Range(n), total)[..n][p];
    }
  }

  /** Every index handed out to a rank is one of the index list's entries. */
  lemma ShareDrawsFromOrder(order: seq<nat>, total: nat, rank: nat, replicas: nat, k: nat)
    requires replicas > 0 && |order| <= total && |Padded(order, total)| == total && rank <= total
    requires k < |Shard(Padded(order, total), rank, total, replicas)|
    ensures Shard(Padded(order, total), rank, total, replicas)[k] in order
  {
    var padded := Padded(order, total);
    ShardElement(padded, rank, replicas, k);
    var p := rank + Mul(k, replicas);
    if p >= |order| {
      assert padded[p] == order[p - |order|];
    } else {
      assert padded[p] == padded[..|order|][p];
    }
  }

  // ----- DistributedChunkSampler -----

  class DistributedChunkSampler {
    var rank: int
    const numReplicas: int
    const numChunks: int
    const shuffle: bool
    var epoch: int

    /** The bounds the constructor asserts and set_rank keeps. */
    ghost predicate Valid()
      reads this
    {
      0 <= rank <= numReplicas <= numChunks
    }

    constructor (numReplicas: int, rank: int, numChunks: int, shuffle: bool)
      requires rank >= 0 && numReplicas >= 0
      requires rank <= numReplicas && numChunks >= numReplicas
      ensures Valid()
      ensures this.rank == rank && this.numReplicas == numReplicas
      ensures this.numChunks == numChunks && this.shuffle == shuffle && epoch == 0
    {
      this.rank := rank;
      this.numReplicas := numReplicas;
      this.numChunks := numChunks;
      this.shuffle := shuffle;
      this.epoch := 0;
    }

    /** The chunk list before striding: the drawn permutation of the chunks, or
        0 .. num_replicas-1 in order. */
    function Order(perm: seq<nat>): (order: seq<nat>)
      reads this
      requires Valid()
    {
      if shuffle then perm else Range(numReplicas as nat)
    }

    /** __iter__: indices[rank:num_chunks:num_replicas]; a zero step is a ValueError (None). */
    method Iter(perm: seq<nat>) returns (r: Option<seq<nat>>)
      requires Valid()
      requires shuffle ==> IsPermutation(perm, numChunks as nat)
      ensures r.None? <==> numReplicas == 0
      ensures r.Some? ==> r.value == Slice(Order(perm), rank, numChunks, numReplicas as nat)
    {
      var indices: seq<nat>;
      if shuffle {
        indices := perm;
      } else {
        indices := Range(numReplicas as nat);
      }
      if numReplicas == 0 {
        return None;
      }
      indices := Slice(indices, rank, numChunks, numReplicas as nat);
      return Some(indices);
    }

    /** set_rank: accepted only for 0 <= rank < num_replicas; a refused rank (a failed
        assertion) leaves the sampler as it was. */
    method SetRank(rank: int) returns (ok: bool)
      requires Valid()
      modifies this`rank
      ensures Valid()
      ensures ok <==> 0 <= rank < numReplicas
      ensures this.rank == if ok then rank else old(this.rank)
    {
      ok := 0 <= rank < numReplicas;
      if ok {
        this.rank := rank;
      }
    }

    method SetEpoch(epoch: int)
      modifies this`epoch
      ensures this.epoch == epoch
    {
      this.epoch := epoch;
    }
  }

  /** Without shuffling the chunk sampler hands out its own rank, once, or nothing for
      rank == num_replicas. */
  lemma SequentialChunks(rank: nat, replicas: nat, chunks: nat)
    requires 0 < replicas && rank <= replicas <= chunks
    ensures Slice(Range(replicas), rank, chunks, replicas) == if rank < replicas then [rank] else []
  {
    var r := Slice(Range(replicas), rank, chunks, replicas);
    assert SliceBound(rank, replicas) == rank && SliceBound(chunks, replicas) == replicas;
    StrideCountBounds(rank, replicas, replicas, 0);
    if rank < replicas {
      assert |r| != 0;
    }
  }

  /** With shuffling, the k-th chunk of a rank is the permutation's entry at rank + k * replicas. */
  lemma ShuffledChunk(perm: seq<nat>, rank: nat, replicas: nat, k: nat)
    requires 0 < replicas && rank <= |perm|
    requires k < |Slice(perm, rank, |perm|, replicas)|
    ensures rank + Mul(k, replicas) < |perm|
    ensures Slice(perm, rank, |perm|, replicas)[k] == perm[rank + Mul(k, replicas)]
  {
    assert SliceBound(rank, |perm|) == rank;
  }

  /** With shuffling, two different ranks never read the same chunk. */
  lemma ShuffledChunksDisjoint(perm: seq<nat>, chunks: nat, replicas: nat, r1: nat, r2: nat)
    requires IsPermutation(perm, chunks) && 0 < replicas && r1 < replicas && r2 < replicas && r1 != r2
    requires replicas <= chunks
    ensures forall k1, k2 ::
              0 <= k1 < |Slice(perm, r1, chunks, replicas)| && 0 <= k2 < |Slice(perm, r2, chunks, replicas)| ==>
              Slice(perm, r1, chunks, replicas)[k1] != Slice(perm, r2, chunks, replicas)[k2]
  {
    var s1, s2 := Slice(perm, r1, chunks, replicas), Slice(perm, r2, chunks, replicas);
    forall k1, k2 | 0 <= k1 < |s1| && 0 <= k2 < |s2| ensures s1[k1] != s2[k2] {
      ShuffledChunk(perm, r1, replicas, k1);
      ShuffledChunk(perm, r2, replicas, k2);
      var p1, p2 := r1 + Mul(k1, replicas), r2 + Mul(k2, replicas);
      if p1 == p2 {
        SharesDisjoint(replicas, r1, k1, r2, k2);
      }
    }
  }

  /** With shuffling, every chunk is read by some rank: the chunk at position p of the
      permutation goes to the rank p % num_replicas. */
  lemma ShuffledChunksCover(perm: seq<nat>, chunks: nat, replicas: nat, p: nat)
    requires IsPermutation(perm, chunks) && 0 < replicas && p < chunks
    ensures p / replicas < |Slice(perm, p % replicas, chunks, replicas)|
    ensures Slice(perm, p % replicas, chunks, replicas)[p / replicas] == perm[p]
  {
    PositionInSlice(perm, replicas, p);
  }

  /** The constructor also accepts rank == num_replicas.  With shuffling and more chunks
      than replicas, that rank's first chunk is the second chunk of rank 0, so its
      share overlaps another rank's. */
  lemma ShuffledRankAtReplicasOverlaps(perm: seq<nat>, chunks: nat, replicas: nat)
    requires IsPermutation(perm, chunks) && 0 < replicas < chunks
    ensures 0 < |Slice(perm, replicas, chunks, replicas)| && 1 < |Slice(perm, 0, chunks, replicas)|
    ensures Slice(perm, replicas, chunks, replicas)[0] == Slice(perm, 0, chunks, replicas)[1]
  {
    assert Mul(1, replicas) == replicas;
    StrideCountBounds(replicas, chunks, replicas, 0);
    StrideCountBounds(0, chunks, replicas, 0);
  }
}
