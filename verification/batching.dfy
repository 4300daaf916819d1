/** `get_batches`: sentence numbers 0..n-1 cut into consecutive runs of at most
    `batch_size`, the runs taken in an arbitrary order when shuffling. */
module Batching {
  import opened Seqs

  function Min(a: int, b: int): (m: int)
    ensures m <= a && m <= b
    ensures m == a || m == b
  {
    if a <= b then a else b
  }

  /** Length of `np.arange(0, n, bs)`: the number of batches. */
  function NumBatches(n: nat, bs: nat): (q: nat)
    requires bs > 0
    ensures n <= q * bs < n + bs
  {
    var q := (n + bs - 1) / bs;
    assert n + bs - 1 == q * bs + (n + bs - 1) % bs;
    q
  }

  /** `np.arange(start=0, stop=n, step=bs)`: first sentence of every batch. */
  function Starts(n: nat, bs: nat): (r: seq<int>)
    requires bs > 0
    ensures |r| == NumBatches(n, bs)
    ensures forall k :: 0 <= k < |r| ==> r[k] == k * bs
  {
    seq(NumBatches(n, bs), k => k * bs)
  }

  /** `np.arange(first, min(first + bs, n), 1)`. */
  function BatchFrom(first: int, n: nat, bs: nat): (b: seq<int>)
    ensures |b| <= bs
    ensures forall t :: 0 <= t < |b| ==> b[t] == first + t && b[t] < n
    ensures first < n ==> |b| == Min(bs, n - first)
  {
    Range(first, Min(first + bs, n))
  }

  /** The batch list produced for a given order of first indices. */
  function BatchesFrom(firsts: seq<int>, n: nat, bs: nat): (r: seq<seq<int>>)
    ensures |r| == |firsts|
    ensures forall k :: 0 <= k < |firsts| ==> r[k] == BatchFrom(firsts[k], n, bs)
  {
    seq(|firsts|, k requires 0 <= k < |firsts| => BatchFrom(firsts[k], n, bs))
  }

  /** The first indices after the optional shuffle; the random shuffle is the
      permutation `perm` of batch positions. */
  function FirstIndices(n: nat, bs: nat, shuffle: bool, perm: seq<int>): (firsts: seq<int>)
    requires bs > 0
    requires shuffle ==> IsPermutation(perm, NumBatches(n, bs))
    ensures |firsts| == NumBatches(n, bs)
    ensures forall k :: 0 <= k < |firsts| ==> firsts[k] == (if shuffle then perm[k] else k) * bs
  {
    if shuffle then Gather(Starts(n, bs), perm) else Starts(n, bs)
  }

  /** `get_batches(n, batch_size, shuffle)`. A step of 0 makes `np.arange`
      fail, so the batch size must be positive. */
  method GetBatches(n: nat, bs: nat, shuffle: bool, perm: seq<int>) returns (batches: seq<seq<int>>)
    requires bs > 0
    requires shuffle ==> IsPermutation(perm, NumBatches(n, bs))
    ensures batches == BatchesFrom(FirstIndices(n, bs, shuffle, perm), n, bs)
  {
    var firsts := Starts(n, bs);
    if shuffle {
      firsts := Gather(firsts, perm);
    }
    batches := [];
    for i := 0 to |firsts|
      invariant batches == BatchesFrom(firsts[..i], n, bs)
    {
      var first := firsts[i];
      batches := batches + [Range(first, Min(first + bs, n))];
    }
    assert firsts[..|firsts|] == firsts;
  }

  // ---------------------------------------------------------------------------
  // Arithmetic of batch starts

  lemma MulMono(a: int, b: int, c: nat)
    requires a <= b
    ensures a * c <= b * c
  {
  }

  /** Batch k exists exactly when its first index k*bs is a sentence number. */
  lemma {:induction false} StartBound(n: nat, bs: nat, k: nat)
    requires bs > 0
    ensures k < NumBatches(n, bs) <==> k * bs < n
  {
    var q := NumBatches(n, bs);
    var r := (n + bs - 1) % bs;
    assert n + bs - 1 == q * bs + r;
    if k < q {
      MulMono(k, q - 1, bs);
    } else {
      MulMono(q, k, bs);
    }
  }

  /** i lies in the run starting at q*bs exactly when q is i / bs. */
  lemma {:induction false} DivRange(i: nat, bs: nat, q: int)
    requires bs > 0
    ensures i / bs == q <==> q * bs <= i < q * bs + bs
  {
    var d := i / bs;
    assert i == d * bs + i % bs;
    if q < d {
      MulMono(q + 1, d, bs);
    } else if q > d {
      MulMono(d + 1, q, bs);
    }
  }

  // ---------------------------------------------------------------------------
  // The unshuffled batches

  /** Batch k is the ascending run k*bs, k*bs+1, ... of between 1 and bs
      sentence numbers; only the last batch may hold fewer than bs. */
  lemma {:induction false} BatchShape(n: nat, bs: nat, k: int)
    requires bs > 0
    requires 0 <= k < NumBatches(n, bs)
    ensures var b := BatchesFrom(Starts(n, bs), n, bs)[k];
            && 1 <= |b| <= bs
            && (forall t :: 0 <= t < |b| ==> b[t] == k * bs + t)
            && (k < NumBatches(n, bs) - 1 ==> |b| == bs)
  {
    StartBound(n, bs, k);
    if k < NumBatches(n, bs) - 1 {
      StartBound(n, bs, k + 1);
    }
  }

  /** Sentence i (0 <= i < n) is entry i % bs of batch i / bs. */
  lemma {:induction false} BatchOf(n: nat, bs: nat, i: int)
    requires bs > 0
    requires 0 <= i < n
    ensures var k := i / bs;
            var U := BatchesFrom(Starts(n, bs), n, bs);
            && 0 <= k < NumBatches(n, bs)
            && 0 <= i % bs < |U[k]|
            && U[k][i % bs] == i
  {
    var k := i / bs;
    DivRange(i, bs, k);
    StartBound(n, bs, k);
  }

  /** Every member of batch k is a sentence number whose batch is k. */
  lemma {:induction false} BatchMembers(n: nat, bs: nat, k: int, i: int)
    requires bs > 0
    requires 0 <= k < NumBatches(n, bs)
    requires i in BatchesFrom(Starts(n, bs), n, bs)[k]
    ensures 0 <= i < n
    ensures i / bs == k
  {
    DivRange(i, bs, k);
  }

  /** Some batch holds i. */
  predicate Covered(batches: seq<seq<int>>, i: int)
  {
    exists k :: 0 <= k < |batches| && i in batches[k]
  }

  /** The batches cover 0..n-1 and no sentence number is in two of them. */
  lemma {:induction false} BatchesPartition(n: nat, bs: nat)
    requires bs > 0
    ensures var U := BatchesFrom(Starts(n, bs), n, bs);
            && (forall i :: 0 <= i < n ==> Covered(U, i))
            && (forall k, i :: 0 <= k < |U| && i in U[k] ==> 0 <= i < n)
            && (forall k1, k2, i :: 0 <= k1 < |U| && 0 <= k2 < |U| && i in U[k1] && i in U[k2] ==> k1 == k2)
  {
    var U := BatchesFrom(Starts(n, bs), n, bs);
    forall i | 0 <= i < n
      ensures Covered(U, i)
    {
      BatchOf(n, bs, i);
      assert i in U[i / bs];
    }
    forall k, i | 0 <= k < |U| && i in U[k]
      ensures 0 <= i < n
    {
      BatchMembers(n, bs, k, i);
    }
    forall k1, k2, i | 0 <= k1 < |U| && 0 <= k2 < |U| && i in U[k1] && i in U[k2]
      ensures k1 == k2
    {
      BatchMembers(n, bs, k1, i);
      BatchMembers(n, bs, k2, i);
    }
  }

  // ---------------------------------------------------------------------------
  // Shuffling

  /** Shuffling the first indices reorders whole batches and changes none. */
  lemma {:induction false} ShuffleMovesWholeBatches(n: nat, bs: nat, perm: seq<int>)
    requires bs > 0
    requires IsPermutation(perm, NumBatches(n, bs))
    ensures BatchesFrom(FirstIndices(n, bs, true, perm), n, bs)
         == Gather(BatchesFrom(Starts(n, bs), n, bs), perm)
  {
  }

  /** After shuffling, sentence i still lies in exactly one batch: the batch
      whose permuted position holds the run i / bs. */
  lemma {:induction false} ShuffledPartition(n: nat, bs: nat, perm: seq<int>, i: int)
    requires bs > 0
    requires IsPermutation(perm, NumBatches(n, bs))
    requires 0 <= i < n
    ensures var S := BatchesFrom(FirstIndices(n, bs, true, perm), n, bs);
            && Covered(S, i)
            && forall k :: 0 <= k < |S| ==> (i in S[k] <==> perm[k] == i / bs)
  {
    var U := BatchesFrom(Starts(n, bs), n, bs);
    var S := BatchesFrom(FirstIndices(n, bs, true, perm), n, bs);
    ShuffleMovesWholeBatches(n, bs, perm);
    BatchOf(n, bs, i);
    PermutationCovers(perm, NumBatches(n, bs), i / bs);
    var k :| 0 <= k < |perm| && perm[k] == i / bs;
    assert S[k] == U[i / bs];
    assert U[i / bs][i % bs] == i;
    forall k' | 0 <= k' < |S|
      ensures i in S[k'] <==> perm[k'] == i / bs
    {
      if i in S[k'] {
        BatchMembers(n, bs, perm[k'], i);
      }
    }
  }

  /** Every batch, shuffled or not, is non-empty and holds only sentence
      numbers 0..n-1. */
  lemma {:induction false} BatchesInRange(n: nat, bs: nat, shuffle: bool, perm: seq<int>)
    requires bs > 0
    requires shuffle ==> IsPermutation(perm, NumBatches(n, bs))
    ensures var S := BatchesFrom(FirstIndices(n, bs, shuffle, perm), n, bs);
            forall k :: 0 <= k < |S| ==>
              |S[k]| > 0 && forall t :: 0 <= t < |S[k]| ==> 0 <= S[k][t] < n
  {
    var U := BatchesFrom(Starts(n, bs), n, bs);
    var S := BatchesFrom(FirstIndices(n, bs, shuffle, perm), n, bs);
    forall k | 0 <= k < |S|
      ensures |S[k]| > 0 && forall t :: 0 <= t < |S[k]| ==> 0 <= S[k][t] < n
    {
      var j := if shuffle then perm[k] else k;
      if shuffle {
        ShuffleMovesWholeBatches(n, bs, perm);
      }
      assert S[k] == U[j];
      BatchShape(n, bs, j);
      forall t | 0 <= t < |S[k]|
        ensures 0 <= S[k][t] < n
      {
        assert S[k][t] in U[j];
        BatchMembers(n, bs, j, S[k][t]);
      }
    }
  }
}
