/** The sort / restore around the recurrent layers of `Encoder.forward` and
    `Decoder.forward`: rows are sorted by descending length for
    `pack_padded_sequence`, processed, and put back with the index list that
    sorts the sort index ascending (its argsort). */
module SortRestore {
  import opened Seqs
  import opened StableSort

  /** What `lengths.sort(0, descending=True)` may return as its index list.
      The sort is not promised to be stable, so rows of equal length may come
      in any order. */
  predicate SortsDescending(lens: seq<int>, p: seq<int>)
    ensures SortsDescending(lens, p) ==> |p| == |lens| && forall k :: 0 <= k < |lens| ==> k in p
  {
    && IsPermutation(p, |lens|)
    && (PermutationCoversAll(p, |lens|);
        forall i, j :: 0 <= i < j < |p| ==> lens[p[i]] >= lens[p[j]])
  }

  /** What `sorted_index.sort(0, descending=False)` returns as its index list. */
  predicate SortsAscending(p: seq<int>, q: seq<int>)
    requires forall k :: 0 <= k < |q| ==> 0 <= q[k] < |p|
    ensures SortsAscending(p, q) ==> |q| == |p| && forall k :: 0 <= k < |p| ==> k in q
  {
    && IsPermutation(q, |p|)
    && (PermutationCoversAll(q, |p|);
        forall i, j :: 0 <= i < j < |q| ==> p[q[i]] <= p[q[j]])
  }

  function NegatedLength(lens: seq<int>): int -> int
  {
    i => if 0 <= i < |lens| then 0 - lens[i] else 0
  }

  /** Some index list always sorts the lengths descending: the stable sort of
      0..n-1 by negated length is one. */
  lemma {:induction false} DescendingOrderExists(lens: seq<int>)
    ensures SortsDescending(lens, SortBy(Range(0, |lens|), NegatedLength(lens)))
  {
    var r := Range(0, |lens|);
    var key := NegatedLength(lens);
    var p := SortBy(r, key);
    SortByCorrect(r, key);
    forall k | 0 <= k < |p|
      ensures 0 <= p[k] < |lens|
    {
      assert p[k] in multiset(p);
    }
    PermutedDistinct(p, r);
    forall i, j | 0 <= i < j < |p|
      ensures lens[p[i]] >= lens[p[j]]
    {
      assert key(p[i]) <= key(p[j]);
    }
  }

  lemma {:induction false} IncreasingLowerBound(s: seq<int>, k: int)
    requires forall i :: 0 <= i < |s| ==> 0 <= s[i]
    requires forall i, j :: 0 <= i < j < |s| ==> s[i] < s[j]
    requires 0 <= k < |s|
    ensures k <= s[k]
  {
    if k > 0 {
      IncreasingLowerBound(s, k - 1);
    }
  }

  lemma {:induction false} IncreasingUpperBound(s: seq<int>, k: int)
    requires forall i :: 0 <= i < |s| ==> s[i] < |s|
    requires forall i, j :: 0 <= i < j < |s| ==> s[i] < s[j]
    requires 0 <= k < |s|
    ensures s[k] <= k
    decreases |s| - k
  {
    if k < |s| - 1 {
      IncreasingUpperBound(s, k + 1);
    }
  }

  /** The ascending argsort of a permutation is its inverse: although the
      sort need not be stable, the values are distinct, so its index list is
      fully determined. */
  lemma {:induction false} ArgsortIsInverse(p: seq<int>, q: seq<int>)
    requires IsPermutation(p, |p|)
    requires forall k :: 0 <= k < |q| ==> 0 <= q[k] < |p|
    requires SortsAscending(p, q)
    ensures q == Inverse(p)
  {
    var s := Gather(p, q);
    forall i, j | 0 <= i < j < |s|
      ensures s[i] < s[j]
    {
      assert q[i] != q[j];
    }
    InverseOfPermutation(p, |p|);
    forall k | 0 <= k < |q|
      ensures q[k] == Inverse(p)[k]
    {
      IncreasingLowerBound(s, k);
      IncreasingUpperBound(s, k);
      assert p[q[k]] == k;
    }
  }

  /** `xs[sorted_index][original_index]` is xs again. */
  lemma {:induction false} RestoreUndoesSort<T>(xs: seq<T>, p: seq<int>)
    requires IsPermutation(p, |xs|)
    ensures forall k :: 0 <= k < |xs| ==> 0 <= Inverse(p)[k] < |xs|
    ensures Gather(Gather(xs, p), Inverse(p)) == xs
  {
    InverseOfPermutation(p, |xs|);
  }

  /** `sorted_index[original_index]` is 0, 1, ..., n-1. */
  lemma {:induction false} SortIndexRestored(p: seq<int>)
    requires IsPermutation(p, |p|)
    ensures forall k :: 0 <= k < |p| ==> 0 <= Inverse(p)[k] < |p|
    ensures Gather(p, Inverse(p)) == Range(0, |p|)
  {
    InverseOfPermutation(p, |p|);
  }

  /** The pattern of both forward passes: sort the rows by descending length
      with p, run `step` on every sorted row with its length, and index the
      results with q, the argsort of p. In the encoder an item is a padded
      source row; in the decoder it is a padded target row with the encoder's
      hidden state for that sentence (`encoder_hidden[:, sorted_index]`). */
  function SortRunRestore<T, U>(items: seq<T>, lens: seq<int>, p: seq<int>, q: seq<int>,
                                step: (T, int) -> U): (out: seq<U>)
    requires |items| == |lens|
    requires SortsDescending(lens, p)
    requires forall k :: 0 <= k < |q| ==> 0 <= q[k] < |p|
    requires SortsAscending(p, q)
    ensures |out| == |items|
    ensures forall i :: 0 <= i < |items| ==> out[i] == step(items[i], lens[i])
  {
    var sortedItems := Gather(items, p);
    var sortedLens := Gather(lens, p);
    var sortedOut := seq(|p|, k requires 0 <= k < |p| => step(sortedItems[k], sortedLens[k]));
    ArgsortIsInverse(p, q);
    InverseOfPermutation(p, |p|);
    Gather(sortedOut, q)
  }

  /** `Encoder.forward` around its recurrent layer: `run` stands for the
      embedding, packing, GRU and unpacking of one source row of the given
      length. */
  function EncoderForward<U>(x: seq<seq<nat>>, lengths: seq<int>, p: seq<int>, q: seq<int>,
                             run: (seq<nat>, int) -> U): (out: seq<U>)
    requires |x| == |lengths|
    requires SortsDescending(lengths, p)
    requires forall k :: 0 <= k < |q| ==> 0 <= q[k] < |p|
    requires SortsAscending(p, q)
    ensures |out| == |x|
    ensures forall i :: 0 <= i < |x| ==> out[i] == run(x[i], lengths[i])
  {
    SortRunRestore(x, lengths, p, q, run)
  }

  /** `Decoder.forward` around its recurrent layer: the target rows and the
      encoder's hidden states are sorted by the same index, and `run` stands
      for the embedding, packing, GRU and unpacking of one target row of the
      given length starting from its hidden state. */
  function DecoderForward<H, U>(y: seq<seq<nat>>, yLengths: seq<int>, hidden: seq<H>,
                                p: seq<int>, q: seq<int>,
                                run: (seq<nat>, int, H) -> U): (out: seq<U>)
    requires |y| == |yLengths| == |hidden|
    requires SortsDescending(yLengths, p)
    requires forall k :: 0 <= k < |q| ==> 0 <= q[k] < |p|
    requires SortsAscending(p, q)
    ensures |out| == |y|
    ensures forall i :: 0 <= i < |y| ==> out[i] == run(y[i], yLengths[i], hidden[i])
  {
    var items := seq(|y|, i requires 0 <= i < |y| => (y[i], hidden[i]));
    SortRunRestore(items, yLengths, p, q, (item: (seq<nat>, H), len: int) => run(item.0, len, item.1))
  }
}
