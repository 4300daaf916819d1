/** Sequence helpers shared by the pipeline: index ranges (numpy's arange),
    maxima, first positions, gathering by an index list (tensor[index]) and
    permutations of 0..n-1 with their inverse (argsort of a permutation). */
module Seqs {

  /** `np.arange(lo, hi)` / `range(lo, hi)`: lo, lo+1, ..., hi-1. */
  function Range(lo: int, hi: int): (r: seq<int>)
    ensures |r| == if lo <= hi then hi - lo else 0
    ensures forall k :: 0 <= k < |r| ==> r[k] == lo + k
  {
    if lo >= hi then [] else seq(hi - lo, k => lo + k)
  }

  /** Largest element of a non-empty sequence (`np.max`, `tensor.max()`). */
  function Max(s: seq<int>): (m: int)
    requires |s| > 0
    ensures m in s
    ensures forall k :: 0 <= k < |s| ==> s[k] <= m
  {
    if |s| == 1 then s[0]
    else
      var rest := Max(s[1..]);
      if s[0] >= rest then s[0] else rest
  }

  /** Position of the first occurrence of x in s, or |s| when x is absent. */
  function IndexOf<T(==)>(s: seq<T>, x: T): (i: nat)
    ensures i <= |s|
    ensures i < |s| <==> x in s
    ensures i < |s| ==> s[i] == x
    ensures forall j :: 0 <= j < i ==> s[j] != x
  {
    if s == [] then 0
    else if s[0] == x then 0
    else 1 + IndexOf(s[1..], x)
  }

  /** No element occurs twice. */
  predicate Distinct<T(==)>(s: seq<T>)
  {
    forall i, j :: 0 <= i < j < |s| ==> s[i] != s[j]
  }

  /** `xs[idx]` for a list of indices: row k of the result is row idx[k]. */
  function Gather<T>(xs: seq<T>, idx: seq<int>): (r: seq<T>)
    requires forall k :: 0 <= k < |idx| ==> 0 <= idx[k] < |xs|
    ensures |r| == |idx|
    ensures forall k :: 0 <= k < |idx| ==> r[k] == xs[idx[k]]
  {
    seq(|idx|, k requires 0 <= k < |idx| => xs[idx[k]])
  }

  /** p lists each of 0..n-1 exactly once. */
  predicate IsPermutation(p: seq<int>, n: nat)
  {
    && |p| == n
    && (forall k :: 0 <= k < |p| ==> 0 <= p[k] < n)
    && Distinct(p)
  }

  /** Inverse permutation: position of k in p. For a permutation this is
      what sorting p ascending returns as its index list (argsort). */
  function Inverse(p: seq<int>): (q: seq<int>)
    ensures |q| == |p|
    ensures forall k :: 0 <= k < |p| ==> 0 <= q[k] <= |p|
    ensures forall k :: 0 <= k < |p| ==> (q[k] < |p| <==> k in p)
    ensures forall k :: 0 <= k < |p| && q[k] < |p| ==> p[q[k]] == k
  {
    seq(|p|, k => IndexOf(p, k))
  }

  /** Every value of 0..n-1 occurs in a permutation of 0..n-1. */
  lemma {:induction false} PermutationCovers(p: seq<int>, n: nat, v: int)
    requires IsPermutation(p, n)
    requires 0 <= v < n
    ensures v in p
  {
    // The n values of p are distinct members of 0..n-1, so they are all of them.
    var present := set x | x in p;
    var all := set x | x in Range(0, n);
    forall x | x in p
      ensures x in all
    {
      var k :| 0 <= k < |p| && p[k] == x;
      assert Range(0, n)[x] == x;
    }
    assert Range(0, n)[v] == v;
    ElementsCard(Range(0, n));
    ElementsCard(p);
    if v !in p {
      assert present <= all - {v};
      SubsetCard(present, all - {v});
      assert false;
    }
  }

  /** A permutation of 0..n-1 lists every one of 0..n-1. */
  lemma PermutationCoversAll(p: seq<int>, n: nat)
    requires IsPermutation(p, n)
    ensures forall v :: 0 <= v < n ==> v in p
  {
    forall v | 0 <= v < n
      ensures v in p
    {
      PermutationCovers(p, n, v);
    }
  }

  /** A sequence without repetitions has as many elements as its length. */
  lemma {:induction false} ElementsCard<T>(p: seq<T>)
    requires Distinct(p)
    ensures |set x | x in p| == |p|
  {
    if |p| == 0 {
      assert (set x | x in p) == {};
    } else {
      var init := p[..|p| - 1];
      ElementsCard(init);
      assert p == init + [p[|p| - 1]];
      assert (set x | x in p) == (set x | x in init) + {p[|p| - 1]};
    }
  }

  lemma SubsetCard<T>(a: set<T>, b: set<T>)
    requires a <= b
    ensures |a| <= |b|
  {
    assert b == a + (b - a);
  }

  /** The inverse of a permutation is a permutation and undoes it on both sides. */
  lemma {:induction false} InverseOfPermutation(p: seq<int>, n: nat)
    requires IsPermutation(p, n)
    ensures IsPermutation(Inverse(p), n)
    ensures forall k :: 0 <= k < n ==> p[Inverse(p)[k]] == k
    ensures forall i :: 0 <= i < n ==> Inverse(p)[p[i]] == i
  {
    var q := Inverse(p);
    forall k | 0 <= k < n
      ensures 0 <= q[k] < n && p[q[k]] == k
    {
      PermutationCovers(p, n, k);
    }
    forall i | 0 <= i < n
      ensures q[p[i]] == i
    {
      var j := IndexOf(p, p[i]);
      assert p[j] == p[i];
    }
    forall i, j | 0 <= i < j < n
      ensures q[i] != q[j]
    {
      assert p[q[i]] == i && p[q[j]] == j;
    }
  }

  /** In a sequence without repetitions every value occurs at most once. */
  lemma {:induction false} DistinctOccursOnce<T>(s: seq<T>, x: T)
    requires Distinct(s)
    ensures multiset(s)[x] <= 1
  {
    if s != [] {
      DistinctOccursOnce(s[1..], x);
      assert s == [s[0]] + s[1..];
      assert s[0] !in s[1..];
    }
  }

  /** A rearrangement of a sequence without repetitions has none either. */
  lemma {:induction false} PermutedDistinct<T>(a: seq<T>, b: seq<T>)
    requires multiset(a) == multiset(b)
    requires Distinct(b)
    ensures Distinct(a)
  {
    forall i, j | 0 <= i < j < |a|
      ensures a[i] != a[j]
    {
      if a[i] == a[j] {
        assert a == a[..j] + a[j..];
        assert a[i] in a[..j];
        assert a[j] in a[j..];
        assert multiset(a)[a[i]] == multiset(a[..j])[a[i]] + multiset(a[j..])[a[i]];
        DistinctOccursOnce(b, a[i]);
      }
    }
  }
}
