/** Stable sorting by an integer key. Python's `sorted(..., key=f)` and
    `sorted(..., key=f, reverse=True)` (the latter is what `Counter.most_common`
    uses) are stable: elements with equal keys keep their relative order. The
    result of a stable sort is unique (lemma `StableSortUnique`), so it is
    modelled here by a plain insertion sort. A descending sort is the ascending
    sort by the negated key. */
module StableSort {

  /** Keys never decrease along s. */
  predicate SortedBy<T>(s: seq<T>, key: T -> int)
  {
    forall i, j :: 0 <= i < j < |s| ==> key(s[i]) <= key(s[j])
  }

  /** The elements of s whose key is k, in their order in s. */
  function WithKey<T>(s: seq<T>, key: T -> int, k: int): (r: seq<T>)
    ensures |r| <= |s|
    ensures forall i :: 0 <= i < |r| ==> key(r[i]) == k
    ensures forall i :: 0 <= i < |s| && key(s[i]) == k ==> s[i] in r
    ensures forall x :: x in r ==> x in s
  {
    if s == [] then []
    else (if key(s[0]) == k then [s[0]] else []) + WithKey(s[1..], key, k)
  }

  /** Places x after every leading element of r whose key is not larger. */
  function Insert<T>(x: T, r: seq<T>, key: T -> int): (r': seq<T>)
    ensures |r'| == |r| + 1
  {
    if r == [] then [x]
    else if key(x) < key(r[0]) then [x] + r
    else [r[0]] + Insert(x, r[1..], key)
  }

  /** Insertion sort, taking the elements of s from left to right. */
  function SortBy<T>(s: seq<T>, key: T -> int): (r: seq<T>)
    ensures |r| == |s|
  {
    if s == [] then [] else Insert(s[|s| - 1], SortBy(s[..|s| - 1], key), key)
  }

  /** Inserting keeps a lower bound that x and every element of r respect. */
  lemma {:induction false} InsertAbove<T>(x: T, r: seq<T>, key: T -> int, m: int)
    requires key(x) >= m
    requires forall i :: 0 <= i < |r| ==> key(r[i]) >= m
    ensures forall i :: 0 <= i < |Insert(x, r, key)| ==> key(Insert(x, r, key)[i]) >= m
  {
    if r != [] && key(x) >= key(r[0]) {
      InsertAbove(x, r[1..], key, m);
    }
  }

  lemma {:induction false} InsertSorted<T>(x: T, r: seq<T>, key: T -> int)
    requires SortedBy(r, key)
    ensures SortedBy(Insert(x, r, key), key)
    ensures multiset(Insert(x, r, key)) == multiset(r) + multiset{x}
  {
    InsertOrdered(x, r, key);
    InsertMultiset(x, r, key);
  }

  lemma {:induction false} InsertOrdered<T>(x: T, r: seq<T>, key: T -> int)
    requires SortedBy(r, key)
    ensures SortedBy(Insert(x, r, key), key)
  {
    if r != [] && key(x) >= key(r[0]) {
      var tail := Insert(x, r[1..], key);
      InsertOrdered(x, r[1..], key);
      InsertAbove(x, r[1..], key, key(r[0]));
      assert Insert(x, r, key) == [r[0]] + tail;
    }
  }

  lemma {:induction false} InsertMultiset<T>(x: T, r: seq<T>, key: T -> int)
    ensures multiset(Insert(x, r, key)) == multiset(r) + multiset{x}
  {
    if r != [] && key(x) >= key(r[0]) {
      InsertMultiset(x, r[1..], key);
      assert r == [r[0]] + r[1..];
    }
  }

  lemma {:induction false} WithKeyAppend<T>(s: seq<T>, t: seq<T>, key: T -> int, k: int)
    ensures WithKey(s + t, key, k) == WithKey(s, key, k) + WithKey(t, key, k)
  {
    if s != [] {
      WithKeyAppend(s[1..], t, key, k);
      assert (s + t)[1..] == s[1..] + t;
    } else {
      assert s + t == t;
    }
  }

  /** No element of r has key k. */
  lemma {:induction false} WithKeyAbsent<T>(r: seq<T>, key: T -> int, k: int)
    requires forall i :: 0 <= i < |r| ==> key(r[i]) != k
    ensures WithKey(r, key, k) == []
  {
    if r != [] {
      WithKeyAbsent(r[1..], key, k);
    }
  }

  /** Inserting x into a sorted list appends it to the elements of its key. */
  lemma {:induction false} InsertWithKey<T>(x: T, r: seq<T>, key: T -> int, k: int)
    requires SortedBy(r, key)
    ensures WithKey(Insert(x, r, key), key, k)
         == WithKey(r, key, k) + (if key(x) == k then [x] else [])
  {
    if r == [] {
    } else if key(x) < key(r[0]) {
      var r' := Insert(x, r, key);
      assert r' == [x] + r;
      assert r'[1..] == r;
      if key(x) == k {
        WithKeyAbsent(r, key, k);
      }
    } else {
      var tail := Insert(x, r[1..], key);
      InsertWithKey(x, r[1..], key, k);
      var r' := Insert(x, r, key);
      assert r' == [r[0]] + tail;
      assert r'[1..] == tail;
    }
  }

  /** The sort orders by key, permutes its input, and is stable: for every key,
      the elements carrying that key come out in the order they went in. */
  lemma {:induction false} SortByCorrect<T>(s: seq<T>, key: T -> int)
    ensures SortedBy(SortBy(s, key), key)
    ensures multiset(SortBy(s, key)) == multiset(s)
    ensures forall k :: WithKey(SortBy(s, key), key, k) == WithKey(s, key, k)
  {
    if s != [] {
      var init, last := s[..|s| - 1], s[|s| - 1];
      assert s == init + [last];
      SortByCorrect(init, key);
      InsertSorted(last, SortBy(init, key), key);
      forall k
        ensures WithKey(SortBy(s, key), key, k) == WithKey(s, key, k)
      {
        InsertWithKey(last, SortBy(init, key), key, k);
        WithKeyAppend(init, [last], key, k);
      }
    }
  }

  /** The ordering half of SortByCorrect. */
  lemma SortByOrdered<T>(s: seq<T>, key: T -> int)
    ensures SortedBy(SortBy(s, key), key)
  {
    SortByCorrect(s, key);
  }

  /** The permutation half of SortByCorrect. */
  lemma SortByPermutes<T>(s: seq<T>, key: T -> int)
    ensures multiset(SortBy(s, key)) == multiset(s)
  {
    SortByCorrect(s, key);
  }

  /** The first key of a sorted sequence is its least one. */
  lemma {:induction false} FirstKeyLeast<T>(r1: seq<T>, r2: seq<T>, key: T -> int)
    requires SortedBy(r1, key) && r1 != [] && r2 != []
    requires WithKey(r1, key, key(r2[0])) == WithKey(r2, key, key(r2[0]))
    ensures key(r1[0]) <= key(r2[0])
  {
    var w := WithKey(r2, key, key(r2[0]));
    assert r2[0] in w;
    var i :| 0 <= i < |w| && w[i] == r2[0];
    assert r2[0] in r1;
    var j :| 0 <= j < |r1| && r1[j] == r2[0];
    assert j == 0 || key(r1[0]) <= key(r1[j]);
  }

  /** Dropping a common first element keeps the per-key agreement. */
  lemma {:induction false} AgreeTails<T>(r1: seq<T>, r2: seq<T>, key: T -> int, k: int)
    requires r1 != [] && r2 != [] && r1[0] == r2[0]
    requires WithKey(r1, key, k) == WithKey(r2, key, k)
    ensures WithKey(r1[1..], key, k) == WithKey(r2[1..], key, k)
  {
    var h := if key(r1[0]) == k then [r1[0]] else [];
    assert WithKey(r1, key, k) == h + WithKey(r1[1..], key, k);
    assert WithKey(r2, key, k) == h + WithKey(r2[1..], key, k);
    assert WithKey(r1[1..], key, k) == WithKey(r1, key, k)[|h|..];
  }

  /** A non-empty sequence has a key whose elements are non-empty. */
  lemma {:induction false} NonEmptyAgree<T>(r1: seq<T>, r2: seq<T>, key: T -> int)
    requires r2 != []
    requires WithKey(r1, key, key(r2[0])) == WithKey(r2, key, key(r2[0]))
    ensures r1 != []
  {
    assert r2[0] in WithKey(r2, key, key(r2[0]));
  }

  lemma {:induction false} SameHead<T>(r1: seq<T>, r2: seq<T>, key: T -> int)
    requires SortedBy(r1, key) && SortedBy(r2, key) && r1 != [] && r2 != []
    requires forall k :: WithKey(r1, key, k) == WithKey(r2, key, k)
    ensures r1[0] == r2[0]
  {
    FirstKeyLeast(r1, r2, key);
    FirstKeyLeast(r2, r1, key);
    var k := key(r1[0]);
    assert WithKey(r1, key, k)[0] == r1[0];
    assert WithKey(r2, key, k)[0] == r2[0];
  }

  /** Two sorted sequences that agree on the elements of every key are equal:
      whatever stable sort algorithm is used, its result is SortBy's. */
  lemma {:induction false} StableSortUnique<T>(r1: seq<T>, r2: seq<T>, key: T -> int)
    requires SortedBy(r1, key) && SortedBy(r2, key)
    requires forall k :: WithKey(r1, key, k) == WithKey(r2, key, k)
    ensures r1 == r2
  {
    if r1 == [] || r2 == [] {
      if r2 != [] {
        NonEmptyAgree(r1, r2, key);
      } else if r1 != [] {
        NonEmptyAgree(r2, r1, key);
      }
    } else {
      SameHead(r1, r2, key);
      AllTailsAgree(r1, r2, key);
      StableSortUnique(r1[1..], r2[1..], key);
      assert r1 == [r1[0]] + r1[1..];
      assert r2 == [r2[0]] + r2[1..];
    }
  }

  /** Two sorted sequences with the same head that agree on every key have
      sorted tails that agree on every key. */
  lemma {:induction false} AllTailsAgree<T>(r1: seq<T>, r2: seq<T>, key: T -> int)
    requires SortedBy(r1, key) && SortedBy(r2, key)
    requires r1 != [] && r2 != [] && r1[0] == r2[0]
    requires forall k :: WithKey(r1, key, k) == WithKey(r2, key, k)
    ensures SortedBy(r1[1..], key) && SortedBy(r2[1..], key)
    ensures forall k :: WithKey(r1[1..], key, k) == WithKey(r2[1..], key, k)
  {
    forall k {
      AgreeTails(r1, r2, key, k);
    }
  }

  /** Stability read positionally: if, for the key of r[p], the elements
      carrying it have strictly increasing rank, then an earlier element of
      that key ranks lower than a later one. */
  lemma {:induction false} WithKeyRanked<T>(r: seq<T>, key: T -> int, rank: T -> int, p: int, q: int)
    requires 0 <= p < q < |r|
    requires key(r[p]) == key(r[q])
    requires forall i, j :: 0 <= i < j < |WithKey(r, key, key(r[p]))| ==>
               rank(WithKey(r, key, key(r[p]))[i]) < rank(WithKey(r, key, key(r[p]))[j])
    ensures rank(r[p]) < rank(r[q])
  {
    var k := key(r[p]);
    var w := WithKey(r, key, k);
    if p == 0 {
      WithKeyRankedHead(r, key, rank, q);
    } else {
      var w' := WithKey(r[1..], key, k);
      var h := if key(r[0]) == k then [r[0]] else [];
      assert w == h + w';
      forall i, j | 0 <= i < j < |w'|
        ensures rank(w'[i]) < rank(w'[j])
      {
        assert w'[i] == w[|h| + i] && w'[j] == w[|h| + j];
      }
      WithKeyRanked(r[1..], key, rank, p - 1, q - 1);
    }
  }

  lemma {:induction false} WithKeyRankedHead<T>(r: seq<T>, key: T -> int, rank: T -> int, q: int)
    requires 0 < q < |r|
    requires key(r[0]) == key(r[q])
    requires forall i, j :: 0 <= i < j < |WithKey(r, key, key(r[0]))| ==>
               rank(WithKey(r, key, key(r[0]))[i]) < rank(WithKey(r, key, key(r[0]))[j])
    ensures rank(r[0]) < rank(r[q])
  {
    var k := key(r[0]);
    var w, w' := WithKey(r, key, k), WithKey(r[1..], key, k);
    assert w == [r[0]] + w';
    assert r[1..][q - 1] == r[q];
    var j :| 0 <= j < |w'| && w'[j] == r[q];
    assert w[j + 1] == r[q] && w[0] == r[0];
  }

  /** Picking the elements of one key keeps a strictly increasing rank strictly
      increasing. */
  lemma {:induction false} WithKeyKeepsRank<T>(s: seq<T>, key: T -> int, rank: T -> int, k: int)
    requires forall i, j :: 0 <= i < j < |s| ==> rank(s[i]) < rank(s[j])
    ensures forall i, j :: 0 <= i < j < |WithKey(s, key, k)| ==>
              rank(WithKey(s, key, k)[i]) < rank(WithKey(s, key, k)[j])
  {
    if s != [] {
      WithKeyKeepsRank(s[1..], key, rank, k);
      var w' := WithKey(s[1..], key, k);
      forall i | 0 <= i < |w'|
        ensures rank(s[0]) < rank(w'[i])
      {
        assert w'[i] in s[1..];
        var j :| 0 <= j < |s[1..]| && s[1..][j] == w'[i];
        assert s[j + 1] == w'[i];
      }
      var h := if key(s[0]) == k then [s[0]] else [];
      assert WithKey(s, key, k) == h + w';
      forall i, j | 0 <= i < j < |WithKey(s, key, k)|
        ensures rank(WithKey(s, key, k)[i]) < rank(WithKey(s, key, k)[j])
      {
        if i >= |h| {
          assert WithKey(s, key, k)[i] == w'[i - |h|];
        }
        assert WithKey(s, key, k)[j] == w'[j - |h|];
      }
    }
  }

  /** A stable sort of a sequence whose ranks strictly increase keeps equal-key
      elements in increasing rank. */
  lemma SortByTiesKeepRank<T>(s: seq<T>, key: T -> int, rank: T -> int, p: int, q: int)
    requires forall i, j :: 0 <= i < j < |s| ==> rank(s[i]) < rank(s[j])
    requires 0 <= p < q < |s|
    requires key(SortBy(s, key)[p]) == key(SortBy(s, key)[q])
    ensures rank(SortBy(s, key)[p]) < rank(SortBy(s, key)[q])
  {
    var r := SortBy(s, key);
    SortByCorrect(s, key);
    WithKeyKeepsRank(s, key, rank, key(r[p]));
    WithKeyRanked(r, key, rank, p, q);
  }
}
