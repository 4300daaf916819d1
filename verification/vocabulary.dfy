/** Vocabulary construction (`create_dict`) and its inverse (index2word).

    A `Counter` is filled word by word over the corpus; it remembers each word's
    count and, being a dict, the order in which words were first inserted.
    `most_common(max_words)` returns (word, count) items sorted by count,
    largest first, ties in insertion order, cut to `max_words` items. Kept word
    number i (from 0) receives index i + 2; then "PAD" is set to 0 and "UNK" to 1,
    overriding whatever a kept word of that spelling had received. */
module Vocabulary {
  import opened Seqs
  import opened StableSort

  const PAD := "PAD"
  const UNK := "UNK"

  /** One item of `Counter.most_common`: a word and its frequency. */
  datatype Entry = Entry(word: string, count: nat)

  /** The words of a list of items. */
  function Words(items: seq<Entry>): (ws: seq<string>)
    ensures |ws| == |items|
    ensures forall i :: 0 <= i < |items| ==> ws[i] == items[i].word
  {
    seq(|items|, i requires 0 <= i < |items| => items[i].word)
  }

  /** Some sentence holds w. */
  predicate InSome(ss: seq<seq<string>>, w: string)
  {
    exists i :: 0 <= i < |ss| && w in ss[i]
  }

  /** All words of all sentences, in reading order. */
  function Flatten(ss: seq<seq<string>>): (ws: seq<string>)
    ensures forall w :: w in ws <==> InSome(ss, w)
  {
    if ss == [] then [] else Flatten(ss[..|ss| - 1]) + ss[|ss| - 1]
  }

  /** The distinct words of ws in order of first occurrence: the key order of a
      Counter filled from ws. */
  function FirstSeen(ws: seq<string>): (order: seq<string>)
    ensures Distinct(order)
    ensures forall w :: w in order <==> w in ws
  {
    if ws == [] then []
    else
      var init, last := ws[..|ws| - 1], ws[|ws| - 1];
      assert ws == init + [last];
      var prev := FirstSeen(init);
      if last in prev then prev else prev + [last]
  }

  /** What a Counter holds after counting ws: exactly the words of ws, each
      with its number of occurrences. */
  function CountMap(ws: seq<string>): (counts: map<string, nat>)
    ensures forall w :: w in counts <==> w in ws
    ensures forall w :: w in counts ==> counts[w] == multiset(ws)[w]
  {
    map w | w in ws :: multiset(ws)[w]
  }

  /** `Counter.items()`: the entries in key order. */
  function Items(order: seq<string>, counts: map<string, nat>): (items: seq<Entry>)
    requires forall i :: 0 <= i < |order| ==> order[i] in counts
    ensures |items| == |order|
    ensures forall i :: 0 <= i < |order| ==> items[i] == Entry(order[i], counts[order[i]])
  {
    seq(|order|, i requires 0 <= i < |order| => Entry(order[i], counts[order[i]]))
  }

  /** e is the Counter entry of a word of ws: the word and its (positive)
      number of occurrences. */
  predicate Tallies(ws: seq<string>, e: Entry)
  {
    e.word in ws && e.count == multiset(ws)[e.word] > 0
  }

  /** The items of the Counter of ws, without going through a map. */
  function TallyOf(ws: seq<string>): (items: seq<Entry>)
    ensures |items| == |FirstSeen(ws)|
    ensures forall i :: 0 <= i < |items| ==> Tallies(ws, items[i])
  {
    var order := FirstSeen(ws);
    assert forall i :: 0 <= i < |order| ==> order[i] in order;
    seq(|order|, i requires 0 <= i < |order| => Entry(order[i], multiset(ws)[order[i]]))
  }

  /** Sort key of `most_common`: larger counts first. */
  function ByCountDesc(e: Entry): int
  {
    0 - e.count as int
  }

  /** `most_common(n)`: a stable sort by descending count, cut to n items.
      `heapq.nlargest` returns nothing when n is 0 or negative. */
  function MostCommon(items: seq<Entry>, n: int): (r: seq<Entry>)
    ensures n <= 0 ==> r == []
    ensures 0 < n ==> |r| == if n < |items| then n else |items|
  {
    var sorted := SortBy(items, ByCountDesc);
    sorted[..Taken(n, |items|)]
  }

  /** Number of items `most_common(n)` returns out of `size`. */
  function Taken(n: int, size: nat): nat
  {
    if n <= 0 then 0 else if n < size then n else size
  }

  /** The words `create_dict` keeps, with their counts, most frequent first. */
  function Kept(sentences: seq<seq<string>>, maxWords: int): (kept: seq<Entry>)
    ensures |kept| <= |FirstSeen(Flatten(sentences))|
    ensures maxWords <= 0 ==> kept == []
    ensures 0 < maxWords ==> |kept| <= maxWords
  {
    MostCommon(TallyOf(Flatten(sentences)), maxWords)
  }

  /** `{w[0]: index+2 for index, w in enumerate(most_common_words)}`; a later
      item overrides an earlier one with the same word, as in the dict
      comprehension. */
  function Indexed(kept: seq<Entry>): (d: map<string, nat>)
    ensures forall w :: w in d <==> w in Words(kept)
    ensures forall w :: w in d ==> 2 <= d[w] < |kept| + 2
  {
    if kept == [] then map[]
    else
      var prev := Indexed(kept[..|kept| - 1]);
      var d := prev[kept[|kept| - 1].word := |kept| + 1];
      assert Words(kept) == Words(kept[..|kept| - 1]) + [kept[|kept| - 1].word];
      d
  }

  /** The dictionary `create_dict` returns for the kept items. */
  function WordDict(kept: seq<Entry>): (d: map<string, nat>)
    ensures forall w :: w in d <==> w == PAD || w == UNK || w in Words(kept)
    ensures forall w :: w in d ==> d[w] < |kept| + 2
  {
    Indexed(kept)[PAD := 0][UNK := 1]
  }

  lemma PrefixStep<T>(a: seq<T>, s: seq<T>, j: nat)
    requires j < |s|
    ensures a + s[..j + 1] == a + s[..j] + [s[j]]
  {
    assert s[..j + 1] == s[..j] + [s[j]];
  }

  lemma FlattenStep(ss: seq<seq<string>>, i: nat)
    requires i < |ss|
    ensures Flatten(ss[..i + 1]) == Flatten(ss[..i]) + ss[i]
  {
    assert ss[..i + 1][..i] == ss[..i];
  }

  /** Counting one more word: the Counter update `word_count[word] += 1`, and
      a word seen for the first time joins the key order at the end. */
  lemma CountOne(ws: seq<string>, w: string)
    ensures CountMap(ws + [w])
         == CountMap(ws)[w := if w in CountMap(ws) then CountMap(ws)[w] + 1 else 1]
    ensures FirstSeen(ws + [w]) == if w in CountMap(ws) then FirstSeen(ws) else FirstSeen(ws) + [w]
  {
    CountMapAppend(ws, w);
    FirstSeenAppend(ws, w);
  }

  lemma CountMapAppend(ws: seq<string>, w: string)
    ensures CountMap(ws + [w])
         == CountMap(ws)[w := if w in CountMap(ws) then CountMap(ws)[w] + 1 else 1]
  {
    assert multiset(ws + [w]) == multiset(ws) + multiset{w};
  }

  lemma FirstSeenAppend(ws: seq<string>, w: string)
    ensures FirstSeen(ws + [w]) == if w in ws then FirstSeen(ws) else FirstSeen(ws) + [w]
  {
    assert (ws + [w])[..|ws + [w]| - 1] == ws;
  }

  /** Once all words are counted, the Counter's items are TallyOf's. */
  lemma ItemsOfCounter(ws: seq<string>, order: seq<string>, counts: map<string, nat>)
    requires order == FirstSeen(ws) && counts == CountMap(ws)
    ensures forall i :: 0 <= i < |order| ==> order[i] in counts
    ensures Items(order, counts) == TallyOf(ws)
  {
  }

  /** The outer loop of `create_dict` that fills the Counter: `order` is its
      key order, `counts` its contents. */
  method CountWords(sentences: seq<seq<string>>)
    returns (order: seq<string>, counts: map<string, nat>)
    ensures order == FirstSeen(Flatten(sentences))
    ensures counts == CountMap(Flatten(sentences))
  {
    order, counts := [], map[];
    for i := 0 to |sentences|
      invariant order == FirstSeen(Flatten(sentences[..i]))
      invariant counts == CountMap(Flatten(sentences[..i]))
    {
      FlattenStep(sentences, i);
      order, counts := CountSentence(Flatten(sentences[..i]), sentences[i], order, counts);
    }
    assert sentences[..|sentences|] == sentences;
  }

  /** The inner loop: `word_count[word] += 1` for each word of one sentence,
      continuing a Counter that has already counted the words `before`. */
  method CountSentence(ghost before: seq<string>, sentence: seq<string>,
                       order0: seq<string>, counts0: map<string, nat>)
    returns (order: seq<string>, counts: map<string, nat>)
    requires order0 == FirstSeen(before) && counts0 == CountMap(before)
    ensures order == FirstSeen(before + sentence)
    ensures counts == CountMap(before + sentence)
  {
    order, counts := order0, counts0;
    assert before + sentence[..0] == before;
    for j := 0 to |sentence|
      invariant order == FirstSeen(before + sentence[..j])
      invariant counts == CountMap(before + sentence[..j])
    {
      PrefixStep(before, sentence, j);
      order, counts := CountWord(before + sentence[..j], sentence[j], order, counts);
    }
    assert sentence[..|sentence|] == sentence;
  }

  /** `word_count[word] += 1`: a Counter that has counted `seen` counts one
      more word. */
  method CountWord(ghost seen: seq<string>, word: string,
                   order0: seq<string>, counts0: map<string, nat>)
    returns (order: seq<string>, counts: map<string, nat>)
    requires order0 == FirstSeen(seen) && counts0 == CountMap(seen)
    ensures order == FirstSeen(seen + [word])
    ensures counts == CountMap(seen + [word])
  {
    CountOne(seen, word);
    order, counts := order0, counts0;
    if word in counts {
      counts := counts[word := counts[word] + 1];
    } else {
      order := order + [word];
      counts := counts[word := 1];
    }
  }

  /** `create_dict(sentences, max_words)`: counts every word, keeps the
      `max_words` most common, numbers them from 2 and reserves 0 and 1. */
  method CreateDict(sentences: seq<seq<string>>, maxWords: int)
    returns (wordDict: map<string, nat>, totalWords: nat)
    ensures totalWords == |Kept(sentences, maxWords)| + 2
    ensures wordDict == WordDict(Kept(sentences, maxWords))
  {
    var order, counts := CountWords(sentences);
    ItemsOfCounter(Flatten(sentences), order, counts);
    var mostCommonWords := MostCommon(Items(order, counts), maxWords);
    totalWords := |mostCommonWords| + 2;
    wordDict := Indexed(mostCommonWords);
    wordDict := wordDict[PAD := 0];
    wordDict := wordDict[UNK := 1];
  }

  // ---------------------------------------------------------------------------
  // The Counter's key order

  lemma {:induction false} IndexOfAppend<T>(a: seq<T>, b: seq<T>, x: T)
    ensures x in a ==> IndexOf(a + b, x) == IndexOf(a, x)
    ensures x !in a ==> IndexOf(a + b, x) == |a| + IndexOf(b, x)
  {
    if a != [] {
      IndexOfAppend(a[1..], b, x);
      assert (a + b)[1..] == a[1..] + b;
    } else {
      assert a + b == b;
    }
  }

  /** Counter keys are ordered by where each word first occurs in the corpus. */
  lemma {:induction false} FirstSeenOrder(ws: seq<string>)
    ensures forall i, j :: 0 <= i < j < |FirstSeen(ws)| ==>
              IndexOf(ws, FirstSeen(ws)[i]) < IndexOf(ws, FirstSeen(ws)[j])
  {
    if ws != [] {
      var init, last := ws[..|ws| - 1], ws[|ws| - 1];
      assert ws == init + [last];
      FirstSeenOrder(init);
      var prev := FirstSeen(init);
      forall x | x in prev
        ensures IndexOf(ws, x) == IndexOf(init, x) < |init|
      {
        IndexOfAppend(init, [last], x);
      }
      if last !in init {
        IndexOfAppend(init, [last], last);
      }
    }
  }

  /** The item of each distinct word carries its number of occurrences, and
      the items' words are those of the corpus, each once. */
  lemma TallyFacts(ws: seq<string>)
    ensures forall i :: 0 <= i < |TallyOf(ws)| ==>
              TallyOf(ws)[i].word == FirstSeen(ws)[i]
              && TallyOf(ws)[i].count == multiset(ws)[TallyOf(ws)[i].word]
    ensures Words(TallyOf(ws)) == FirstSeen(ws)
    ensures Distinct(TallyOf(ws))
  {
  }

  // ---------------------------------------------------------------------------
  // most_common

  /** Every kept item is an item of the Counter. */
  lemma KeptFromTally(ws: seq<string>, n: int, i: int)
    requires 0 <= i < |MostCommon(TallyOf(ws), n)|
    ensures MostCommon(TallyOf(ws), n)[i] in TallyOf(ws)
  {
    var items := TallyOf(ws);
    var sorted := SortBy(items, ByCountDesc);
    SortByPermutes(items, ByCountDesc);
    assert MostCommon(items, n)[i] == sorted[i];
    assert sorted[i] in multiset(sorted);
  }

  /** Each kept word occurs in the corpus and carries its exact count. */
  lemma {:induction false} KeptCounts(sentences: seq<seq<string>>, maxWords: int)
    ensures forall i :: 0 <= i < |Kept(sentences, maxWords)| ==>
              var e := Kept(sentences, maxWords)[i];
              e.word in Flatten(sentences) && e.count == multiset(Flatten(sentences))[e.word]
  {
    var ws := Flatten(sentences);
    TallyFacts(ws);
    forall i | 0 <= i < |Kept(sentences, maxWords)|
      ensures var e := Kept(sentences, maxWords)[i];
              e.word in ws && e.count == multiset(ws)[e.word]
    {
      KeptFromTally(ws, maxWords, i);
    }
  }

  /** No word is kept twice. */
  lemma {:induction false} KeptDistinct(sentences: seq<seq<string>>, maxWords: int)
    ensures Distinct(Words(Kept(sentences, maxWords)))
  {
    var ws := Flatten(sentences);
    var items := TallyOf(ws);
    var sorted := SortBy(items, ByCountDesc);
    var kept := Kept(sentences, maxWords);
    TallyFacts(ws);
    SortByPermutes(items, ByCountDesc);
    PermutedDistinct(sorted, items);
    forall i, j | 0 <= i < j < |kept|
      ensures kept[i].word != kept[j].word
    {
      assert kept[i] == sorted[i] && kept[j] == sorted[j];
      KeptFromTally(ws, maxWords, i);
      KeptFromTally(ws, maxWords, j);
      var a :| 0 <= a < |items| && items[a] == kept[i];
      var b :| 0 <= b < |items| && items[b] == kept[j];
      assert Words(items)[a] == kept[i].word && Words(items)[b] == kept[j].word;
    }
  }

  /** Kept items come most frequent first. */
  lemma {:induction false} KeptByFrequency(sentences: seq<seq<string>>, maxWords: int)
    ensures forall i, j :: 0 <= i < j < |Kept(sentences, maxWords)| ==>
              Kept(sentences, maxWords)[i].count >= Kept(sentences, maxWords)[j].count
  {
    var items := TallyOf(Flatten(sentences));
    SortByOrdered(items, ByCountDesc);
    var sorted := SortBy(items, ByCountDesc);
    forall i, j | 0 <= i < j < |Kept(sentences, maxWords)|
      ensures Kept(sentences, maxWords)[i].count >= Kept(sentences, maxWords)[j].count
    {
      assert ByCountDesc(sorted[i]) <= ByCountDesc(sorted[j]);
    }
  }

  /** No word left out of the vocabulary is more frequent than a kept one. */
  lemma {:induction false} KeptMostFrequent(sentences: seq<seq<string>>, maxWords: int, w: string)
    requires w in Flatten(sentences)
    requires w !in Words(Kept(sentences, maxWords))
    ensures forall i :: 0 <= i < |Kept(sentences, maxWords)| ==>
              multiset(Flatten(sentences))[w] <= Kept(sentences, maxWords)[i].count
  {
    var ws := Flatten(sentences);
    var p := PositionInSorted(ws, w);
    CutDominates(SortBy(TallyOf(ws), ByCountDesc), Taken(maxWords, |TallyOf(ws)|), p);
  }

  /** In items sorted by descending count and cut to their first m, an item
      left out counts no more than any item kept. */
  lemma CutDominates(sorted: seq<Entry>, m: nat, p: int)
    requires m <= |sorted|
    requires 0 <= p < |sorted| && sorted[p].word !in Words(sorted[..m])
    requires SortedBy(sorted, ByCountDesc)
    ensures forall i :: 0 <= i < m ==> sorted[p].count <= sorted[i].count
  {
  }

  /** Where a corpus word lands after sorting the Counter's items. */
  lemma PositionInSorted(ws: seq<string>, w: string) returns (p: nat)
    requires w in ws
    ensures p < |SortBy(TallyOf(ws), ByCountDesc)|
    ensures SortBy(TallyOf(ws), ByCountDesc)[p] == Entry(w, multiset(ws)[w])
    ensures SortedBy(SortBy(TallyOf(ws), ByCountDesc), ByCountDesc)
  {
    var items := TallyOf(ws);
    var sorted := SortBy(items, ByCountDesc);
    TallyFacts(ws);
    SortByPermutes(items, ByCountDesc);
    var a := IndexOf(FirstSeen(ws), w);
    assert items[a] in multiset(sorted);
    p :| 0 <= p < |sorted| && sorted[p] == items[a];
    SortByOrdered(items, ByCountDesc);
  }

  /** Among kept words of equal frequency, the one met first in the corpus
      comes first (`most_common` is stable on the Counter's key order). */
  lemma {:induction false} KeptTiesByFirstOccurrence(sentences: seq<seq<string>>, maxWords: int, i: int, j: int)
    requires 0 <= i < j < |Kept(sentences, maxWords)|
    requires Kept(sentences, maxWords)[i].count == Kept(sentences, maxWords)[j].count
    ensures IndexOf(Flatten(sentences), Kept(sentences, maxWords)[i].word)
          < IndexOf(Flatten(sentences), Kept(sentences, maxWords)[j].word)
  {
    var ws := Flatten(sentences);
    var items := TallyOf(ws);
    var rank := (e: Entry) => IndexOf(ws, e.word);
    TallyFacts(ws);
    FirstSeenOrder(ws);
    forall a, b | 0 <= a < b < |items|
      ensures rank(items[a]) < rank(items[b])
    {
      assert items[a].word == FirstSeen(ws)[a] && items[b].word == FirstSeen(ws)[b];
    }
    SortByTiesKeepRank(items, ByCountDesc, rank, i, j);
  }

  /** `max_words` words are kept, or every distinct word when there are fewer. */
  lemma {:induction false} KeptSize(sentences: seq<seq<string>>, maxWords: int)
    ensures var distinct := |set w | w in Flatten(sentences)|;
            |Kept(sentences, maxWords)|
              == if maxWords <= 0 then 0 else if maxWords < distinct then maxWords else distinct
  {
    var ws := Flatten(sentences);
    ElementsCard(FirstSeen(ws));
    assert (set w | w in FirstSeen(ws)) == (set w | w in ws);
  }

  // ---------------------------------------------------------------------------
  // word2index

  /** With distinct words, kept item i gets index i + 2. */
  lemma {:induction false} IndexedAt(kept: seq<Entry>, i: int)
    requires Distinct(Words(kept))
    requires 0 <= i < |kept|
    ensures Indexed(kept)[kept[i].word] == i + 2
  {
    if i < |kept| - 1 {
      var init := kept[..|kept| - 1];
      assert Words(init) == Words(kept)[..|kept| - 1];
      assert init[i] == kept[i];
      assert Words(kept)[i] != Words(kept)[|kept| - 1];
      IndexedAt(init, i);
    }
  }

  /** Reserved indices, and every other kept word numbered by its rank from 2. */
  lemma {:induction false} DictIndices(kept: seq<Entry>)
    requires Distinct(Words(kept))
    ensures WordDict(kept)[PAD] == 0 && WordDict(kept)[UNK] == 1
    ensures forall i :: 0 <= i < |kept| && kept[i].word != PAD && kept[i].word != UNK ==>
              WordDict(kept)[kept[i].word] == i + 2
  {
    forall i | 0 <= i < |kept| && kept[i].word != PAD && kept[i].word != UNK
      ensures WordDict(kept)[kept[i].word] == i + 2
    {
      IndexedAt(kept, i);
    }
  }

  /** `create_dict`'s dictionary: PAD is 0, UNK is 1, the other kept words
      are numbered 2, 3, ... in order of decreasing frequency, the keys are
      those words and the two reserved ones, and every index is below
      `total_words`. */
  lemma {:induction false} VocabularyIndices(sentences: seq<seq<string>>, maxWords: int)
    ensures var kept := Kept(sentences, maxWords);
            var d := WordDict(kept);
            && d[PAD] == 0 && d[UNK] == 1
            && (forall w :: w in d <==> w == PAD || w == UNK || w in Words(kept))
            && (forall i :: 0 <= i < |kept| && kept[i].word != PAD && kept[i].word != UNK ==>
                  d[kept[i].word] == i + 2)
            && (forall w :: w in d ==> d[w] < |kept| + 2)
  {
    KeptDistinct(sentences, maxWords);
    DictIndices(Kept(sentences, maxWords));
  }

  /** A more frequent kept word gets a smaller index. */
  lemma {:induction false} FrequentWordsFirst(sentences: seq<seq<string>>, maxWords: int, i: int, j: int)
    requires 0 <= i < |Kept(sentences, maxWords)| && 0 <= j < |Kept(sentences, maxWords)|
    requires Kept(sentences, maxWords)[i].word !in {PAD, UNK}
    requires Kept(sentences, maxWords)[j].word !in {PAD, UNK}
    requires Kept(sentences, maxWords)[i].count > Kept(sentences, maxWords)[j].count
    ensures var d := WordDict(Kept(sentences, maxWords));
            d[Kept(sentences, maxWords)[i].word] < d[Kept(sentences, maxWords)[j].word]
  {
    KeptDistinct(sentences, maxWords);
    KeptByFrequency(sentences, maxWords);
    CountOrderIndices(Kept(sentences, maxWords), i, j);
  }

  /** In a list of distinct words ordered by non-increasing count, a strictly
      more frequent word comes earlier and so gets the smaller index. */
  lemma {:induction false} CountOrderIndices(kept: seq<Entry>, i: int, j: int)
    requires Distinct(Words(kept))
    requires forall a, b :: 0 <= a < b < |kept| ==> kept[a].count >= kept[b].count
    requires 0 <= i < |kept| && 0 <= j < |kept|
    requires kept[i].word !in {PAD, UNK} && kept[j].word !in {PAD, UNK}
    requires kept[i].count > kept[j].count
    ensures WordDict(kept)[kept[i].word] < WordDict(kept)[kept[j].word]
  {
    IndexedAt(kept, i);
    IndexedAt(kept, j);
  }

  /** No two words share an index. */
  ghost predicate Injective(d: map<string, nat>)
  {
    forall u, v :: u in d && v in d && u != v ==> d[u] != d[v]
  }

  /** Even when a kept word is spelled "PAD" or "UNK", no two keys share an
      index, so index2word is well defined. */
  lemma {:induction false} WordDictInjective(kept: seq<Entry>)
    requires Distinct(Words(kept))
    ensures Injective(WordDict(kept))
  {
    var d := WordDict(kept);
    DictIndices(kept);
    forall u, v | u in d && v in d && u != v
      ensures d[u] != d[v]
    {
      if u != PAD && u != UNK && v != PAD && v != UNK {
        KeptWordIndex(kept, u);
        KeptWordIndex(kept, v);
      }
    }
  }

  /** A kept word other than PAD and UNK is numbered by its position. */
  lemma {:induction false} KeptWordIndex(kept: seq<Entry>, u: string)
    requires Distinct(Words(kept))
    requires u in Words(kept) && u != PAD && u != UNK
    ensures WordDict(kept)[u] == IndexOf(Words(kept), u) + 2
  {
    var a := IndexOf(Words(kept), u);
    assert kept[a].word == u;
    IndexedAt(kept, a);
  }

  /** When no kept word is spelled "PAD" or "UNK", the indices are exactly
      0 .. total_words - 1. */
  lemma {:induction false} IndicesCoverVocabulary(kept: seq<Entry>)
    requires Distinct(Words(kept))
    requires PAD !in Words(kept) && UNK !in Words(kept)
    ensures forall v :: v in WordDict(kept).Values <==> 0 <= v < |kept| + 2
  {
    var d := WordDict(kept);
    DictIndices(kept);
    forall v | 0 <= v < |kept| + 2
      ensures v in d.Values
    {
      if v >= 2 {
        assert Words(kept)[v - 2] == kept[v - 2].word;
        assert d[kept[v - 2].word] == v;
      } else if v == 0 {
        assert d[PAD] == 0;
      } else {
        assert d[UNK] == 1;
      }
    }
  }

  /** As written, a kept corpus word spelled "UNK" or "PAD" loses its index to
      the reserved one, so its slot i + 2 is counted in total_words but belongs
      to no word and has no index2word entry. */
  lemma {:induction false} ReservedWordLeavesGap(kept: seq<Entry>, i: int)
    requires Distinct(Words(kept))
    requires 0 <= i < |kept|
    requires kept[i].word in {PAD, UNK}
    ensures i + 2 < |kept| + 2
    ensures i + 2 !in WordDict(kept).Values
  {
    DictIndices(kept);
  }

  // ---------------------------------------------------------------------------
  // index2word

  /** `{v: k for k, v in word_dict.items()}`. */
  ghost function InverseDict(d: map<string, nat>): (inv: map<nat, string>)
    ensures inv.Keys == d.Values
  {
    map v | v in d.Values :: var w :| w in d && d[w] == v; w
  }

  /** For an injective dictionary the inverse maps each index back to its word
      and each word's index back to it. */
  lemma {:induction false} InverseDictRoundTrip(d: map<string, nat>)
    requires Injective(d)
    ensures forall w :: w in d ==> d[w] in InverseDict(d) && InverseDict(d)[d[w]] == w
    ensures forall v :: v in InverseDict(d) ==> InverseDict(d)[v] in d && d[InverseDict(d)[v]] == v
  {
    forall w | w in d
      ensures d[w] in InverseDict(d) && InverseDict(d)[d[w]] == w
    {
      assert d[w] in d.Values;
    }
  }
}
