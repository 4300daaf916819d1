/** `encode`: words to vocabulary indices, unknown words to UNK's index, and
    optionally a stable sort of the sentence pairs by English length; and the
    index-to-word lookup that undoes it (`inv_en_dict[w] for w in ...`). */
module Encoding {
  import opened Seqs
  import opened StableSort
  import opened Vocabulary

  /** `d.get(w, d['UNK'])`. */
  function EncodeWord(d: map<string, nat>, w: string): (id: nat)
    requires UNK in d
    ensures w in d ==> id == d[w]
    ensures w !in d ==> id == d[UNK]
  {
    if w in d then d[w] else d[UNK]
  }

  /** `[d.get(w, d['UNK']) for w in sentence]`. Python evaluates `d['UNK']`
      for every word, so a dictionary without UNK fails on any non-empty
      sentence. */
  function EncodeSentence(d: map<string, nat>, s: seq<string>): (r: seq<nat>)
    requires s != [] ==> UNK in d
    ensures |r| == |s|
    ensures forall k :: 0 <= k < |s| ==> r[k] == EncodeWord(d, s[k])
  {
    seq(|s|, k requires 0 <= k < |s| => EncodeWord(d, s[k]))
  }

  /** Every non-empty sentence needs UNK in the dictionary. */
  predicate Encodable(d: map<string, nat>, ss: seq<seq<string>>)
  {
    forall i :: 0 <= i < |ss| && ss[i] != [] ==> UNK in d
  }

  function EncodeCorpus(d: map<string, nat>, ss: seq<seq<string>>): (r: seq<seq<nat>>)
    requires Encodable(d, ss)
    ensures |r| == |ss|
    ensures forall i :: 0 <= i < |ss| ==> r[i] == EncodeSentence(d, ss[i])
  {
    seq(|ss|, i requires 0 <= i < |ss| => EncodeSentence(d, ss[i]))
  }

  /** `key=lambda idx: len(out_en_sentences[idx])`. */
  function LengthKey(enc: seq<seq<nat>>): (key: int -> int)
    ensures forall i :: 0 <= i < |enc| ==> key(i) == |enc[i]|
  {
    i => if 0 <= i < |enc| then |enc[i]| else 0
  }

  /** `sorted(range(len(enc)), key=...)`: sentence numbers ordered by length. */
  function LengthOrder(enc: seq<seq<nat>>): (idx: seq<int>)
    ensures IsPermutation(idx, |enc|)
  {
    var r := Range(0, |enc|);
    SortByPermutes(r, LengthKey(enc));
    var idx := SortBy(r, LengthKey(enc));
    forall k | 0 <= k < |idx|
      ensures 0 <= idx[k] < |enc|
    {
      assert idx[k] in multiset(idx);
    }
    PermutedDistinct(idx, r);
    idx
  }

  /** `encode(en, cn, en_dict, cn_dict, sorted_by_len)`. When sorting, the
      Chinese list is indexed with the English sentence numbers, so it must be
      at least as long; any extra Chinese sentences are dropped. */
  function Encode(en: seq<seq<string>>, cn: seq<seq<string>>,
                  enDict: map<string, nat>, cnDict: map<string, nat>,
                  sortedByLen: bool): (r: (seq<seq<nat>>, seq<seq<nat>>))
    requires Encodable(enDict, en) && Encodable(cnDict, cn)
    requires sortedByLen ==> |cn| >= |en|
    ensures |r.0| == |en|
    ensures |r.1| == if sortedByLen then |en| else |cn|
    ensures EncodedPairs(en, cn, enDict, cnDict, r.0, r.1)
  {
    var outEn := EncodeCorpus(enDict, en);
    var outCn := EncodeCorpus(cnDict, cn);
    if sortedByLen then
      var idx := LengthOrder(outEn);
      EncodedVia(en, cn, enDict, cnDict, Gather(outEn, idx), Gather(outCn, idx), idx);
      (Gather(outEn, idx), Gather(outCn, idx))
    else
      EncodedVia(en, cn, enDict, cnDict, outEn, outCn, Range(0, |en|));
      (outEn, outCn)
  }

  /** Output sentence k is some source pair i encoded: the English sentence
      always, the Chinese one where the Chinese output has an entry k. */
  predicate EncodedPairs(en: seq<seq<string>>, cn: seq<seq<string>>,
                         enDict: map<string, nat>, cnDict: map<string, nat>,
                         outEn: seq<seq<nat>>, outCn: seq<seq<nat>>)
    requires Encodable(enDict, en) && Encodable(cnDict, cn)
  {
    forall k :: 0 <= k < |outEn| ==> PairFrom(en, cn, enDict, cnDict, outEn, outCn, k)
  }

  /** Output k is some source pair i encoded. */
  predicate PairFrom(en: seq<seq<string>>, cn: seq<seq<string>>,
                     enDict: map<string, nat>, cnDict: map<string, nat>,
                     outEn: seq<seq<nat>>, outCn: seq<seq<nat>>, k: int)
    requires Encodable(enDict, en) && Encodable(cnDict, cn)
    requires 0 <= k < |outEn|
  {
    exists i :: 0 <= i < |en| && outEn[k] == EncodeSentence(enDict, en[i])
                && (k < |outCn| ==> i < |cn| && outCn[k] == EncodeSentence(cnDict, cn[i]))
  }

  /** The source pair of output k being src[k] establishes `EncodedPairs`. */
  lemma {:induction false} EncodedVia(en: seq<seq<string>>, cn: seq<seq<string>>,
                                      enDict: map<string, nat>, cnDict: map<string, nat>,
                                      outEn: seq<seq<nat>>, outCn: seq<seq<nat>>, src: seq<int>)
    requires Encodable(enDict, en) && Encodable(cnDict, cn)
    requires |src| == |outEn|
    requires forall k :: 0 <= k < |outEn| ==>
               0 <= src[k] < |en| && outEn[k] == EncodeSentence(enDict, en[src[k]])
               && (k < |outCn| ==> src[k] < |cn| && outCn[k] == EncodeSentence(cnDict, cn[src[k]]))
    ensures EncodedPairs(en, cn, enDict, cnDict, outEn, outCn)
  {
    forall k | 0 <= k < |outEn|
      ensures PairFrom(en, cn, enDict, cnDict, outEn, outCn, k)
    {
      var i := src[k];
      assert outEn[k] == EncodeSentence(enDict, en[i]);
    }
  }

  /** Without sorting, each side is simply encoded sentence by sentence. */
  lemma EncodeUnsorted(en: seq<seq<string>>, cn: seq<seq<string>>,
                       enDict: map<string, nat>, cnDict: map<string, nat>)
    requires Encodable(enDict, en) && Encodable(cnDict, cn)
    ensures Encode(en, cn, enDict, cnDict, false).0 == EncodeCorpus(enDict, en)
    ensures Encode(en, cn, enDict, cnDict, false).1 == EncodeCorpus(cnDict, cn)
  {
  }

  /** Sorting applies one permutation of the English sentence numbers to both
      languages, so pair k of the output is source pair idx[k], encoded. */
  lemma {:induction false} EncodeSortedPairs(en: seq<seq<string>>, cn: seq<seq<string>>,
                                             enDict: map<string, nat>, cnDict: map<string, nat>)
    requires Encodable(enDict, en) && Encodable(cnDict, cn)
    requires |cn| >= |en|
    ensures var idx := LengthOrder(EncodeCorpus(enDict, en));
            var r := Encode(en, cn, enDict, cnDict, true);
            && IsPermutation(idx, |en|)
            && |r.0| == |en| && |r.1| == |en|
            && forall k :: 0 <= k < |en| ==>
                 r.0[k] == EncodeSentence(enDict, en[idx[k]])
                 && r.1[k] == EncodeSentence(cnDict, cn[idx[k]])
  {
  }

  /** After sorting, English lengths never decrease, and sentences of equal
      English length keep their original relative order. */
  lemma {:induction false} EncodeSortedByLength(en: seq<seq<string>>, cn: seq<seq<string>>,
                                                enDict: map<string, nat>, cnDict: map<string, nat>,
                                                i: int, j: int)
    requires Encodable(enDict, en) && Encodable(cnDict, cn)
    requires |cn| >= |en|
    requires 0 <= i < j < |en|
    ensures var idx := LengthOrder(EncodeCorpus(enDict, en));
            var r := Encode(en, cn, enDict, cnDict, true);
            && |r.0[i]| <= |r.0[j]|
            && (|r.0[i]| == |r.0[j]| ==> idx[i] < idx[j])
  {
    var enc := EncodeCorpus(enDict, en);
    var key := LengthKey(enc);
    var range := Range(0, |enc|);
    var idx := LengthOrder(enc);
    SortByOrdered(range, key);
    assert key(idx[i]) <= key(idx[j]);
    if key(idx[i]) == key(idx[j]) {
      SortByTiesKeepRank(range, key, x => x, i, j);
    }
  }

  // ---------------------------------------------------------------------------
  // index2word

  /** `[inv[i] for i in ids]`; an index with no entry would raise KeyError. */
  function Decode(inv: map<nat, string>, ids: seq<nat>): (ws: seq<string>)
    requires forall k :: 0 <= k < |ids| ==> ids[k] in inv
    ensures |ws| == |ids|
    ensures forall k :: 0 <= k < |ids| ==> ws[k] == inv[ids[k]]
  {
    seq(|ids|, k requires 0 <= k < |ids| => inv[ids[k]])
  }

  /** Decoding an encoded sentence with the inverse of an injective dictionary
      gives the sentence back, with every out-of-vocabulary word read as UNK. */
  lemma {:induction false} DecodeEncode(d: map<string, nat>, s: seq<string>)
    requires Injective(d)
    requires UNK in d
    ensures forall k :: 0 <= k < |s| ==> EncodeSentence(d, s)[k] in InverseDict(d)
    ensures Decode(InverseDict(d), EncodeSentence(d, s))
         == seq(|s|, k requires 0 <= k < |s| => if s[k] in d then s[k] else UNK)
  {
    InverseDictRoundTrip(d);
    var ids := EncodeSentence(d, s);
    forall k | 0 <= k < |s|
      ensures ids[k] in InverseDict(d)
      ensures InverseDict(d)[ids[k]] == if s[k] in d then s[k] else UNK
    {
    }
  }
}
