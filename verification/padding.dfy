/** `add_padding` and `generate_dataset`: every batch of sentence pairs becomes
    two rectangular tables right-padded with 0 (the PAD index) plus the
    original sentence lengths. */
module Padding {
  import opened Seqs
  import opened Batching

  /** `[len(sentence) for sentence in batch]`. */
  function Lengths(batch: seq<seq<nat>>): (r: seq<nat>)
    ensures |r| == |batch|
    ensures forall i :: 0 <= i < |batch| ==> r[i] == |batch[i]|
  {
    seq(|batch|, i requires 0 <= i < |batch| => |batch[i]|)
  }

  /** `np.max(lengths)`; numpy refuses the maximum of an empty list. */
  function MaxLen(batch: seq<seq<nat>>): (m: nat)
    requires |batch| > 0
    ensures forall i :: 0 <= i < |batch| ==> |batch[i]| <= m
    ensures exists i :: 0 <= i < |batch| && |batch[i]| == m
  {
    Max(Lengths(batch))
  }

  /** `sentence + [0] * (width - len(sentence))`; a negative count adds nothing. */
  function PadTo(s: seq<nat>, width: nat): (r: seq<nat>)
    ensures |r| == if |s| <= width then width else |s|
    ensures r[..|s|] == s
    ensures forall t :: |s| <= t < |r| ==> r[t] == 0
  {
    s + seq(if |s| <= width then width - |s| else 0, _ => 0)
  }

  /** The padded table of a non-empty batch. */
  function Padded(batch: seq<seq<nat>>): (data: seq<seq<nat>>)
    requires |batch| > 0
    ensures |data| == |batch|
  {
    var width := MaxLen(batch);
    seq(|batch|, i requires 0 <= i < |batch| => PadTo(batch[i], width))
  }

  /** Row i cut back to its recorded length. */
  function Unpadded(data: seq<seq<nat>>, lengths: seq<nat>): (batch: seq<seq<nat>>)
    requires |lengths| == |data|
    requires forall i :: 0 <= i < |data| ==> lengths[i] <= |data[i]|
    ensures |batch| == |data|
    ensures forall i :: 0 <= i < |data| ==> batch[i] == data[i][..lengths[i]]
  {
    seq(|data|, i requires 0 <= i < |data| => data[i][..lengths[i]])
  }

  /** `add_padding(batch_sentences)`. */
  method AddPadding(batch: seq<seq<nat>>) returns (data: seq<seq<nat>>, lengths: seq<nat>)
    requires |batch| > 0
    ensures lengths == Lengths(batch)
    ensures data == Padded(batch)
  {
    lengths := Lengths(batch);
    var maxLen := Max(lengths);
    data := [];
    for i := 0 to |batch|
      invariant |data| == i
      invariant forall r :: 0 <= r < i ==> data[r] == PadTo(batch[r], maxLen)
    {
      var sentence := batch[i];
      assert |sentence| <= maxLen;
      sentence := sentence + seq(maxLen - |sentence|, _ => 0);
      data := data + [sentence];
    }
  }

  /** Every padded row is as wide as the longest sentence, starts with its
      sentence and continues with zeros; cutting each row at its recorded
      length gives the batch back. */
  lemma {:induction false} PaddingFacts(batch: seq<seq<nat>>)
    requires |batch| > 0
    ensures var data := Padded(batch);
            && (forall i :: 0 <= i < |batch| ==> |data[i]| == MaxLen(batch))
            && (forall i :: 0 <= i < |batch| ==> data[i][..|batch[i]|] == batch[i])
            && (forall i, t :: 0 <= i < |batch| && |batch[i]| <= t < |data[i]| ==> data[i][t] == 0)
            && Unpadded(data, Lengths(batch)) == batch
  {
    var data := Padded(batch);
    forall i | 0 <= i < |batch|
      ensures |data[i]| == MaxLen(batch)
      ensures data[i][..|batch[i]|] == batch[i]
    {
      assert data[i] == PadTo(batch[i], MaxLen(batch));
    }
  }

  // ---------------------------------------------------------------------------
  // generate_dataset

  /** `(batch_x, batch_x_len, batch_y, batch_y_len)`. */
  datatype Batch = Batch(x: seq<seq<nat>>, xLen: seq<nat>, y: seq<seq<nat>>, yLen: seq<nat>)

  /** The padded tables of the pairs numbered in `b`. */
  function BatchOfPairs(en: seq<seq<nat>>, cn: seq<seq<nat>>, b: seq<int>): (r: Batch)
    requires |b| > 0
    requires forall t :: 0 <= t < |b| ==> 0 <= b[t] < |en| && b[t] < |cn|
    ensures |r.x| == |r.xLen| == |r.y| == |r.yLen| == |b|
    ensures forall t :: 0 <= t < |b| ==> HoldsPair([r], 0, t, en[b[t]], cn[b[t]])
  {
    var batchEn := Gather(en, b);
    var batchCn := Gather(cn, b);
    PaddingFacts(batchEn);
    PaddingFacts(batchCn);
    Batch(Padded(batchEn), Lengths(batchEn), Padded(batchCn), Lengths(batchCn))
  }

  /** The batches `generate_dataset` builds, `perm` being the shuffle. */
  function Dataset(en: seq<seq<nat>>, cn: seq<seq<nat>>, bs: nat, perm: seq<int>): (d: seq<Batch>)
    requires bs > 0
    requires |cn| >= |en|
    requires IsPermutation(perm, NumBatches(|en|, bs))
    ensures |d| == NumBatches(|en|, bs)
  {
    var batches := BatchesFrom(FirstIndices(|en|, bs, true, perm), |en|, bs);
    BatchesInRange(|en|, bs, true, perm);
    PadAll(en, cn, batches)
  }

  /** Every batch is non-empty and numbers only pairs of the corpus. */
  predicate Indexes(batches: seq<seq<int>>, en: seq<seq<nat>>, cn: seq<seq<nat>>)
  {
    forall k :: 0 <= k < |batches| ==>
      |batches[k]| > 0 && forall t :: 0 <= t < |batches[k]| ==> 0 <= batches[k][t] < |en| && batches[k][t] < |cn|
  }

  /** The padded batch of every batch of pair numbers. */
  function PadAll(en: seq<seq<nat>>, cn: seq<seq<nat>>, batches: seq<seq<int>>): (d: seq<Batch>)
    requires Indexes(batches, en, cn)
    ensures |d| == |batches|
  {
    seq(|batches|, k requires 0 <= k < |batches| => BatchOfPairs(en, cn, batches[k]))
  }

  /** `generate_dataset(en, cn, batch_size)`; `get_batches` is called with
      its default `shuffle=True`. Indexing `cn` with English sentence numbers
      needs at least as many Chinese sentences as English ones. */
  method GenerateDataset(en: seq<seq<nat>>, cn: seq<seq<nat>>, bs: nat, perm: seq<int>)
    returns (datasets: seq<Batch>)
    requires bs > 0
    requires |cn| >= |en|
    requires IsPermutation(perm, NumBatches(|en|, bs))
    ensures datasets == Dataset(en, cn, bs, perm)
  {
    var batches := GetBatches(|en|, bs, true, perm);
    BatchesInRange(|en|, bs, true, perm);
    datasets := PadBatches(en, cn, batches);
  }

  /** The loop of `generate_dataset` over the batches `get_batches` returned. */
  method PadBatches(en: seq<seq<nat>>, cn: seq<seq<nat>>, batches: seq<seq<int>>)
    returns (datasets: seq<Batch>)
    requires Indexes(batches, en, cn)
    ensures datasets == PadAll(en, cn, batches)
  {
    datasets := [];
    for k := 0 to |batches|
      invariant |datasets| == k
      invariant forall j :: 0 <= j < k ==> datasets[j] == BatchOfPairs(en, cn, batches[j])
    {
      var padded := PadPairs(en, cn, batches[k]);
      datasets := datasets + [padded];
    }
  }

  /** One iteration of `generate_dataset`'s loop: gather the pairs of a batch
      and pad each language. */
  method PadPairs(en: seq<seq<nat>>, cn: seq<seq<nat>>, batch: seq<int>) returns (padded: Batch)
    requires |batch| > 0
    requires forall t :: 0 <= t < |batch| ==> 0 <= batch[t] < |en| && batch[t] < |cn|
    ensures padded == BatchOfPairs(en, cn, batch)
  {
    var batchEn := Gather(en, batch);
    var batchCn := Gather(cn, batch);
    var batchX, batchXLen := AddPadding(batchEn);
    var batchY, batchYLen := AddPadding(batchCn);
    padded := Batch(batchX, batchXLen, batchY, batchYLen);
  }

  /** Row r of batch k carries the pair (e, c): both padded rows start with
      their sentence and record its length. */
  predicate HoldsPair(d: seq<Batch>, k: int, r: int, e: seq<nat>, c: seq<nat>)
  {
    && 0 <= k < |d|
    && 0 <= r < |d[k].x| && r < |d[k].xLen| && r < |d[k].y| && r < |d[k].yLen|
    && d[k].xLen[r] == |e| && |e| <= |d[k].x[r]| && d[k].x[r][..|e|] == e
    && d[k].yLen[r] == |c| && |c| <= |d[k].y[r]| && d[k].y[r][..|c|] == c
  }

  /** Every sentence pair of the corpus is carried by a row of some batch. */
  lemma {:induction false} DatasetHoldsEveryPair(en: seq<seq<nat>>, cn: seq<seq<nat>>, bs: nat,
                                                 perm: seq<int>, i: int)
    requires bs > 0
    requires |cn| >= |en|
    requires IsPermutation(perm, NumBatches(|en|, bs))
    requires 0 <= i < |en|
    ensures exists k, r :: HoldsPair(Dataset(en, cn, bs, perm), k, r, en[i], cn[i])
  {
    var n := |en|;
    var d := Dataset(en, cn, bs, perm);
    var U := BatchesFrom(Starts(n, bs), n, bs);
    var S := BatchesFrom(FirstIndices(n, bs, true, perm), n, bs);
    BatchesInRange(n, bs, true, perm);
    BatchOf(n, bs, i);
    PermutationCovers(perm, NumBatches(n, bs), i / bs);
    var k :| 0 <= k < |perm| && perm[k] == i / bs;
    var r := i % bs;
    ShuffleMovesWholeBatches(n, bs, perm);
    assert S[k] == U[i / bs];
    assert S[k][r] == i;
    var batchEn := Gather(en, S[k]);
    var batchCn := Gather(cn, S[k]);
    assert d[k] == BatchOfPairs(en, cn, S[k]);
    PaddingFacts(batchEn);
    PaddingFacts(batchCn);
    assert batchEn[r] == en[i] && batchCn[r] == cn[i];
    assert HoldsPair(d, k, r, en[i], cn[i]);
  }
}
