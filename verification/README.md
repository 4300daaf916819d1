# Data preparation of the seq2seq attention translator, in Dafny

`seq2seq_attention.py` trains a GRU encoder–decoder with attention that
translates English into Chinese. Before any tensor algebra happens, a small
discrete pipeline turns the two corpora into training batches:

1. `load_data` frames each tokenised line as `BOS`, tokens, `EOS`.
2. `create_dict` counts the words, keeps the `max_words` most common ones and
   numbers them from 2. Index 0 is reserved for `PAD` and index 1 for `UNK`.
   The inverse dictionaries map indices back to words.
3. `encode` replaces words by indices, sending unknown words to `UNK`. It then
   stably sorts the sentence pairs by English length.
4. `get_batches` cuts the sentence numbers into runs of `batch_size` and
   shuffles the runs.
5. `add_padding` and `generate_dataset` right-pad every batch with 0 and
   record the lengths.
6. During training, the decoder reads the padded target table without its
   last column. It predicts the table without its first column. A mask keeps
   only the real target positions. `create_atten_masks` marks the attention
   weights that fall outside either sentence.
7. Around the recurrent layers, `Encoder.forward` and `Decoder.forward` sort
   the batch by descending length and restore the original order afterwards.
8. `en2cn_translate` reads predicted indices back as words and cuts the list
   at the first `EOS`.

The Dafny project models this pipeline. It has one module per stage:

- `Seqs`: ranges, maxima, first positions, gathering by an index list, and
  permutations with their inverses.
- `StableSort`: a stable sort by an integer key. It is used both for
  `Counter.most_common` and for `encode`'s `sorted`.
- `Corpus`, `Vocabulary`, `Encoding`, `Batching`, `Padding`, `Masks`,
  `SortRestore`, `Translation`: one module per stage above.

The parts of the source that change state step by step are methods with loop
invariants, proved against specification functions:

- the Counter loops of `create_dict`;
- the line loop of `load_data`;
- the batch loop of `get_batches`;
- the row loops of `add_padding` and `generate_dataset`;
- the `EOS` loop of `en2cn_translate`.

The list comprehensions, the stable sort, the masks and the shift are
functions. Lemmas state what each stage promises.

How Python and PyTorch behaviour is represented:

- **`Counter.most_common(n)`:** a stable sort by descending count, cut to `n`
  items. Ties keep the Counter's key order, which is the order in which words
  first occur in the corpus.
- **`torch.sort(descending=True)`:** not promised to be stable, so its index
  list is any permutation that sorts the lengths.
- **Sorting the sort index ascending (`original_index`):** proved to be the
  inverse permutation, because the values are distinct.
- **Random shuffle:** an arbitrary permutation of the batch positions.

## Model

| member | source | states |
|---|---|---|
| Seqs.Range | seq2seq_attention.py:96 | `np.arange(lo, hi)` lists lo, lo+1, ..., hi-1, and nothing when hi <= lo |
| Seqs.Max | seq2seq_attention.py:103 | the maximum of a non-empty list is one of its elements and at least every element |
| Seqs.Gather | seq2seq_attention.py:146 | `tensor[index]` has one row per index, row k being row index[k] |
| Seqs.Inverse | seq2seq_attention.py:159 | position k of the inverse is where k sits in p (or len(p) when absent), so p maps it back to k |
| Corpus.Frame | seq2seq_attention.py:35-37 | a framed sentence is two tokens longer, starts with BOS, ends with EOS and holds the tokens in between |
| Corpus.LoadData | seq2seq_attention.py:26-38 | one framed sentence per input line, in line order |
| Vocabulary.FirstSeen | seq2seq_attention.py:48-51 | the Counter's key order has no repeats and holds exactly the corpus words |
| Vocabulary.Flatten | seq2seq_attention.py:49-50 | the words read by the nested loops are exactly the words of the sentences |
| Vocabulary.CountMap | seq2seq_attention.py:48-51 | the Counter holds exactly the corpus words, each with its number of occurrences |
| Vocabulary.CountOne | seq2seq_attention.py:51 | counting one more word raises its count by one (or sets it to 1) and appends a new word to the key order |
| Vocabulary.CountWord | seq2seq_attention.py:51 | after `word_count[word] += 1` the Counter is that of the words read so far plus this one |
| Vocabulary.CountSentence | seq2seq_attention.py:50-51 | counting one more sentence gives the Counter (keys in first-seen order, counts) of the words read so far plus that sentence |
| Vocabulary.CountWords | seq2seq_attention.py:48-51 | after the nested loops the Counter's key order and counts are those of the whole flattened corpus |
| Vocabulary.Items | seq2seq_attention.py:53 | the Counter's items pair each key, in key order, with its count |
| Vocabulary.ItemsOfCounter | seq2seq_attention.py:48-53 | the items of the filled Counter are the corpus tally `most_common` sorts |
| Vocabulary.TallyOf | seq2seq_attention.py:48-53 | the Counter's items, one per distinct word in key order, each a corpus word with its (positive) number of occurrences |
| Vocabulary.MostCommon | seq2seq_attention.py:53 | `most_common(n)` returns n items, or every item when there are fewer, and nothing when n is 0 or negative |
| Vocabulary.Kept | seq2seq_attention.py:48-53 | `most_common_words` holds at most `max_words` items and at most one per distinct word, and nothing when `max_words` is 0 or negative |
| Vocabulary.FirstSeenOrder | seq2seq_attention.py:48-51 | the Counter's keys come in increasing order of first occurrence in the corpus |
| Vocabulary.KeptCounts | seq2seq_attention.py:48-53 | every kept word occurs in the corpus and carries its exact frequency |
| Vocabulary.KeptDistinct | seq2seq_attention.py:53 | no word is kept twice |
| Vocabulary.KeptByFrequency | seq2seq_attention.py:53 | kept words come in non-increasing order of frequency |
| Vocabulary.KeptMostFrequent | seq2seq_attention.py:53 | a corpus word that is not kept occurs no more often than any kept word |
| Vocabulary.KeptTiesByFirstOccurrence | seq2seq_attention.py:48-53 | among kept words of equal frequency, the one met first in the corpus comes first |
| Vocabulary.KeptSize | seq2seq_attention.py:53-54 | `max_words` words are kept, or all distinct words when there are fewer, or none when `max_words` is 0 or negative; `total_words` is that number plus 2 |
| Vocabulary.Indexed | seq2seq_attention.py:55 | the comprehension's keys are exactly the kept words, with indices in 2..len(most_common)+1 |
| Vocabulary.IndexedAt | seq2seq_attention.py:55 | kept word i gets index i+2 |
| Vocabulary.WordDict | seq2seq_attention.py:55-57 | the dictionary's keys are PAD, UNK and the kept words, and every index is below `total_words` |
| Vocabulary.DictIndices | seq2seq_attention.py:55-57 | PAD is 0, UNK is 1, and every other kept word i is i+2 |
| Vocabulary.CreateDict | seq2seq_attention.py:45-58 | the method returns the dictionary of the kept words and `total_words` equal to their number plus 2 |
| Vocabulary.VocabularyIndices | seq2seq_attention.py:53-58 | for a corpus: PAD is 0, UNK is 1, the other kept words are numbered 2, 3, ... by decreasing frequency, the keys are exactly those words, and all indices are below `total_words` |
| Vocabulary.FrequentWordsFirst | seq2seq_attention.py:53-55 | a more frequent kept word gets a smaller index |
| Vocabulary.WordDictInjective | seq2seq_attention.py:55-57 | no two words share an index |
| Vocabulary.IndicesCoverVocabulary | seq2seq_attention.py:54-57 | when no kept word is spelled PAD or UNK, the indices are exactly 0..total_words-1 |
| Vocabulary.ReservedWordLeavesGap | seq2seq_attention.py:55-57 | when kept word i is spelled PAD or UNK, its index i+2 (below `total_words`) belongs to no word |
| Vocabulary.InverseDict | seq2seq_attention.py:65-66 | the inverse dictionary's keys are exactly the dictionary's indices |
| Vocabulary.InverseDictRoundTrip | seq2seq_attention.py:65-66 | for an injective dictionary, the inverse maps each index back to its word, and each word's index back to the word, in both directions |
| StableSort.SortByCorrect | seq2seq_attention.py:78 | `sorted` returns a rearrangement ordered by key, and the items with any one key keep their input order (stability) |
| StableSort.StableSortUnique | seq2seq_attention.py:78 | two stable sorts of the same items by the same key are equal, so the order produced is fully determined |
| StableSort.SortByTiesKeepRank | seq2seq_attention.py:78 | items with equal keys keep their relative order, measured by any rank that increases along the input |
| Encoding.EncodeWord | seq2seq_attention.py:72 | a known word maps to its index, an unknown one to UNK's index |
| Encoding.EncodeSentence | seq2seq_attention.py:72-73 | an encoded sentence is as long as the sentence, and position k holds the index of word k or UNK's index |
| Encoding.EncodeCorpus | seq2seq_attention.py:72-73 | sentence i of the output is sentence i encoded |
| Encoding.LengthKey | seq2seq_attention.py:78 | the sort key of sentence number i is the length of encoded sentence i |
| Encoding.LengthOrder | seq2seq_attention.py:78 | the sorted sentence numbers are a permutation of 0..n-1 |
| Encoding.Encode | seq2seq_attention.py:68-82 | the English output has one sentence per English input, the Chinese output one per English input when sorting and one per Chinese input otherwise, and every output pair is some source pair encoded on both sides |
| Encoding.EncodeUnsorted | seq2seq_attention.py:68-82 | without sorting, both languages are encoded sentence by sentence |
| Encoding.EncodeSortedPairs | seq2seq_attention.py:77-80 | with sorting, output pair k is source pair idx[k] encoded, for one permutation idx applied to both languages; extra Chinese sentences are dropped |
| Encoding.EncodeSortedByLength | seq2seq_attention.py:77-80 | sorted English lengths never decrease, and pairs of equal English length keep their original relative order |
| Encoding.Decode | seq2seq_attention.py:438 | word k of a decoded list is the inverse dictionary's word for index k |
| Encoding.DecodeEncode | seq2seq_attention.py:65-73 | decoding an encoded sentence gives the sentence back, with every out-of-vocabulary word read as UNK |
| Batching.NumBatches | seq2seq_attention.py:90 | the number of batches is ceil(n/batch_size): enough runs of batch_size to cover n, and less than one run more |
| Batching.Starts | seq2seq_attention.py:90 | batch k starts at k*batch_size, and there are ceil(n/batch_size) starts |
| Batching.FirstIndices | seq2seq_attention.py:90-92 | there is one first index per batch, and entry k is perm[k]*batch_size after the shuffle and k*batch_size without it |
| Batching.BatchFrom | seq2seq_attention.py:96 | a batch is the run of consecutive numbers from its first index, at most batch_size long and stopping before n, and it is min(batch_size, n-first) long when first < n |
| Batching.BatchesFrom | seq2seq_attention.py:95-97 | one batch per first index, each the run from it up to min(first+batch_size, n) |
| Batching.GetBatches | seq2seq_attention.py:88-98 | the loop returns the runs for the (optionally shuffled) first indices, in that order |
| Batching.StartBound | seq2seq_attention.py:90 | batch k exists exactly when k*batch_size < n |
| Batching.BatchShape | seq2seq_attention.py:90-97 | each batch is an ascending contiguous run of 1..batch_size numbers, and every batch except the last is full |
| Batching.BatchOf | seq2seq_attention.py:90-97 | sentence i is entry i % batch_size of batch i / batch_size |
| Batching.BatchMembers | seq2seq_attention.py:96 | every member of batch k is a sentence number whose batch is k |
| Batching.BatchesPartition | seq2seq_attention.py:90-97 | the batches cover 0..n-1, hold nothing else and are pairwise disjoint |
| Batching.ShuffleMovesWholeBatches | seq2seq_attention.py:91-97 | the shuffled batch list is the unshuffled one reordered by the shuffle permutation |
| Batching.ShuffledPartition | seq2seq_attention.py:91-97 | after shuffling, sentence i lies in the batch that now holds run i / batch_size, and in no other |
| Batching.BatchesInRange | seq2seq_attention.py:90-97 | every batch is non-empty and holds only sentence numbers 0..n-1 |
| Padding.Lengths | seq2seq_attention.py:102 | entry i is the length of sentence i |
| Padding.MaxLen | seq2seq_attention.py:103 | the maximum is at least every length and equal to one of them |
| Padding.PadTo | seq2seq_attention.py:108 | a padded row has the target width (or keeps its length if longer), starts with the sentence and ends in zeros |
| Padding.Padded | seq2seq_attention.py:105-110 | one padded row per sentence |
| Padding.AddPadding | seq2seq_attention.py:100-112 | the loop returns every sentence padded to the batch maximum, and the sentence lengths |
| Padding.PaddingFacts | seq2seq_attention.py:102-111 | every row is max(lengths) wide, starts with its sentence, continues with zeros, and cutting each row at its recorded length gives the batch back |
| Padding.Dataset | seq2seq_attention.py:114-124 | there is one padded batch per batch of sentence numbers |
| Padding.BatchOfPairs | seq2seq_attention.py:119-123 | a batch has one row and one recorded length per sentence number, and row t holds pair b[t]: both padded rows start with their sentence and record its length |
| Padding.GenerateDataset | seq2seq_attention.py:114-124 | the result holds, per shuffled batch and in shuffled order, the padded English and Chinese tables of those pairs and their lengths |
| Padding.PadBatches | seq2seq_attention.py:118-124 | the loop over the batches returns, in batch order, the padded batch of each batch of pair numbers |
| Padding.PadPairs | seq2seq_attention.py:119-123 | one iteration gathers the batch's English and Chinese sentences, pads each table and records the lengths, giving that batch's padded tables |
| Padding.DatasetHoldsEveryPair | seq2seq_attention.py:116-123 | every sentence pair appears in some row of some batch, with both sentences at the start of their padded rows and their lengths recorded |
| Masks.LengthMask | seq2seq_attention.py:225-226 | row b is true exactly on its first lens[b] positions |
| Masks.AttentionMask | seq2seq_attention.py:220-233 | the mask has one matrix per sentence pair, of max(y_len) rows of max(x_len) entries |
| Masks.AttentionMaskSpec | seq2seq_attention.py:220-233 | the mask has shape batch x max(y_len) x max(x_len), holds only 0 and 1, and is 0 exactly where i < y_len[b] and j < x_len[b] |
| Masks.AttentionMaskOfBatch | seq2seq_attention.py:220-233 | built from the source lengths and the shifted target lengths, the mask is as tall as the decoder input and as wide as the padded source table, and is 0 exactly at real decoder steps against real source tokens |
| Masks.DropLast | seq2seq_attention.py:394 | a non-empty row loses its last element; the result is a prefix |
| Masks.DropFirst | seq2seq_attention.py:395 | a non-empty row loses its first element, so entry t is the row's entry t+1 |
| Masks.DecoderInput | seq2seq_attention.py:394 | the decoder input is every row without its last element |
| Masks.Targets | seq2seq_attention.py:395 | the targets are every row without its first element |
| Masks.ShiftedLength | seq2seq_attention.py:396-397 | the new length is len-1 whenever len >= 2, and is clamped to 1 when len-1 would be 0 or less |
| Masks.ShiftedLengths | seq2seq_attention.py:396-397 | the shift is applied to every length |
| Masks.TargetMask | seq2seq_attention.py:396-404 | one mask row per sentence, each as wide as the largest shifted length; entry t of row b is true exactly when t is below the shifted length of sentence b, for every length including the clamped ones |
| Masks.ShiftedWidth | seq2seq_attention.py:396-404 | for sentences of at least two tokens, the target mask is one column narrower than the padded table |
| Masks.ShiftRow | seq2seq_attention.py:394-395 | in row b, input token t is sentence token t, target token t is sentence token t+1, and targets past the sentence are padding |
| Masks.TeacherForcing | seq2seq_attention.py:394-404 | for a padded batch of sentences of at least two tokens: the input, targets and mask are max(len)-1 wide; at step t the decoder reads token t and must predict token t+1; the mask is true exactly where the target is a sentence token; every masked-out target is padding |
| SortRestore.SortsDescending | seq2seq_attention.py:145 | an index list that sorts by descending length is a permutation, so every row is processed exactly once, and lengths never increase along it |
| SortRestore.SortsAscending | seq2seq_attention.py:159 | the argsort of the sort index is a permutation listing every position exactly once, along which the sort index's values never decrease |
| SortRestore.DescendingOrderExists | seq2seq_attention.py:145 | some permutation always sorts the lengths in descending order |
| SortRestore.ArgsortIsInverse | seq2seq_attention.py:159 | sorting the sort index ascending yields exactly its inverse permutation |
| SortRestore.RestoreUndoesSort | seq2seq_attention.py:159-160 | gathering the sorted rows with the inverse permutation gives the original rows |
| SortRestore.SortIndexRestored | seq2seq_attention.py:159 | the sort index gathered with its inverse is 0, 1, ..., n-1 |
| SortRestore.SortRunRestore | seq2seq_attention.py:145-161 | sorting rows by descending length, processing each sorted row with its length and gathering the results with the argsort puts row i's result at position i |
| SortRestore.EncoderForward | seq2seq_attention.py:140-166 | encoder output row i is the result of processing source row i with its own length, whatever order the rows were processed in |
| SortRestore.DecoderForward | seq2seq_attention.py:236-255 | decoder output row i is the result of processing target row i with its own length and its own encoder hidden state |
| Translation.UntilEos | seq2seq_attention.py:440-445 | the result is a prefix with no EOS that stops at the first EOS or at the end, and is the whole list when there is no EOS |
| Translation.UntilEosLongest | seq2seq_attention.py:440-445 | no longer prefix avoids EOS |
| Translation.TruncateAtEos | seq2seq_attention.py:440-445 | the loop with `break` returns the longest EOS-free prefix |
| Translation.UntilEosOfFramed | seq2seq_attention.py:440-445 | a prediction that reproduces a framed sentence after its BOS is cut back to exactly that sentence, whatever follows |
| Translation.PredictionsDecodable | seq2seq_attention.py:438 | when no kept word is spelled PAD or UNK, every index below `total_words` has a word, so reading a prediction back never fails and yields dictionary words |

## Left out

- The neural network is not modelled: embeddings, GRUs, dropout, linear
  layers, softmax and log-softmax, the attention weights, the `-1e-6` fill,
  `MaskCriterion`'s loss value, the optimiser, gradient clipping and the
  running loss averages. All of these are floating-point tensor operations
  inside PyTorch. `SortRestore.SortRunRestore` takes the per-row work of the
  recurrent layers as an arbitrary function of the row and its length.
- `pack_padded_sequence` / `pad_packed_sequence` are library calls. Only the
  permutations around them are modelled.
- `Seq2Seq.translate` is not modelled. Its predicted indices are an input to
  `Translation`.
- File reading, `strip`, `lower`, and the nltk and jieba tokenisers are
  outside the model. A corpus arrives as the token lists they produce.
- `np.random.shuffle` and `torch.manual_seed` are randomness. The shuffle is
  a permutation parameter.
- `torch.sort` breaks ties in an unspecified order, so only "some permutation
  that sorts" is assumed of it.
- The training loop's control flow is not modelled: epochs, holding back
  every tenth batch of epoch 0 as test data, and the periodic `test` calls.
  `test` applies the same shift and target mask as `train` (lines 360-367),
  which `Masks` models.
- `print`, `" ".join`, device selection and module-level script execution
  are not modelled.
- The casts `astype('int32')`, `.long()`, `.byte()` and `.float()` are not
  modelled. Indices and lengths are unbounded naturals, masks are 0/1
  naturals or booleans, and no 32-bit wrap-around is modelled.
- `Masks.AttentionMask` requires both length vectors to have the same batch
  size. PyTorch would also broadcast a batch of one against a larger batch;
  the decoder never relies on that. It and `Masks.TargetMask` also require a
  non-empty batch, because the maximum of an empty tensor raises.
- `Padding.AddPadding` requires a non-empty batch, because `np.max` of an
  empty list raises. `get_batches` never produces an empty batch
  (`Batching.BatchesInRange`).
- `Batching.GetBatches` requires a positive batch size. `np.arange` raises
  for a step of 0. A negative step would yield no batches, and that case is
  not modelled.
- `Encoding.Encode` requires, when sorting, at least as many Chinese
  sentences as English ones. With fewer, `out_cn_sentences[i]` raises
  IndexError at line 80; that error path is not modelled.
- `Padding.GenerateDataset` requires at least as many Chinese sentences as
  English ones. With fewer, `cn[idx]` raises IndexError at line 120; that
  error path is not modelled.
- `Encoding.EncodeSentence` requires `UNK` in the dictionary for a non-empty
  sentence. Without it, `en_dict['UNK']` raises KeyError at lines 72-73; that
  error path is not modelled. Dictionaries built by `create_dict` always hold
  `UNK`.
- `Encoding.Decode` requires every index to have an entry in the inverse
  dictionary. An index without one raises KeyError at line 438; that error
  path is not modelled. `Translation.PredictionsDecodable` states when every
  predicted index has an entry.
- `Vocabulary.InverseDict`'s choice among words sharing an index is
  unspecified. Python's comprehension keeps the last such word. The
  dictionaries built by `create_dict` are injective
  (`Vocabulary.WordDictInjective`), so the choice never arises for them.
- A kept word spelled `PAD` or `UNK` is modelled as written: it is
  overwritten by the reserved index, and its own index i+2 is left without a
  word (`Vocabulary.ReservedWordLeavesGap`).
