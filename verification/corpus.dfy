/** Sentence framing done by `load_data`: each tokenised line becomes
    BOS, the tokens, EOS. The file reading and the tokenisers (nltk for
    English, jieba for Chinese) are outside the model: a corpus arrives as the
    sequence of token lists they produce, one per line. */
module Corpus {

  const BOS := "BOS"
  const EOS := "EOS"

  /** `["BOS"] + tokens + ["EOS"]`. */
  function Frame(tokens: seq<string>): (s: seq<string>)
    ensures |s| == |tokens| + 2
    ensures s[0] == BOS && s[|s| - 1] == EOS
    ensures s[1..|s| - 1] == tokens
  {
    [BOS] + tokens + [EOS]
  }

  /** The line loop of `load_data`: one framed sentence per tokenised line, in
      file order. */
  method LoadData(lines: seq<seq<string>>) returns (datas: seq<seq<string>>)
    ensures |datas| == |lines|
    ensures forall i :: 0 <= i < |lines| ==> datas[i] == Frame(lines[i])
  {
    datas := [];
    for i := 0 to |lines|
      invariant |datas| == i
      invariant forall k :: 0 <= k < i ==> datas[k] == Frame(lines[k])
    {
      datas := datas + [Frame(lines[i])];
    }
  }
}
