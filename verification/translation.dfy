/** The discrete end of `en2cn_translate`: predicted indices are read back as
    words through the inverse Chinese dictionary and the word list is cut at
    the first EOS. */
module Translation {
  import opened Seqs
  import opened Corpus
  import opened Vocabulary
  import opened Encoding

  /** The longest prefix of ws that contains no EOS. */
  function UntilEos(ws: seq<string>): (r: seq<string>)
    ensures r <= ws
    ensures EOS !in r
    ensures |r| == |ws| || ws[|r|] == EOS
    ensures EOS !in ws ==> r == ws
  {
    ws[..IndexOf(ws, EOS)]
  }

  /** No longer prefix avoids EOS. */
  lemma UntilEosLongest(ws: seq<string>, p: seq<string>)
    requires p <= ws
    requires EOS !in p
    ensures |p| <= |UntilEos(ws)|
  {
  }

  /** The word loop of `en2cn_translate`: append words until EOS, then stop. */
  method TruncateAtEos(translation: seq<string>) returns (trans: seq<string>)
    ensures trans == UntilEos(translation)
  {
    trans := [];
    var i := 0;
    while i < |translation|
      invariant 0 <= i <= |translation|
      invariant trans == translation[..i]
      invariant EOS !in trans
    {
      var word := translation[i];
      if word != EOS {
        trans := trans + [word];
      } else {
        break;
      }
      i := i + 1;
    }
    assert |trans| == |translation| || translation[|trans|] == EOS;
    assert IndexOf(translation, EOS) == |trans|;
  }

  /** A prediction that reproduces a framed target sentence after its BOS
      (the decoder starts from BOS) is cut back to exactly that sentence. */
  lemma {:induction false} UntilEosOfFramed(tokens: seq<string>, tail: seq<string>)
    requires EOS !in tokens
    ensures UntilEos(Frame(tokens)[1..] + tail) == tokens
  {
    var ws := Frame(tokens)[1..] + tail;
    assert ws[..|tokens|] == tokens;
    assert ws[|tokens|] == EOS;
    UntilEosLongest(ws, tokens);
  }

  /** The model predicts indices below the vocabulary size `|kept| + 2`. When
      no kept word is spelled PAD or UNK, every such index has a word, so
      reading a prediction back never fails and gives words of the
      dictionary. */
  lemma {:induction false} PredictionsDecodable(kept: seq<Entry>, ids: seq<nat>)
    requires Distinct(Words(kept))
    requires PAD !in Words(kept) && UNK !in Words(kept)
    requires forall k :: 0 <= k < |ids| ==> ids[k] < |kept| + 2
    ensures forall k :: 0 <= k < |ids| ==> ids[k] in InverseDict(WordDict(kept))
    ensures forall k :: 0 <= k < |ids| ==>
              Decode(InverseDict(WordDict(kept)), ids)[k] in WordDict(kept)
  {
    var d := WordDict(kept);
    IndicesCoverVocabulary(kept);
    WordDictInjective(kept);
    InverseDictRoundTrip(d);
  }
}
