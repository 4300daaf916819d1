/** The discrete tensors of a training step: the attention mask of
    `create_atten_masks`, the teacher-forcing shift of the target table and
    the mask of target positions that count in the loss. */
module Masks {
  import opened Seqs
  import opened Padding

  /** `torch.arange(width)[None, :] < lens[:, None]`: row b is true exactly on
      its first lens[b] positions. */
  function LengthMask(lens: seq<int>, width: nat): (m: seq<seq<bool>>)
    ensures |m| == |lens|
    ensures forall b :: 0 <= b < |lens| ==> |m[b]| == width
    ensures forall b, j :: 0 <= b < |lens| && 0 <= j < width ==> (m[b][j] <==> j < lens[b])
  {
    seq(|lens|, b requires 0 <= b < |lens| => seq(width, j => j < lens[b]))
  }

  /** `create_atten_masks(x_len, y_len)`: entry [b][i][j] is 0 where decoder
      step i and source position j are both inside sentence pair b, and 1
      (to be filled) elsewhere. */
  function AttentionMask(xLen: seq<nat>, yLen: seq<nat>): (masks: seq<seq<seq<nat>>>)
    requires |xLen| == |yLen| > 0
    ensures |masks| == |yLen|
    ensures forall b :: 0 <= b < |masks| ==> |masks[b]| == Max(yLen)
    ensures forall b, i :: 0 <= b < |masks| && 0 <= i < |masks[b]| ==> |masks[b][i]| == Max(xLen)
  {
    var maxX := Max(xLen);
    var maxY := Max(yLen);
    var xMasks := LengthMask(xLen, maxX);
    var yMasks := LengthMask(yLen, maxY);
    seq(|yLen|, b requires 0 <= b < |yLen| =>
      seq(maxY, i requires 0 <= i < maxY =>
        seq(maxX, j requires 0 <= j < maxX =>
          if yMasks[b][i] && xMasks[b][j] then 0 else 1)))
  }

  /** The mask has shape batch x max(y_len) x max(x_len), holds only 0 and 1,
      and is 0 exactly inside both sentences. */
  lemma {:induction false} AttentionMaskSpec(xLen: seq<nat>, yLen: seq<nat>)
    requires |xLen| == |yLen| > 0
    ensures var masks := AttentionMask(xLen, yLen);
            && |masks| == |xLen|
            && (forall b :: 0 <= b < |masks| ==> |masks[b]| == Max(yLen))
            && (forall b, i :: 0 <= b < |masks| && 0 <= i < |masks[b]| ==> |masks[b][i]| == Max(xLen))
            && (forall b, i, j :: 0 <= b < |masks| && 0 <= i < |masks[b]| && 0 <= j < |masks[b][i]| ==>
                  (masks[b][i][j] == 0 <==> i < yLen[b] && j < xLen[b])
                  && masks[b][i][j] <= 1)
  {
    var masks := AttentionMask(xLen, yLen);
    var xMasks := LengthMask(xLen, Max(xLen));
    var yMasks := LengthMask(yLen, Max(yLen));
    forall b, i, j | 0 <= b < |masks| && 0 <= i < |masks[b]| && 0 <= j < |masks[b][i]|
      ensures masks[b][i][j] == 0 <==> i < yLen[b] && j < xLen[b]
    {
      assert masks[b][i][j] == if yMasks[b][i] && xMasks[b][j] then 0 else 1;
    }
  }

  // ---------------------------------------------------------------------------
  // Teacher forcing

  /** `row[:-1]`. */
  function DropLast(row: seq<nat>): (r: seq<nat>)
    ensures |row| > 0 ==> |r| == |row| - 1
    ensures |row| == 0 ==> r == []
    ensures r <= row
  {
    if |row| == 0 then [] else row[..|row| - 1]
  }

  /** `row[1:]`. */
  function DropFirst(row: seq<nat>): (r: seq<nat>)
    ensures |row| > 0 ==> |r| == |row| - 1
    ensures |row| == 0 ==> r == []
    ensures forall t :: 0 <= t < |r| ==> r[t] == row[t + 1]
  {
    if |row| == 0 then [] else row[1..]
  }

  /** `batch_y[:, :-1]`: what the decoder reads. */
  function DecoderInput(y: seq<seq<nat>>): (r: seq<seq<nat>>)
    ensures |r| == |y|
    ensures forall b :: 0 <= b < |y| ==> r[b] == DropLast(y[b])
  {
    seq(|y|, b requires 0 <= b < |y| => DropLast(y[b]))
  }

  /** `batch_y[:, 1:]`: what the decoder must predict. */
  function Targets(y: seq<seq<nat>>): (r: seq<seq<nat>>)
    ensures |r| == |y|
    ensures forall b :: 0 <= b < |y| ==> r[b] == DropFirst(y[b])
  {
    seq(|y|, b requires 0 <= b < |y| => DropFirst(y[b]))
  }

  /** `batch_y_len - 1`, then `batch_y_len[batch_y_len <= 0] = 1`. */
  function ShiftedLength(len: nat): (r: nat)
    ensures r >= 1
    ensures len >= 2 ==> r == len - 1
    ensures len <= 1 ==> r == 1
  {
    if len - 1 <= 0 then 1 else len - 1
  }

  function ShiftedLengths(yLen: seq<nat>): (r: seq<nat>)
    ensures |r| == |yLen|
    ensures forall b :: 0 <= b < |yLen| ==> r[b] == ShiftedLength(yLen[b])
  {
    seq(|yLen|, b requires 0 <= b < |yLen| => ShiftedLength(yLen[b]))
  }

  /** `torch.arange(new_len.max()) < new_len[:, None]` over the shifted
      lengths. */
  function TargetMask(yLen: seq<nat>): (m: seq<seq<bool>>)
    requires |yLen| > 0
    ensures |m| == |yLen|
    ensures forall b :: 0 <= b < |yLen| ==> |m[b]| == Max(ShiftedLengths(yLen))
    ensures forall b, t :: 0 <= b < |yLen| && 0 <= t < |m[b]| ==>
              (m[b][t] <==> t < ShiftedLength(yLen[b]))
  {
    var newLen := ShiftedLengths(yLen);
    LengthMask(newLen, Max(newLen))
  }

  /** On a padded batch of target sentences of at least two tokens each
      (a framed sentence always has BOS and EOS): the decoder input and the
      targets are as wide as the target mask; at step t the decoder reads
      token t and must predict token t+1; and the mask keeps exactly the
      steps whose target is a token of the sentence, every other target being
      padding. */
  lemma {:induction false} TeacherForcing(ys: seq<seq<nat>>)
    requires |ys| > 0
    requires forall b :: 0 <= b < |ys| ==> |ys[b]| >= 2
    ensures var y := Padded(ys);
            var input := DecoderInput(y);
            var target := Targets(y);
            var mask := TargetMask(Lengths(ys));
            && Max(ShiftedLengths(Lengths(ys))) == MaxLen(ys) - 1
            && (forall b :: 0 <= b < |ys| ==>
                  |input[b]| == MaxLen(ys) - 1 && |target[b]| == MaxLen(ys) - 1
                  && |mask[b]| == MaxLen(ys) - 1)
            && (forall b, t :: 0 <= b < |ys| && 0 <= t < |ys[b]| - 1 ==>
                  input[b][t] == ys[b][t] && target[b][t] == ys[b][t + 1])
            && (forall b, t :: 0 <= b < |ys| && 0 <= t < MaxLen(ys) - 1 ==>
                  (mask[b][t] <==> t < |ys[b]| - 1)
                  && (!mask[b][t] ==> target[b][t] == 0))
  {
    ShiftedWidth(ys);
    forall b | 0 <= b < |ys|
      ensures var y := Padded(ys);
              && |DecoderInput(y)[b]| == MaxLen(ys) - 1 && |Targets(y)[b]| == MaxLen(ys) - 1
              && (forall t :: 0 <= t < |ys[b]| - 1 ==>
                    DecoderInput(y)[b][t] == ys[b][t] && Targets(y)[b][t] == ys[b][t + 1])
              && (forall t :: |ys[b]| - 1 <= t < MaxLen(ys) - 1 ==> Targets(y)[b][t] == 0)
    {
      ShiftRow(ys, b);
    }
  }

  /** The widest shifted length is one less than the widest sentence. */
  lemma {:induction false} ShiftedWidth(ys: seq<seq<nat>>)
    requires |ys| > 0
    requires forall b :: 0 <= b < |ys| ==> |ys[b]| >= 2
    ensures Max(ShiftedLengths(Lengths(ys))) == MaxLen(ys) - 1
  {
    var newLen := ShiftedLengths(Lengths(ys));
    var top :| 0 <= top < |ys| && |ys[top]| == MaxLen(ys);
    assert newLen[top] == MaxLen(ys) - 1;
    var m := Max(newLen);
    var b :| 0 <= b < |newLen| && newLen[b] == m;
    assert |ys[b]| <= MaxLen(ys);
  }

  /** Row b of the shifted tables: input token t is sentence token t, target
      token t is sentence token t+1, and past the sentence the target is
      padding. */
  lemma {:induction false} ShiftRow(ys: seq<seq<nat>>, b: int)
    requires |ys| > 0
    requires forall k :: 0 <= k < |ys| ==> |ys[k]| >= 2
    requires 0 <= b < |ys|
    ensures var y := Padded(ys);
            && |DecoderInput(y)[b]| == MaxLen(ys) - 1 && |Targets(y)[b]| == MaxLen(ys) - 1
            && (forall t :: 0 <= t < |ys[b]| - 1 ==>
                  DecoderInput(y)[b][t] == ys[b][t] && Targets(y)[b][t] == ys[b][t + 1])
            && (forall t :: |ys[b]| - 1 <= t < MaxLen(ys) - 1 ==> Targets(y)[b][t] == 0)
  {
    var row := Padded(ys)[b];
    assert row == PadTo(ys[b], MaxLen(ys));
    assert row[..|ys[b]|] == ys[b];
    forall t | 0 <= t < |ys[b]|
      ensures row[t] == ys[b][t]
    {
      assert row[..|ys[b]|][t] == row[t];
    }
  }

  /** In a training step the attention mask is built from the source lengths
      and the shifted target lengths: its shape matches the decoder input
      (max(len)-1 steps) and the padded source table, and it is 0 exactly
      where the decoder step and the source position are both real. */
  lemma {:induction false} AttentionMaskOfBatch(xs: seq<seq<nat>>, ys: seq<seq<nat>>)
    requires |xs| == |ys| > 0
    requires forall b :: 0 <= b < |ys| ==> |ys[b]| >= 2
    ensures var masks := AttentionMask(Lengths(xs), ShiftedLengths(Lengths(ys)));
            var x := Padded(xs);
            var input := DecoderInput(Padded(ys));
            && |masks| == |xs|
            && (forall b :: 0 <= b < |xs| ==> |masks[b]| == |input[b]|)
            && (forall b, i :: 0 <= b < |xs| && 0 <= i < |masks[b]| ==> |masks[b][i]| == |x[b]|)
            && (forall b, i, j :: 0 <= b < |xs| && 0 <= i < |masks[b]| && 0 <= j < |masks[b][i]| ==>
                  (masks[b][i][j] == 0 <==> i < |ys[b]| - 1 && j < |xs[b]|))
  {
    var xLen := Lengths(xs);
    var yLen := ShiftedLengths(Lengths(ys));
    AttentionMaskSpec(xLen, yLen);
    TeacherForcing(ys);
    PaddingFacts(xs);
    var top :| 0 <= top < |xs| && |xs[top]| == MaxLen(xs);
    assert xLen[top] == MaxLen(xs);
  }
}
