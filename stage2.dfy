/**
 * The padding step of the stage-2 reference filter (Stage2Filter of the
 * filter script). Stage 2 filters the int32 output of stage 1; before
 * filtering, every channel is preceded by TapCount - DecimationFactor zeros
 * so that output k sees a full window of TapCount samples.
 *
 * The float coefficients, their int32 scaling and the output shift are not
 * part of this model; a filter is represented by its tap count and its
 * decimation factor.
 */
module Stage2 {
  import opened Stage1

  datatype Stage2Filter = Stage2Filter(tapCount: nat, decFactor: int)
  {
    function DecimationFactor(): int { decFactor }
    function TapCount(): nat { tapCount }
  }

  /** Length of the padding: TapCount - DecimationFactor. */
  function PadLength(f: Stage2Filter): nat
    requires f.DecimationFactor() <= f.TapCount()
  {
    f.TapCount() - f.DecimationFactor()
  }

  function Zeros(n: nat): (s: seq<int>)
    ensures |s| == n && forall i :: 0 <= i < n ==> s[i] == 0
  {
    seq(n, i => 0)
  }

  /** One channel of the padded signal: PadLength zeros, then the channel. */
  function Padded(f: Stage2Filter, sig: seq<int>): (s: seq<int>)
    requires f.DecimationFactor() <= f.TapCount()
    ensures |s| == PadLength(f) + |sig|
  {
    Zeros(PadLength(f)) + sig
  }

  /**
   * Stage2Filter._pad_input: a fresh matrix with PadLength more columns,
   * zero in the first PadLength columns of every channel and the input, in
   * order, after them.
   */
  method PadInput(f: Stage2Filter, sig: array2<int>) returns (s: array2<int>)
    requires f.DecimationFactor() <= f.TapCount()
    ensures fresh(s) && s.Length0 == sig.Length0 && s.Length1 == PadLength(f) + sig.Length1
    ensures forall c, i :: 0 <= c < s.Length0 && 0 <= i < PadLength(f) ==> s[c, i] == 0
    ensures forall c, i :: 0 <= c < s.Length0 && 0 <= i < sig.Length1 ==> s[c, PadLength(f) + i] == sig[c, i]
  {
    var p := f.TapCount() - f.DecimationFactor();
    s := new int[sig.Length0, p + sig.Length1]((c, i) => 0);
    for c := 0 to sig.Length0
      invariant forall c', i :: 0 <= c' < s.Length0 && 0 <= i < p ==> s[c', i] == 0
      invariant forall c', i :: 0 <= c' < c && 0 <= i < sig.Length1 ==> s[c', p + i] == sig[c', i]
    {
      for i := 0 to sig.Length1
        invariant forall c', i' :: 0 <= c' < s.Length0 && 0 <= i' < p ==> s[c', i'] == 0
        invariant forall c', i' :: 0 <= c' < c && 0 <= i' < sig.Length1 ==> s[c', p + i'] == sig[c', i']
        invariant forall i' :: 0 <= i' < i ==> s[c, p + i'] == sig[c, i']
      {
        s[c, p + i] := sig[c, i];
      }
    }
  }

  /** Every channel of PadInput's result is Padded of the input channel. */
  lemma PadInputChannel(f: Stage2Filter, sig: array2<int>, s: array2<int>, c: nat)
    requires f.DecimationFactor() <= f.TapCount()
    requires s.Length0 == sig.Length0 && s.Length1 == PadLength(f) + sig.Length1 && c < s.Length0
    requires forall c, i :: 0 <= c < s.Length0 && 0 <= i < PadLength(f) ==> s[c, i] == 0
    requires forall c, i :: 0 <= c < s.Length0 && 0 <= i < sig.Length1 ==> s[c, PadLength(f) + i] == sig[c, i]
    ensures ChannelOf(s, c) == Padded(f, ChannelOf(sig, c))
  {
  }

  /**
   * The two stages pad alike except for the filler: at every position the
   * stage-1 and stage-2 paddings of the same channel, with equal tap counts
   * and decimation factors, differ only inside the padding, where stage 2
   * has zeros and stage 1 the -1/+1 filler.
   */
  lemma PaddingsDifferOnlyInFiller(f1: Stage1Filter, f2: Stage2Filter, sig: seq<int>, i: nat)
    requires f1.TapCount() == f2.TapCount() && f1.DecimationFactor() == f2.DecimationFactor() <= f2.TapCount()
    requires i < PadLength(f2) + |sig|
    ensures i < Stage1.PadLength(f1) ==> Padded(f2, sig)[i] == 0 && Stage1.Padded(f1, sig)[i] == 2 * (i % 2) - 1
    ensures i >= Stage1.PadLength(f1) ==> Padded(f2, sig)[i] == Stage1.Padded(f1, sig)[i] == sig[i - PadLength(f2)]
  {
  }
}
