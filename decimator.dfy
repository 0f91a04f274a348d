/**
 * The one-stage 192 kHz decimator OneStageDecimator192<MIC_COUNT>: per
 * microphone an 8-word (256-bit) PDM history; every call consumes one 32-bit
 * PDM block per microphone and yields two output samples per microphone, one
 * filtered with the "zero after" table and one with the "zero before" table.
 *
 * The bit-weighted convolution fir_1x16_bit and the history advance
 * shift_buffer are platform routines whose bodies are not part of this model.
 * The decimator is built over any deterministic functions standing for them:
 * FirFn maps a history and a table to the 32-bit accumulator, ShiftFn maps
 * one history row to its advanced contents (so it can change that row and
 * nothing else).
 */
module Decimator192 {
  import opened S1Coefficients
  import Bipolar
  import Stage1

  /** Words in one microphone's PDM history: 256 one-bit samples. */
  const HistWords: nat := 8
  /** The filler pattern that every history word holds before the first block. */
  const FillerWord: bv32 := 0x5555_5555
  /** The scale correction applied to every accumulator, as a left shift. */
  const OutputShift: bv32 := 3

  /** One microphone's PDM history; word 0 receives the newest block. */
  type Window = w: seq<bv32> | |w| == HistWords witness [0, 0, 0, 0, 0, 0, 0, 0]

  /** A history row as the constructor leaves it: the filler in every word. */
  function FillerHistory(): Window
  {
    [FillerWord, FillerWord, FillerWord, FillerWord, FillerWord, FillerWord, FillerWord, FillerWord]
  }

  /**
   * The device and the reference filter start from the same history: read
   * tap by tap, with bit 1 standing for -1 and bit 0 for +1, the filler
   * history is -1 at even taps and +1 at odd taps, which is the padding
   * Stage1Filter puts before its input.
   */
  lemma FillerHistoryIsPadFiller(e: bv8)
    ensures Bipolar.BipolarOf(if Tap(FillerHistory(), e) then 1 else 0) == Stage1.Filler(S1TapCount)[e as int]
  {
  }

  /** Stands for fir_1x16_bit(hist, coef): the accumulator of one filter pass. */
  type FirFn = (Window, seq<bv32>) -> bv32

  /** Stands for shift_buffer(hist): the contents of the row after the advance. */
  type ShiftFn = Window -> Window

  /** The window the two filter passes of a channel see: the block stored in word 0. */
  function Ingest(hist: Window, block: bv32): (w: Window)
    ensures w[0] == block && w[1..] == hist[1..]
  {
    hist[0 := block]
  }

  /** The `<< 3` applied to an int32 accumulator, on its two's complement bits. */
  function Scale(acc: bv32): (s: bv32)
    ensures s == acc * 8
  {
    acc << OutputShift
  }

  /** shift_buffer applied to one row. */
  function Advance(shift: ShiftFn, w: Window): Window
  {
    shift(w)
  }

  /** The result of one ProcessBlock: the advanced histories and sample_out[slot][mic]. */
  datatype BlockResult = BlockResult(history: seq<Window>, samples: seq<seq<bv32>>)

  /**
   * What one ProcessBlock computes, given the histories before the call, one
   * PDM block per microphone and the two bound tables (filter_coef[0] and
   * filter_coef[1]).
   */
  function Step(fir: FirFn, shift: ShiftFn, coef: seq<seq<bv32>>, hist: seq<Window>, pdm: seq<bv32>): (r: BlockResult)
    requires |coef| == 2 && |pdm| == |hist|
    ensures |r.history| == |hist| && |r.samples| == 2
    ensures |r.samples[0]| == |hist| && |r.samples[1]| == |hist|
  {
    var n := |hist|;
    BlockResult(
      seq(n, m requires 0 <= m < n => Advance(shift, Ingest(hist[m], pdm[m]))),
      [seq(n, m requires 0 <= m < n => Scale(fir(Ingest(hist[m], pdm[m]), coef[0]))),
       seq(n, m requires 0 <= m < n => Scale(fir(Ingest(hist[m], pdm[m]), coef[1])))])
  }

  /**
   * Both samples of microphone m, and its new history, come from one and the
   * same window: the old history with word 0 replaced by that microphone's
   * block. Slot 0 is filtered with filter_coef[0], slot 1 with filter_coef[1].
   */
  lemma StepOneWindow(fir: FirFn, shift: ShiftFn, coef: seq<seq<bv32>>, hist: seq<Window>, pdm: seq<bv32>, m: nat)
    requires |coef| == 2 && |pdm| == |hist| && m < |hist|
    ensures var r := Step(fir, shift, coef, hist, pdm);
      exists w: Window ::
        w[0] == pdm[m] && w[1..] == hist[m][1..] &&
        r.samples[0][m] == fir(w, coef[0]) * 8 &&
        r.samples[1][m] == fir(w, coef[1]) * 8 &&
        r.history[m] == shift(w)
  {
    var w := Ingest(hist[m], pdm[m]);
    var r := Step(fir, shift, coef, hist, pdm);
    assert r.samples[0][m] == fir(w, coef[0]) * 8;
    assert r.samples[1][m] == fir(w, coef[1]) * 8;
  }

  /**
   * Channel independence: what ProcessBlock produces for microphone m (its
   * two samples and its new history) depends only on that microphone's
   * history and block, never on another channel's.
   */
  lemma StepChannelIndependent(fir: FirFn, shift: ShiftFn, coef: seq<seq<bv32>>,
                               hist1: seq<Window>, pdm1: seq<bv32>, hist2: seq<Window>, pdm2: seq<bv32>, m: nat)
    requires |coef| == 2 && |pdm1| == |hist1| && |pdm2| == |hist2|
    requires m < |hist1| && m < |hist2| && hist1[m] == hist2[m] && pdm1[m] == pdm2[m]
    ensures var r1, r2 := Step(fir, shift, coef, hist1, pdm1), Step(fir, shift, coef, hist2, pdm2);
      r1.history[m] == r2.history[m] && r1.samples[0][m] == r2.samples[0][m] && r1.samples[1][m] == r2.samples[1][m]
  {
  }

  /** shift_buffer as the library documents it: every word moves one place towards the old end. */
  ghost predicate MovesUp(shift: ShiftFn)
  {
    forall w: Window :: shift(w)[1..] == w[..HistWords - 1]
  }

  /** The histories after feeding a sequence of calls, oldest call first. */
  function Run(fir: FirFn, shift: ShiftFn, coef: seq<seq<bv32>>, hist: seq<Window>, blocks: seq<seq<bv32>>): (h: seq<Window>)
    requires |coef| == 2
    requires forall k :: 0 <= k < |blocks| ==> |blocks[k]| == |hist|
    ensures |h| == |hist|
    decreases |blocks|
  {
    if blocks == [] then hist
    else
      var h := Run(fir, shift, coef, hist, blocks[..|blocks| - 1]);
      Step(fir, shift, coef, h, blocks[|blocks| - 1]).history
  }

  /**
   * The sliding window: if shift_buffer moves every word one place up, then
   * after k calls, word j (1 <= j <= k, j < 8) of microphone m's history is
   * the block that microphone received j calls ago.
   */
  lemma {:induction false} RunSlidingWindow(fir: FirFn, shift: ShiftFn, coef: seq<seq<bv32>>, hist: seq<Window>,
                                            blocks: seq<seq<bv32>>, m: nat, j: nat)
    requires |coef| == 2 && MovesUp(shift)
    requires forall k :: 0 <= k < |blocks| ==> |blocks[k]| == |hist|
    requires m < |hist| && 1 <= j < HistWords && j <= |blocks|
    ensures Run(fir, shift, coef, hist, blocks)[m][j] == blocks[|blocks| - j][m]
    decreases |blocks|
  {
    var n := |blocks|;
    var prefix := blocks[..n - 1];
    var h := Run(fir, shift, coef, hist, prefix);
    var w := Ingest(h[m], blocks[n - 1][m]);
    assert Run(fir, shift, coef, hist, blocks)[m] == shift(w);
    assert shift(w)[1..] == w[..HistWords - 1];
    assert shift(w)[j] == w[j - 1];
    if j > 1 {
      RunSlidingWindow(fir, shift, coef, hist, prefix, m, j - 1);
      assert prefix[|prefix| - (j - 1)] == blocks[n - j];
    }
  }

  /** OneStageDecimator192<MIC_COUNT>, with the two foreign routines it calls. */
  class OneStageDecimator192 {
    /** MIC_COUNT. */
    const micCount: nat
    /** fir_1x16_bit. */
    const fir: FirFn
    /** shift_buffer. */
    const shift: ShiftFn

    /** stage1.filter_coef: unbound ([]) until Init binds both tables. */
    var filterCoef: seq<seq<bv32>>
    /** stage1.pdm_history[MIC_COUNT][8]. */
    const pdmHistory: array2<bv32>

    ghost predicate Valid()
      reads this
    {
      pdmHistory.Length0 == micCount && pdmHistory.Length1 == HistWords
    }

    /** Init has run: filter_coef[0] is s1_fir_zero_after, filter_coef[1] is s1_fir_zero_before. */
    predicate Initialised()
      reads this
    {
      filterCoef == [ZeroAfter(), ZeroBefore()]
    }

    /** The history row of microphone mic. */
    function History(mic: nat): (w: Window)
      reads this, pdmHistory
      requires Valid() && mic < micCount
      ensures forall i :: 0 <= i < HistWords ==> w[i] == pdmHistory[mic, i]
    {
      seq(HistWords, i requires 0 <= i < HistWords reads pdmHistory => pdmHistory[mic, i])
    }

    /** All history rows, microphone by microphone. */
    function Histories(): (h: seq<Window>)
      reads this, pdmHistory
      requires Valid()
      ensures |h| == micCount && forall m :: 0 <= m < micCount ==> h[m] == History(m)
    {
      seq(micCount, m requires 0 <= m < micCount reads this, pdmHistory => History(m))
    }

    /**
     * The decimator as declared: every history word holds the filler pattern
     * and no table is bound yet.
     */
    constructor (micCount: nat, fir: FirFn, shift: ShiftFn)
      ensures Valid() && fresh(pdmHistory) && !Initialised()
      ensures this.micCount == micCount && this.fir == fir && this.shift == shift
      ensures forall m, i :: 0 <= m < micCount && 0 <= i < HistWords ==> pdmHistory[m, i] == FillerWord
      ensures forall m :: 0 <= m < micCount ==> History(m) == FillerHistory()
    {
      this.micCount := micCount;
      this.fir := fir;
      this.shift := shift;
      filterCoef := [];
      pdmHistory := new bv32[micCount, HistWords]((m, i) => FillerWord);
    }

    /** Init: binds filter_coef[0] to s1_fir_zero_after and filter_coef[1] to s1_fir_zero_before. */
    method Init()
      modifies this
      ensures Initialised()
      ensures filterCoef[0] == ZeroAfter() && filterCoef[1] == ZeroBefore()
      ensures unchanged(pdmHistory)
    {
      filterCoef := [ZeroAfter(), ZeroBefore()];
    }

    /** shift_buffer(hist) for microphone mic's row: that row advances, no other word changes. */
    method ShiftBuffer(mic: nat)
      requires Valid() && mic < micCount
      modifies pdmHistory
      ensures History(mic) == shift(old(History(mic)))
      ensures forall m :: 0 <= m < micCount && m != mic ==> History(m) == old(History(m))
    {
      var next := shift(History(mic));
      for i := 0 to HistWords
        invariant forall k :: 0 <= k < i ==> pdmHistory[mic, k] == next[k]
        invariant forall m, k :: 0 <= m < micCount && 0 <= k < HistWords && (m != mic || k >= i) ==>
          pdmHistory[m, k] == old(pdmHistory[m, k])
      {
        pdmHistory[mic, i] := next[i];
      }
      assert History(mic) == next;
      forall m | 0 <= m < micCount && m != mic
        ensures History(m) == old(History(m))
      {
        assert forall k :: 0 <= k < HistWords ==> History(m)[k] == old(History(m))[k];
      }
    }

    /**
     * The body of ProcessBlock's loop for one microphone: its block goes into
     * word 0 of its history, that window is filtered with filter_coef[0] into
     * sample_out[0][mic] and with filter_coef[1] into sample_out[1][mic]
     * (each scaled by << 3), then its history advances. No other
     * microphone's history or output slot changes.
     */
    method ProcessChannel(sampleOut: array2<bv32>, mic: nat, block: bv32)
      requires Valid() && |filterCoef| == 2
      requires sampleOut.Length0 == 2 && sampleOut.Length1 == micCount && mic < micCount
      requires sampleOut != pdmHistory
      modifies pdmHistory, sampleOut
      ensures History(mic) == Advance(shift, Ingest(old(History(mic)), block))
      ensures sampleOut[0, mic] == Scale(fir(Ingest(old(History(mic)), block), filterCoef[0]))
      ensures sampleOut[1, mic] == Scale(fir(Ingest(old(History(mic)), block), filterCoef[1]))
      ensures forall m :: 0 <= m < micCount && m != mic ==> History(m) == old(History(m))
      ensures forall s, m :: 0 <= s < 2 && 0 <= m < micCount && m != mic ==> sampleOut[s, m] == old(sampleOut[s, m])
    {
      ghost var before := Histories();
      pdmHistory[mic, 0] := block;
      assert History(mic) == Ingest(before[mic], block);
      forall m | 0 <= m < micCount && m != mic
        ensures History(m) == before[m]
      {
        assert forall k :: 0 <= k < HistWords ==> History(m)[k] == before[m][k];
      }
      var hist := History(mic);
      sampleOut[0, mic] := fir(hist, filterCoef[0]) << OutputShift;
      sampleOut[1, mic] := fir(hist, filterCoef[1]) << OutputShift;
      assert History(mic) == hist;
      ShiftBuffer(mic);
      assert History(mic) == Advance(shift, hist);
    }

    /**
     * ProcessBlock: every microphone in turn goes through ProcessChannel, so
     * every one of the 2 * MIC_COUNT output slots is written; the new
     * histories and the outputs are those of Step.
     */
    method ProcessBlock(sampleOut: array2<bv32>, pdmBlock: seq<bv32>)
      requires Valid() && Initialised()
      requires sampleOut.Length0 == 2 && sampleOut.Length1 == micCount && |pdmBlock| == micCount
      requires sampleOut != pdmHistory
      modifies pdmHistory, sampleOut
      ensures Valid() && Initialised()
      ensures var r := Step(fir, shift, filterCoef, old(Histories()), pdmBlock);
        Histories() == r.history &&
        forall s, m :: 0 <= s < 2 && 0 <= m < micCount ==> sampleOut[s, m] == r.samples[s][m]
    {
      ghost var start := Histories();
      ghost var r := Step(fir, shift, filterCoef, start, pdmBlock);
      for mic := 0 to micCount
        invariant forall m :: 0 <= m < mic ==> History(m) == r.history[m]
        invariant forall m :: mic <= m < micCount ==> History(m) == start[m]
        invariant forall s, m :: 0 <= s < 2 && 0 <= m < mic ==> sampleOut[s, m] == r.samples[s][m]
      {
        ProcessChannel(sampleOut, mic, pdmBlock[mic]);
      }
      assert Histories() == r.history;
    }
  }
}
