/**
 * The integer core of the stage-1 reference filter (class Stage1Filter of
 * the filter script): the coefficient checks of its constructor, the padding
 * of the PDM input with an alternating -1/+1 filler, the strided integer FIR
 * FilterInt16, and the packing of the binary coefficient matrix into device
 * words (ToXCoreCoefArray).
 *
 * Signals are integer matrices, one row per channel (a one-dimensional
 * signal is one channel). The float coefficients, their scaling to int16 and
 * their expansion into a bipolar bit matrix are not part of this model: the
 * int16 coefficients and the bipolar matrix are inputs of the constructor.
 */
module Stage1 {
  import opened Bipolar

  /** Stage1Filter.BLOCK_SIZE: the tap count must be a multiple of it. */
  const BlockSize: nat := 256
  /** Stage1Filter.INT16_MAX_COEFFICIENT: the largest magnitude of a scaled coefficient. */
  const Int16MaxCoefficient: int := 32766
  /** The default decimation factor of the constructor. */
  const DefaultDecimationFactor: int := 32
  /** Bits in one device word. */
  const WordBits: nat := 32

  datatype Result<T, E> = Ok(value: T) | Err(error: E)

  /** Why the constructor rejects its coefficients. */
  datatype FilterError =
    | NotBlockMultiple(count: nat)  // the assertion on the coefficient count
    | EmptyCoefficients             // argmax of an empty array raises

  /** A filter as the constructor leaves it; the float coefficients are represented by their count. */
  datatype Stage1Filter = Stage1Filter(coefsInt16: seq<int>, coefsBinary: seq<seq<int>>, decFactor: int)
  {
    function DecimationFactor(): int { decFactor }
    function TapCount(): nat { |coefsInt16| }
    function BlockCount(): nat { TapCount() / BlockSize }

    /**
     * What the constructor guarantees: a non-empty multiple of 256 taps,
     * int16 coefficients scaled to at most 32766 in magnitude, and a binary
     * matrix with one row of TapCount entries per bit plane.
     */
    ghost predicate Valid()
    {
      TapCount() > 0 && TapCount() % BlockSize == 0 &&
      (forall j :: 0 <= j < |coefsInt16| ==> -Int16MaxCoefficient <= coefsInt16[j] <= Int16MaxCoefficient) &&
      (forall p :: 0 <= p < |coefsBinary| ==> |coefsBinary[p]| == TapCount() && IsBinary(coefsBinary[p]))
    }
  }

  /** The bipolar matrix (one row of bit-plane values per tap) is rectangular, of the given width, and +-1. */
  predicate IsBipolarMatrix(m: seq<seq<int>>, width: nat)
  {
    forall j :: 0 <= j < |m| ==> |m[j]| == width && forall p :: 0 <= p < width ==> m[j][p] == 1 || m[j][p] == -1
  }

  /** coefs_binary = (1 - coefs_bipolar.T) // 2: transposed to one row per bit plane, then mapped to binary. */
  function CoefsBinaryOf(bipolar: seq<seq<int>>, width: nat): (b: seq<seq<int>>)
    requires forall j :: 0 <= j < |bipolar| ==> |bipolar[j]| == width
    ensures |b| == width && forall p :: 0 <= p < width ==> |b[p]| == |bipolar|
    ensures forall p, j :: 0 <= p < width && 0 <= j < |bipolar| ==> b[p][j] == BinaryOf(bipolar[j][p])
  {
    seq(width, p requires 0 <= p < width => seq(|bipolar|, j requires 0 <= j < |bipolar| => BinaryOf(bipolar[j][p])))
  }

  /** The binary matrix of a bipolar one is binary, and reading it back as bipolar gives the transpose. */
  lemma CoefsBinaryRoundTrip(bipolar: seq<seq<int>>, width: nat, p: nat, j: nat)
    requires IsBipolarMatrix(bipolar, width) && p < width && j < |bipolar|
    ensures var b := CoefsBinaryOf(bipolar, width);
      (b[p][j] == 0 || b[p][j] == 1) && BipolarOf(b[p][j]) == bipolar[j][p]
  {
  }

  /**
   * The constructor, on the int16 coefficients and their bipolar matrix. It
   * fails on a coefficient count that is not a multiple of 256 and, after
   * that check, on an empty coefficient array.
   */
  function NewStage1Filter(coefsInt16: seq<int>, coefsBipolar: seq<seq<int>>, width: nat, decimationFactor: int): (r: Result<Stage1Filter, FilterError>)
    requires |coefsBipolar| == |coefsInt16| && IsBipolarMatrix(coefsBipolar, width)
    requires forall j :: 0 <= j < |coefsInt16| ==> -Int16MaxCoefficient <= coefsInt16[j] <= Int16MaxCoefficient
    ensures r.Ok? <==> |coefsInt16| > 0 && |coefsInt16| % BlockSize == 0
    ensures r.Err? ==> r.error == if |coefsInt16| % BlockSize != 0 then NotBlockMultiple(|coefsInt16|) else EmptyCoefficients
    ensures r.Ok? ==> r.value.Valid() && r.value.TapCount() == |coefsInt16|
    ensures r.Ok? ==> r.value.BlockCount() * BlockSize == |coefsInt16| && r.value.DecimationFactor() == decimationFactor
  {
    if |coefsInt16| % BlockSize != 0 then Err(NotBlockMultiple(|coefsInt16|))
    else if |coefsInt16| == 0 then Err(EmptyCoefficients)
    else
      var binary := CoefsBinaryOf(coefsBipolar, width);
      forall p, j | 0 <= p < width && 0 <= j < |coefsBipolar|
        ensures binary[p][j] == 0 || binary[p][j] == 1
      {
        CoefsBinaryRoundTrip(coefsBipolar, width, p, j);
      }
      Ok(Stage1Filter(coefsInt16, binary, decimationFactor))
  }

  /* ---------------- Padding ---------------- */

  /** The filler prefix: -1 at even positions, +1 at odd positions. */
  function Filler(p: nat): (s: seq<int>)
    ensures |s| == p && forall k :: 0 <= k < p ==> s[k] == if k % 2 == 0 then -1 else 1
  {
    seq(p, k requires 0 <= k < p => 2 * (k % 2) - 1)
  }

  /** Length of the padding: TapCount - DecimationFactor. */
  function PadLength(f: Stage1Filter): nat
    requires f.DecimationFactor() <= f.TapCount()
  {
    f.TapCount() - f.DecimationFactor()
  }

  /** One channel of the padded signal. */
  function Padded(f: Stage1Filter, sig: seq<int>): (s: seq<int>)
    requires f.DecimationFactor() <= f.TapCount()
    ensures |s| == PadLength(f) + |sig|
  {
    Filler(PadLength(f)) + sig
  }

  /** Channel c of a signal matrix. */
  function ChannelOf(a: array2<int>, c: nat): (s: seq<int>)
    reads a
    requires c < a.Length0
    ensures |s| == a.Length1 && forall i :: 0 <= i < a.Length1 ==> s[i] == a[c, i]
  {
    seq(a.Length1, i requires 0 <= i < a.Length1 reads a => a[c, i])
  }

  /**
   * Stage1Filter._pad_input: a fresh matrix with P = TapCount -
   * DecimationFactor more columns; the first P columns of every channel
   * hold the filler, the rest the input, in order.
   */
  method PadInput(f: Stage1Filter, sig: array2<int>) returns (s: array2<int>)
    requires f.DecimationFactor() <= f.TapCount()
    ensures fresh(s) && s.Length0 == sig.Length0 && s.Length1 == PadLength(f) + sig.Length1
    ensures forall c, i :: 0 <= c < s.Length0 && 0 <= i < PadLength(f) ==> s[c, i] == if i % 2 == 0 then -1 else 1
    ensures forall c, i :: 0 <= c < s.Length0 && 0 <= i < sig.Length1 ==> s[c, PadLength(f) + i] == sig[c, i]
  {
    var p := f.TapCount() - f.DecimationFactor();
    s := new int[sig.Length0, p + sig.Length1]((c, i) => 0);
    for c := 0 to sig.Length0
      invariant forall c', i :: 0 <= c' < c && 0 <= i < p ==> s[c', i] == if i % 2 == 0 then -1 else 1
    {
      for i := 0 to p
        invariant forall c', i' :: 0 <= c' < c && 0 <= i' < p ==> s[c', i'] == if i' % 2 == 0 then -1 else 1
        invariant forall i' :: 0 <= i' < i ==> s[c, i'] == if i' % 2 == 0 then -1 else 1
      {
        s[c, i] := 2 * (i % 2) - 1;
      }
    }
    for c := 0 to sig.Length0
      invariant forall c', i :: 0 <= c' < s.Length0 && 0 <= i < p ==> s[c', i] == if i % 2 == 0 then -1 else 1
      invariant forall c', i :: 0 <= c' < c && 0 <= i < sig.Length1 ==> s[c', p + i] == sig[c', i]
    {
      for i := 0 to sig.Length1
        invariant forall c', i' :: 0 <= c' < s.Length0 && 0 <= i' < p ==> s[c', i'] == if i' % 2 == 0 then -1 else 1
        invariant forall c', i' :: 0 <= c' < c && 0 <= i' < sig.Length1 ==> s[c', p + i'] == sig[c', i']
        invariant forall i' :: 0 <= i' < i ==> s[c, p + i'] == sig[c, i']
      {
        s[c, p + i] := sig[c, i];
      }
    }
  }

  /** Every channel of PadInput's result is Padded of the input channel. */
  lemma PadInputChannel(f: Stage1Filter, sig: array2<int>, s: array2<int>, c: nat)
    requires f.DecimationFactor() <= f.TapCount()
    requires s.Length0 == sig.Length0 && s.Length1 == PadLength(f) + sig.Length1 && c < s.Length0
    requires forall c, i :: 0 <= c < s.Length0 && 0 <= i < PadLength(f) ==> s[c, i] == if i % 2 == 0 then -1 else 1
    requires forall c, i :: 0 <= c < s.Length0 && 0 <= i < sig.Length1 ==> s[c, PadLength(f) + i] == sig[c, i]
    ensures ChannelOf(s, c) == Padded(f, ChannelOf(sig, c))
  {
  }

  /* ---------------- FilterInt16 ---------------- */

  /** A value stored into an int32 array: two's complement wrap-around. */
  function Int32(x: int): (r: int)
    ensures -0x8000_0000 <= r < 0x8000_0000
    ensures -0x8000_0000 <= x < 0x8000_0000 ==> r == x
  {
    (x + 0x8000_0000) % 0x1_0000_0000 - 0x8000_0000
  }

  /** Window k of a padded channel lies inside it: Q * k + TapCount <= P + SAMPS_IN. */
  lemma WindowInBounds(q: nat, taps: nat, n: nat, k: nat)
    requires 0 < q <= taps && k < n / q
    ensures q * k + taps <= (taps - q) + n
  {
    assert k + 1 <= n / q;
    assert q * (k + 1) <= q * (n / q);
    assert q * (n / q) <= n;
  }

  /** The window S[Q*k : Q*k + TapCount] of output k. */
  function Window(f: Stage1Filter, sig: seq<int>, k: nat): (x: seq<int>)
    requires 0 < f.DecimationFactor() <= f.TapCount() && k < |sig| / f.DecimationFactor()
    ensures |x| == f.TapCount()
  {
    var q := f.DecimationFactor();
    WindowInBounds(q, f.TapCount(), |sig|, k);
    Padded(f, sig)[q * k .. q * k + f.TapCount()]
  }

  /** The int32 accumulator of output k: the window's dot product with the int16 coefficients. */
  function Accumulator(f: Stage1Filter, sig: seq<int>, k: nat): int
    requires 0 < f.DecimationFactor() <= f.TapCount() && k < |sig| / f.DecimationFactor()
  {
    Int32(Dot(Window(f, sig, k), f.coefsInt16))
  }

  /** Output k of one channel: the accumulator shifted left by 8, stored as int32. */
  function FilterOutput(f: Stage1Filter, sig: seq<int>, k: nat): int
    requires 0 < f.DecimationFactor() <= f.TapCount() && k < |sig| / f.DecimationFactor()
  {
    Int32(Accumulator(f, sig, k) * 256)
  }

  /** The accumulator pass of FilterInt16 over the padded input s. */
  method Accumulate(f: Stage1Filter, pdm: array2<int>, s: array2<int>) returns (res: array2<int>)
    requires 0 < f.DecimationFactor() <= f.TapCount()
    requires s.Length0 == pdm.Length0
    requires forall c :: 0 <= c < pdm.Length0 ==> ChannelOf(s, c) == Padded(f, ChannelOf(pdm, c))
    ensures fresh(res) && res.Length0 == pdm.Length0 && res.Length1 == pdm.Length1 / f.DecimationFactor()
    ensures forall c, k :: 0 <= c < res.Length0 && 0 <= k < res.Length1 ==> res[c, k] == Accumulator(f, ChannelOf(pdm, c), k)
  {
    var chans, q, taps := pdm.Length0, f.DecimationFactor(), f.TapCount();
    var nPcm := pdm.Length1 / q;
    res := new int[chans, nPcm]((c, k) => 0);
    for k := 0 to nPcm
      invariant forall c, j :: 0 <= c < chans && 0 <= j < k ==> res[c, j] == Accumulator(f, ChannelOf(pdm, c), j)
    {
      WindowInBounds(q, taps, pdm.Length1, k);
      for c := 0 to chans
        invariant forall c', j :: 0 <= c' < chans && 0 <= j < k ==> res[c', j] == Accumulator(f, ChannelOf(pdm, c'), j)
        invariant forall c' :: 0 <= c' < c ==> res[c', k] == Accumulator(f, ChannelOf(pdm, c'), k)
      {
        var x := ChannelOf(s, c)[q * k .. q * k + taps];
        assert x == Window(f, ChannelOf(pdm, c), k);
        res[c, k] := Int32(Dot(x, f.coefsInt16));
      }
    }
  }

  /**
   * Stage1Filter.FilterInt16: SAMPS_IN // Q outputs per channel, output k
   * being FilterOutput of window k of the padded channel.
   */
  method FilterInt16(f: Stage1Filter, pdm: array2<int>) returns (out: array2<int>)
    requires 0 < f.DecimationFactor() <= f.TapCount()
    ensures fresh(out) && out.Length0 == pdm.Length0 && out.Length1 == pdm.Length1 / f.DecimationFactor()
    ensures forall c, k :: 0 <= c < out.Length0 && 0 <= k < out.Length1 ==> out[c, k] == FilterOutput(f, ChannelOf(pdm, c), k)
  {
    var s := PadInput(f, pdm);
    forall c | 0 <= c < pdm.Length0
      ensures ChannelOf(s, c) == Padded(f, ChannelOf(pdm, c))
    {
      PadInputChannel(f, pdm, s, c);
    }
    var res := Accumulate(f, pdm, s);
    out := ShiftLeft8(res);
  }

  /** The final res << 8 of FilterInt16, element by element into a fresh int32 matrix. */
  method ShiftLeft8(res: array2<int>) returns (out: array2<int>)
    ensures fresh(out) && out.Length0 == res.Length0 && out.Length1 == res.Length1
    ensures forall c, k :: 0 <= c < out.Length0 && 0 <= k < out.Length1 ==> out[c, k] == Int32(res[c, k] * 256)
  {
    out := new int[res.Length0, res.Length1]((c, k) => 0);
    for c := 0 to res.Length0
      invariant forall c', k :: 0 <= c' < c && 0 <= k < res.Length1 ==> out[c', k] == Int32(res[c', k] * 256)
    {
      for k := 0 to res.Length1
        invariant forall c', k' :: 0 <= c' < c && 0 <= k' < res.Length1 ==> out[c', k'] == Int32(res[c', k'] * 256)
        invariant forall k' :: 0 <= k' < k ==> out[c, k'] == Int32(res[c, k'] * 256)
      {
        out[c, k] := Int32(res[c, k] * 256);
      }
    }
  }

  /** The newest DecimationFactor samples of window k are input samples Q*k .. Q*k + Q - 1, at its end. */
  lemma WindowNewest(f: Stage1Filter, sig: seq<int>, k: nat)
    requires 0 < f.DecimationFactor() <= f.TapCount() && k < |sig| / f.DecimationFactor()
    ensures f.DecimationFactor() * (k + 1) <= |sig|
    ensures Window(f, sig, k)[PadLength(f)..] == sig[f.DecimationFactor() * k .. f.DecimationFactor() * (k + 1)]
  {
    WindowInBounds(f.DecimationFactor(), f.TapCount(), |sig|, k);
  }

  /** Output k depends only on the first Q * (k + 1) input samples. */
  lemma FilterCausal(f: Stage1Filter, sig: seq<int>, k: nat)
    requires 0 < f.DecimationFactor() <= f.TapCount() && k < |sig| / f.DecimationFactor()
    ensures f.DecimationFactor() * (k + 1) <= |sig|
    ensures k < f.DecimationFactor() * (k + 1) / f.DecimationFactor()
    ensures FilterOutput(f, sig, k) == FilterOutput(f, sig[..f.DecimationFactor() * (k + 1)], k)
  {
    var q, p := f.DecimationFactor(), PadLength(f);
    WindowInBounds(q, f.TapCount(), |sig|, k);
    MulDiv(q, k + 1);
    var prefix := sig[..q * (k + 1)];
    var whole, part := Padded(f, sig), Padded(f, prefix);
    assert part == whole[..p + q * (k + 1)];
    assert q * k + f.TapCount() == p + q * (k + 1);
    assert Window(f, sig, k) == whole[q * k .. q * k + f.TapCount()];
    assert Window(f, prefix, k) == part[q * k .. q * k + f.TapCount()];
    assert Window(f, sig, k) == Window(f, prefix, k);
    assert Accumulator(f, sig, k) == Accumulator(f, prefix, k);
  }

  lemma MulDiv(q: int, a: int)
    requires q > 0
    ensures q * a / q == a
  {
    var x := q * a;
    var d := x / q - a;
    assert q * (x / q) + x % q == x;
    assert q * d == -(x % q);
  }

  /** A signal of +-1 samples, as PDM input is. */
  predicate IsBipolarSignal(sig: seq<int>)
  {
    forall i :: 0 <= i < |sig| ==> sig[i] == 1 || sig[i] == -1
  }

  /** A dot product of a +-1 vector with one bounded by m in magnitude is bounded by |u| * m. */
  lemma {:induction false} DotBound(u: seq<int>, v: seq<int>, m: int)
    requires |u| == |v| && IsBipolarSignal(u) && m >= 0
    requires forall i :: 0 <= i < |v| ==> -m <= v[i] <= m
    ensures -(|u| * m) <= Dot(u, v) <= |u| * m
  {
    if u != [] {
      DotBound(u[1..], v[1..], m);
      assert -m <= u[0] * v[0] <= m;
      assert |u| * m == m + (|u| - 1) * m;
    }
  }

  /**
   * With one block of taps and a +-1 input, neither the int32 accumulator
   * nor the << 8 wraps: the output is 256 times the exact dot product.
   */
  lemma FilterNoWrap(f: Stage1Filter, sig: seq<int>, k: nat)
    requires f.Valid() && f.TapCount() == BlockSize && 0 < f.DecimationFactor() <= f.TapCount()
    requires k < |sig| / f.DecimationFactor() && IsBipolarSignal(sig)
    ensures FilterOutput(f, sig, k) == 256 * Dot(Window(f, sig, k), f.coefsInt16)
  {
    var w := Window(f, sig, k);
    WindowInBounds(f.DecimationFactor(), f.TapCount(), |sig|, k);
    assert IsBipolarSignal(Padded(f, sig));
    DotBound(w, f.coefsInt16, Int16MaxCoefficient);
  }

  /* ---------------- ToXCoreCoefArray ---------------- */

  function Pow2(n: nat): (p: nat)
    ensures p >= 1
  {
    if n == 0 then 1 else 2 * Pow2(n - 1)
  }

  /** Bit i of x, counted from the least significant bit. */
  function BitOf(x: nat, i: nat): nat
  {
    if i == 0 then x % 2 else BitOf(x / 2, i - 1)
  }

  /** The place values 2^(n-1), ..., 2^1, 2^0: F = 2**arange(n) reversed. */
  function Weights(n: nat): (w: seq<int>)
    ensures |w| == n && forall j :: 0 <= j < n ==> w[j] == Pow2(n - 1 - j)
  {
    seq(n, j requires 0 <= j < n => Pow2(n - 1 - j))
  }

  /** A vector scaled by c. */
  function Scaled(c: int, w: seq<int>): (s: seq<int>)
    ensures |s| == |w| && forall i :: 0 <= i < |w| ==> s[i] == c * w[i]
  {
    seq(|w|, i requires 0 <= i < |w| => c * w[i])
  }

  /** A dot product splits off its last term. */
  lemma {:induction false} DotSplitLast(u: seq<int>, v: seq<int>)
    requires |u| == |v| > 0
    ensures Dot(u, v) == Dot(u[..|u| - 1], v[..|v| - 1]) + u[|u| - 1] * v[|v| - 1]
  {
    if |u| > 1 {
      DotSplitLast(u[1..], v[1..]);
      assert u[1..][..|u| - 2] == u[..|u| - 1][1..];
      assert v[1..][..|v| - 2] == v[..|v| - 1][1..];
    }
  }

  /** Scaling one side scales the dot product. */
  lemma {:induction false} DotScaled(c: int, w: seq<int>, v: seq<int>)
    requires |w| == |v|
    ensures Dot(Scaled(c, w), v) == c * Dot(w, v)
  {
    if w != [] {
      DotScaled(c, w[1..], v[1..]);
      assert Scaled(c, w)[1..] == Scaled(c, w[1..]);
      calc {
        Dot(Scaled(c, w), v);
        c * w[0] * v[0] + c * Dot(w[1..], v[1..]);
        { assert c * w[0] * v[0] + c * Dot(w[1..], v[1..]) == c * (w[0] * v[0] + Dot(w[1..], v[1..])); }
        c * Dot(w, v);
      }
    }
  }

  /** The packed value of a row is twice the packed value of its prefix plus its last bit. */
  /** Dropping the last place value 2^0 leaves twice the place values of one bit fewer. */
  lemma WeightsPrefix(n: nat)
    requires n > 0
    ensures Weights(n)[..n - 1] == Scaled(2, Weights(n - 1)) && Weights(n)[n - 1] == 1
  {
    var w, w' := Weights(n), Weights(n - 1);
    forall j | 0 <= j < n - 1
      ensures w[..n - 1][j] == Scaled(2, w')[j]
    {
      assert w[j] == Pow2(n - 1 - j) == 2 * Pow2(n - 2 - j);
    }
  }

  lemma PackedLast(row: seq<int>)
    requires |row| > 0
    ensures Dot(Weights(|row|), row) == 2 * Dot(Weights(|row| - 1), row[..|row| - 1]) + row[|row| - 1]
  {
    var n := |row|;
    var w, w', prefix := Weights(n), Weights(n - 1), row[..n - 1];
    WeightsPrefix(n);
    DotSplitLast(w, row);
    DotScaled(2, w', prefix);
    assert Dot(w[..n - 1], prefix) == 2 * Dot(w', prefix);
    assert w[n - 1] * row[n - 1] == row[n - 1];
  }

  /**
   * A binary row packed most significant bit first is an n-bit number
   * whose bit i is the row's entry n - 1 - i.
   */
  lemma {:induction false} PackedWord(row: seq<int>)
    requires IsBinary(row)
    ensures 0 <= Dot(Weights(|row|), row) < Pow2(|row|)
    ensures forall i :: 0 <= i < |row| ==> BitOf(Dot(Weights(|row|), row), i) == row[|row| - 1 - i]
  {
    var n := |row|;
    if n > 0 {
      var prefix := row[..n - 1];
      PackedWord(prefix);
      PackedLast(row);
      var v, v' := Dot(Weights(n), row), Dot(Weights(n - 1), prefix);
      assert v / 2 == v' && v % 2 == row[n - 1];
      forall i | 0 <= i < n
        ensures BitOf(v, i) == row[n - 1 - i]
      {
        if i > 0 {
          assert BitOf(v, i) == BitOf(v', i - 1) == prefix[n - 2 - (i - 1)];
        }
      }
    }
  }

  /** The binary matrix flattened row by row (numpy's reshape order). */
  function Flat(rows: seq<seq<int>>): seq<int>
  {
    if rows == [] then [] else rows[0] + Flat(rows[1..])
  }

  /** Flattening rows of width w gives |rows| * w entries, binary when the rows are. */
  lemma {:induction false} FlatShape(rows: seq<seq<int>>, w: nat)
    requires forall p :: 0 <= p < |rows| ==> |rows[p]| == w && IsBinary(rows[p])
    ensures |Flat(rows)| == |rows| * w && IsBinary(Flat(rows))
  {
    if rows != [] {
      FlatShape(rows[1..], w);
      assert IsBinary(rows[0]);
    }
  }

  /** A matrix of planes rows of a multiple of 256 taps splits into whole device blocks. */
  lemma FlatBlocks(planes: nat, taps: nat)
    requires taps % 256 == 0
    ensures (planes * taps) % 256 == 0 && (planes * taps) / 32 == planes * (taps / 256) * 8
  {
    var m := taps / 256;
    assert taps == 256 * m;
    assert planes * taps == 256 * (planes * m);
  }

  /**
   * Where device word k takes bit i from: block k / 8, 32-tap group
   * 7 - k % 8 of that block, tap i of the group.
   */
  function DeviceIndex(k: nat, i: nat): nat
  {
    256 * (k / 8) + 32 * (7 - k % 8) + i
  }

  lemma DeviceIndexInRange(n: nat, k: nat, i: nat)
    requires n % 256 == 0 && k < n / 32 && i < 32
    ensures DeviceIndex(k, i) < n
  {
    var m := n / 256;
    assert n == 256 * m;
    assert n / 32 == 8 * m;
    assert k / 8 < m;
    assert 256 * (k / 8) <= 256 * (m - 1);
  }

  /** Tap e of block b is bit e % 32 of word 7 - e / 32 of that block's eight words. */
  lemma DeviceIndexOfTap(b: nat, e: nat)
    requires e < 256
    ensures DeviceIndex(8 * b + (7 - e / 32), e % 32) == 256 * b + e
  {
  }

  /** Bit i of device word k, read from the flattened binary matrix. */
  function DeviceBit(flat: seq<int>, k: nat, i: nat): int
    requires |flat| % 256 == 0 && k < |flat| / 32 && i < 32
  {
    DeviceIndexInRange(|flat|, k, i);
    flat[DeviceIndex(k, i)]
  }

  /** Row k of B after the reshape to (blocks, 8, 32), both flips and the reshape to 32 columns. */
  function DeviceRow(flat: seq<int>, k: nat): (r: seq<int>)
    requires |flat| % 256 == 0 && k < |flat| / 32
    ensures |r| == 32 && forall j :: 0 <= j < 32 ==> r[j] == DeviceBit(flat, k, 31 - j)
  {
    seq(32, j requires 0 <= j < 32 => DeviceBit(flat, k, 31 - j))
  }

  /**
   * Stage1Filter.ToXCoreCoefArray: one unsigned 32-bit word per 32 binary
   * coefficients, bit i of word k holding coefficient DeviceIndex(k, i) of
   * the flattened binary matrix.
   */
  method ToXCoreCoefArray(f: Stage1Filter) returns (y: seq<int>)
    requires f.Valid()
    ensures |y| == |f.coefsBinary| * f.BlockCount() * 8
    ensures |Flat(f.coefsBinary)| == 32 * |y| && |Flat(f.coefsBinary)| % 256 == 0
    ensures forall k :: 0 <= k < |y| ==> 0 <= y[k] < Pow2(WordBits)
    ensures forall k, i :: 0 <= k < |y| && 0 <= i < WordBits ==> BitOf(y[k], i) == DeviceBit(Flat(f.coefsBinary), k, i)
  {
    var flat := Flat(f.coefsBinary);
    FlatShape(f.coefsBinary, f.TapCount());
    FlatBlocks(|f.coefsBinary|, f.TapCount());
    var n := |flat| / 32;
    var weights := Weights(WordBits);
    var words := new int[n](k => 0);
    for k := 0 to n
      invariant forall j :: 0 <= j < k ==> words[j] == Dot(weights, DeviceRow(flat, j))
    {
      words[k] := Dot(weights, DeviceRow(flat, k));
    }
    y := words[..];
    forall k | 0 <= k < n
      ensures 0 <= y[k] < Pow2(WordBits)
      ensures forall i :: 0 <= i < WordBits ==> BitOf(y[k], i) == DeviceBit(flat, k, i)
    {
      DeviceWord(flat, k);
    }
  }

  /** Device word k packs DeviceBit(flat, k, 31) down to DeviceBit(flat, k, 0), most significant first. */
  lemma DeviceWord(flat: seq<int>, k: nat)
    requires |flat| % 256 == 0 && k < |flat| / 32 && IsBinary(flat)
    ensures 0 <= Dot(Weights(WordBits), DeviceRow(flat, k)) < Pow2(WordBits)
    ensures forall i :: 0 <= i < WordBits ==> BitOf(Dot(Weights(WordBits), DeviceRow(flat, k)), i) == DeviceBit(flat, k, i)
  {
    var row := DeviceRow(flat, k);
    forall j | 0 <= j < 32
      ensures row[j] == 0 || row[j] == 1
    {
      DeviceIndexInRange(|flat|, k, 31 - j);
    }
    PackedWord(row);
  }
}
