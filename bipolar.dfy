/**
 * The XNOR-popcount primitive VLMACCR1 of the stage-1 reference script and
 * the two encodings of a one-bit sample it relates: binary {0, 1} and
 * bipolar {+1, -1}, with binary 0 standing for +1 and binary 1 for -1.
 */
module Bipolar {

  /** Length of the vectors VLMACCR1 accepts. */
  const VectorLength: nat := 256

  /** The bipolar to binary map (1 - b) // 2; Python's // floors, as Dafny's / does for a positive divisor. */
  function BinaryOf(b: int): int
  {
    (1 - b) / 2
  }

  /** The binary to bipolar map, the inverse of BinaryOf on {0, 1}. */
  function BipolarOf(x: int): int
  {
    1 - 2 * x
  }

  /** BinaryOf sends +1 to 0 and -1 to 1, and BipolarOf undoes it on both. */
  lemma BinaryOfBipolar(b: int)
    requires b == 1 || b == -1
    ensures BinaryOf(b) == (if b == 1 then 0 else 1)
    ensures BipolarOf(BinaryOf(b)) == b
  {
  }

  /** BinaryOf on any integer, as Python's floor division computes it. */
  lemma BinaryOfFloors(b: int)
    ensures 2 * BinaryOf(b) <= 1 - b < 2 * BinaryOf(b) + 2
  {
  }

  /** Number of positions where the two vectors differ: the popcount of their XOR. */
  function Mismatches(u: seq<int>, v: seq<int>): (n: nat)
    requires |u| == |v|
    ensures n <= |u|
    ensures n == 0 <==> u == v
  {
    if u == [] then 0
    else (if u[0] == v[0] then 0 else 1) + Mismatches(u[1..], v[1..])
  }

  lemma {:induction false} MismatchesSymmetric(u: seq<int>, v: seq<int>)
    requires |u| == |v|
    ensures Mismatches(u, v) == Mismatches(v, u)
  {
    if u != [] { MismatchesSymmetric(u[1..], v[1..]); }
  }

  /**
   * VLMACCR1: acc plus 128 minus the number of positions where vC and mem
   * differ. Both vectors must have 256 entries.
   */
  function VLMACCR1(vC: seq<int>, mem: seq<int>, acc: int): (r: int)
    requires |vC| == VectorLength && |mem| == VectorLength
    ensures acc - 128 <= r <= acc + 128
    ensures r == acc + 128 <==> vC == mem
  {
    acc + (128 - Mismatches(vC, mem))
  }

  /** VLMACCR1 treats its two vectors alike. */
  lemma VLMACCR1Symmetric(vC: seq<int>, mem: seq<int>, acc: int)
    requires |vC| == VectorLength && |mem| == VectorLength
    ensures VLMACCR1(vC, mem, acc) == VLMACCR1(mem, vC, acc)
  {
    MismatchesSymmetric(vC, mem);
  }

  /** The dot product of two integer vectors. */
  function Dot(u: seq<int>, v: seq<int>): int
    requires |u| == |v|
  {
    if u == [] then 0 else u[0] * v[0] + Dot(u[1..], v[1..])
  }

  /** A binary vector mapped element by element to bipolar. */
  function ToBipolar(u: seq<int>): (b: seq<int>)
    ensures |b| == |u| && forall i :: 0 <= i < |u| ==> b[i] == BipolarOf(u[i])
  {
    seq(|u|, i requires 0 <= i < |u| => BipolarOf(u[i]))
  }

  predicate IsBinary(u: seq<int>)
  {
    forall i :: 0 <= i < |u| ==> u[i] == 0 || u[i] == 1
  }

  /**
   * The XNOR-popcount identity: on binary vectors, the dot product of their
   * bipolar images is the length minus twice the number of differing places.
   */
  lemma {:induction false} BipolarDotIsXnorCount(u: seq<int>, v: seq<int>)
    requires |u| == |v| && IsBinary(u) && IsBinary(v)
    ensures Dot(ToBipolar(u), ToBipolar(v)) == |u| - 2 * Mismatches(u, v)
  {
    if u != [] {
      BipolarDotIsXnorCount(u[1..], v[1..]);
      assert ToBipolar(u)[1..] == ToBipolar(u[1..]);
      assert ToBipolar(v)[1..] == ToBipolar(v[1..]);
    }
  }

  /**
   * What VLMACCR1 realises: for 256-element binary vectors, the amount it
   * adds to acc is half the dot product of the two vectors read as +-1.
   */
  lemma VLMACCR1IsHalfBipolarDot(vC: seq<int>, mem: seq<int>, acc: int)
    requires |vC| == VectorLength && |mem| == VectorLength && IsBinary(vC) && IsBinary(mem)
    ensures 2 * (VLMACCR1(vC, mem, acc) - acc) == Dot(ToBipolar(vC), ToBipolar(mem))
  {
    BipolarDotIsXnorCount(vC, mem);
  }
}
