/**
 * The two constant stage-1 coefficient tables of the 192 kHz one-stage
 * decimator, and the structural relation between them.
 *
 * Each table is S1_WORDS = 128 words: 16 rows (one per bit plane of the
 * 16-bit coefficients), each of 8 words holding 256 one-bit taps. Tap e of a
 * row (e = 0 is the first coefficient) sits in word 7 - e / 32 at bit e % 32
 * counted from the least significant bit, the layout that the coefficient
 * packing script produces (module Stage1, ToXCoreCoefArray).
 *
 * The "zero after" table pads taps 240..255 (16 samples of padding at the
 * end), the "zero before" table pads taps 0..15 (at the beginning): row by
 * row, "zero before" is "zero after" rotated left by 16 bits.
 */
module S1Coefficients {

  /** Number of taps of the stage-1 filter (S1_TAP_COUNT). */
  const S1TapCount: nat := 256
  /** Number of words in each table (S1_WORDS, S1_TAP_COUNT / 2). */
  const S1Words: nat := S1TapCount / 2
  /** Words in one bit-plane row: 256 one-bit taps. */
  const RowWords: nat := 8
  /** Bit-plane rows in one table. */
  const RowCount: nat := 16

  /** s1_fir_zero_after, one bit-plane row per line. */
  function ZeroAfterRows(): (t: seq<seq<bv32>>)
    ensures |t| == RowCount && forall r :: 0 <= r < RowCount ==> |t[r]| == RowWords
  {
    [
      [0xFFFFDA39, 0xBFF03D14, 0x538A5CDE, 0xCE092678, 0xAA551E64, 0x90737B3A, 0x51CA28BC, 0x0FFD9C5B],
      [0xFFFF0B0A, 0x66F123BA, 0x52CDEEBC, 0x9ABFF4AE, 0xF66F752F, 0xFD593D77, 0xB34A5DC4, 0x8F6650D0],
      [0xFFFFE5F6, 0x6942B926, 0xA4759759, 0x7664D0A0, 0xA815050B, 0x266E9AE9, 0xAE25649D, 0x42966FA7],
      [0xFFFF9207, 0xCF40DCF9, 0x3DBEE8B1, 0xBF02757E, 0xF00F7EAE, 0x40FD8D17, 0x7DBC9F3B, 0x02F3E049],
      [0xFFFFA150, 0xE96BC170, 0x45B01821, 0x3D7A8121, 0xEE778481, 0x5EBC8418, 0x0DA20E83, 0xD6970A85],
      [0xFFFF959A, 0x0626D835, 0x1E635D0D, 0x75D96DDB, 0xF24FDBB6, 0x9BAEB0BA, 0xC678AC1B, 0x646059A9],
      [0xFFFF8CB6, 0x0AE19A19, 0xBB279875, 0xCD6B6F6F, 0x8001F6F6, 0xD6B3AE19, 0xE4DD9859, 0x87506D31],
      [0xFFFF7C71, 0xF34AE6A1, 0xD79AB09E, 0x821667F1, 0xD42B8FE6, 0x6841790D, 0x59EB8567, 0x52CF8E3E],
      [0xFFFFFC0F, 0xFC730194, 0xB0298AF7, 0xAAEDFBAA, 0x7E7E55DF, 0xB755EF51, 0x940D2980, 0xCE3FF03F],
      [0xFFFFFC00, 0x007C0073, 0x8FCD2CF2, 0xCCA10833, 0xDC3BCC10, 0x85334F34, 0xB3F1CE00, 0x3E00003F],
      [0xFFFFFC00, 0x007FFFF0, 0x7FF1CF0E, 0x5A61A7C3, 0xC813C3E5, 0x865A70F3, 0x8FFE0FFF, 0xFE00003F],
      [0xFFFFFC00, 0x007FFFF0, 0x0001F001, 0xC61E3556, 0x90096AAC, 0x7863800F, 0x80000FFF, 0xFE00003F],
      [0xFFFFFC00, 0x007FFFF0, 0x0001FFFF, 0xC1FFC664, 0xE0072663, 0xFF83FFFF, 0x80000FFF, 0xFE00003F],
      [0xFFFFFC00, 0x007FFFF0, 0x0001FFFF, 0xC0000787, 0x0000E1E0, 0x0003FFFF, 0x80000FFF, 0xFE00003F],
      [0xFFFFFC00, 0x007FFFF0, 0x0001FFFF, 0xC00007F8, 0x00001FE0, 0x0003FFFF, 0x80000FFF, 0xFE00003F],
      [0x000003FF, 0xFF80000F, 0xFFFE0000, 0x3FFFF800, 0x0000001F, 0xFFFC0000, 0x7FFFF000, 0x01FFFFC0]
    ]
  }

  /** s1_fir_zero_before, one bit-plane row per line. */
  function ZeroBeforeRows(): (t: seq<seq<bv32>>)
    ensures |t| == RowCount && forall r :: 0 <= r < RowCount ==> |t[r]| == RowWords
  {
    [
      [0xDA39BFF0, 0x3D14538A, 0x5CDECE09, 0x2678AA55, 0x1E649073, 0x7B3A51CA, 0x28BC0FFD, 0x9C5BFFFF],
      [0x0B0A66F1, 0x23BA52CD, 0xEEBC9ABF, 0xF4AEF66F, 0x752FFD59, 0x3D77B34A, 0x5DC48F66, 0x50D0FFFF],
      [0xE5F66942, 0xB926A475, 0x97597664, 0xD0A0A815, 0x050B266E, 0x9AE9AE25, 0x649D4296, 0x6FA7FFFF],
      [0x9207CF40, 0xDCF93DBE, 0xE8B1BF02, 0x757EF00F, 0x7EAE40FD, 0x8D177DBC, 0x9F3B02F3, 0xE049FFFF],
      [0xA150E96B, 0xC17045B0, 0x18213D7A, 0x8121EE77, 0x84815EBC, 0x84180DA2, 0x0E83D697, 0x0A85FFFF],
      [0x959A0626, 0xD8351E63, 0x5D0D75D9, 0x6DDBF24F, 0xDBB69BAE, 0xB0BAC678, 0xAC1B6460, 0x59A9FFFF],
      [0x8CB60AE1, 0x9A19BB27, 0x9875CD6B, 0x6F6F8001, 0xF6F6D6B3, 0xAE19E4DD, 0x98598750, 0x6D31FFFF],
      [0x7C71F34A, 0xE6A1D79A, 0xB09E8216, 0x67F1D42B, 0x8FE66841, 0x790D59EB, 0x856752CF, 0x8E3EFFFF],
      [0xFC0FFC73, 0x0194B029, 0x8AF7AAED, 0xFBAA7E7E, 0x55DFB755, 0xEF51940D, 0x2980CE3F, 0xF03FFFFF],
      [0xFC00007C, 0x00738FCD, 0x2CF2CCA1, 0x0833DC3B, 0xCC108533, 0x4F34B3F1, 0xCE003E00, 0x003FFFFF],
      [0xFC00007F, 0xFFF07FF1, 0xCF0E5A61, 0xA7C3C813, 0xC3E5865A, 0x70F38FFE, 0x0FFFFE00, 0x003FFFFF],
      [0xFC00007F, 0xFFF00001, 0xF001C61E, 0x35569009, 0x6AAC7863, 0x800F8000, 0x0FFFFE00, 0x003FFFFF],
      [0xFC00007F, 0xFFF00001, 0xFFFFC1FF, 0xC664E007, 0x2663FF83, 0xFFFF8000, 0x0FFFFE00, 0x003FFFFF],
      [0xFC00007F, 0xFFF00001, 0xFFFFC000, 0x07870000, 0xE1E00003, 0xFFFF8000, 0x0FFFFE00, 0x003FFFFF],
      [0xFC00007F, 0xFFF00001, 0xFFFFC000, 0x07F80000, 0x1FE00003, 0xFFFF8000, 0x0FFFFE00, 0x003FFFFF],
      [0x03FFFF80, 0x000FFFFE, 0x00003FFF, 0xF8000000, 0x001FFFFC, 0x00007FFF, 0xF00001FF, 0xFFC00000]
    ]
  }

  /** The rows of a table laid out one after the other, as the C array stores them. */
  function Flatten(rows: seq<seq<bv32>>): (flat: seq<bv32>)
    requires |rows| == RowCount && forall r :: 0 <= r < RowCount ==> |rows[r]| == RowWords
    ensures |flat| == S1Words
  {
    seq(S1Words, k requires 0 <= k < S1Words => rows[k / RowWords][k % RowWords])
  }

  /** s1_fir_zero_after as the flat array of S1_WORDS words. */
  function ZeroAfter(): (t: seq<bv32>)
    ensures |t| == S1Words
  {
    Flatten(ZeroAfterRows())
  }

  /** s1_fir_zero_before as the flat array of S1_WORDS words. */
  function ZeroBefore(): (t: seq<bv32>)
    ensures |t| == S1Words
  {
    Flatten(ZeroBeforeRows())
  }

  /** Row r (bit plane r) of a flat table. */
  function Row(t: seq<bv32>, r: nat): (row: seq<bv32>)
    requires |t| == S1Words && r < RowCount
    ensures |row| == RowWords
    ensures forall i :: 0 <= i < RowWords ==> row[i] == t[RowWords * r + i]
  {
    t[RowWords * r .. RowWords * r + RowWords]
  }

  /** Row r of a flattened table is the r-th row it was built from. */
  lemma RowOfFlatten(rows: seq<seq<bv32>>, r: nat)
    requires |rows| == RowCount && forall k :: 0 <= k < RowCount ==> |rows[k]| == RowWords
    requires r < RowCount
    ensures Row(Flatten(rows), r) == rows[r]
  {
    forall i | 0 <= i < RowWords
      ensures Row(Flatten(rows), r)[i] == rows[r][i]
    {
      assert (RowWords * r + i) / RowWords == r && (RowWords * r + i) % RowWords == i;
    }
  }

  /** Both flat tables have the rows written in the source, in order. */
  lemma RowsOfFlatTables(r: nat)
    requires r < RowCount
    ensures Row(ZeroAfter(), r) == ZeroAfterRows()[r]
    ensures Row(ZeroBefore(), r) == ZeroBeforeRows()[r]
  {
    RowOfFlatten(ZeroAfterRows(), r);
    RowOfFlatten(ZeroBeforeRows(), r);
  }

  /** The low half of word x followed by the high half of word y. */
  function Splice16(x: bv32, y: bv32): bv32
  {
    (x << 16) | (y >> 16)
  }

  /**
   * A row rotated left by 16 bits as one 256-bit value (word 0 most
   * significant): word i is spliced from word i and the next word, cyclically.
   */
  function RotateRow16(row: seq<bv32>): (rot: seq<bv32>)
    requires |row| == RowWords
    ensures |rot| == RowWords
  {
    [Splice16(row[0], row[1]), Splice16(row[1], row[2]), Splice16(row[2], row[3]), Splice16(row[3], row[4]),
     Splice16(row[4], row[5]), Splice16(row[5], row[6]), Splice16(row[6], row[7]), Splice16(row[7], row[0])]
  }

  /** Tap e (0..255) of a row: word 7 - e / 32, bit e % 32 from the least significant end. */
  predicate Tap(row: seq<bv32>, e: bv8)
    requires |row| == RowWords
  {
    (row[7 - (e >> 5) as int] >> (e & 31)) & 1 == 1
  }

  lemma SpliceBit(x: bv32, y: bv32, j: bv8)
    requires j < 32
    ensures ((Splice16(x, y) >> j) & 1 == 1) == if j < 16 then (y >> (j + 16)) & 1 == 1 else (x >> (j - 16)) & 1 == 1
  {
  }

  /**
   * RotateRow16 moves every tap 16 places up, cyclically: tap e of the
   * rotated row is tap e - 16 (mod 256) of the original.
   */
  lemma RotateRow16Taps(row: seq<bv32>, e: bv8)
    requires |row| == RowWords
    ensures Tap(RotateRow16(row), e) == Tap(row, e - 16)
  {
    var w := 7 - (e >> 5) as int;
    SpliceBit(row[w], row[(w + 1) % RowWords], e & 31);
    if e & 31 < 16 {
      assert 7 - ((e - 16) >> 5) as int == (w + 1) % RowWords;
      assert (e - 16) & 31 == (e & 31) + 16;
    } else {
      assert (e - 16) >> 5 == e >> 5;
      assert (e - 16) & 31 == (e & 31) - 16;
    }
  }

  /** Row r of s1_fir_zero_before is row r of s1_fir_zero_after rotated left by 16 bits. */
  predicate RowRotated(r: nat)
    requires r < RowCount
  {
    ZeroBeforeRows()[r] == RotateRow16(ZeroAfterRows()[r])
  }

  /** Every row of s1_fir_zero_before is the matching s1_fir_zero_after row rotated left by 16 bits. */
  lemma ZeroBeforeRowsRotated()
    ensures forall r :: 0 <= r < RowCount ==> RowRotated(r)
  {
    forall r | 0 <= r < RowCount
      ensures RowRotated(r)
    {
      if r == 0 { assert RowRotated(0); }
      else if r == 1 { assert RowRotated(1); }
      else if r == 2 { assert RowRotated(2); }
      else if r == 3 { assert RowRotated(3); }
      else if r == 4 { assert RowRotated(4); }
      else if r == 5 { assert RowRotated(5); }
      else if r == 6 { assert RowRotated(6); }
      else if r == 7 { assert RowRotated(7); }
      else if r == 8 { assert RowRotated(8); }
      else if r == 9 { assert RowRotated(9); }
      else if r == 10 { assert RowRotated(10); }
      else if r == 11 { assert RowRotated(11); }
      else if r == 12 { assert RowRotated(12); }
      else if r == 13 { assert RowRotated(13); }
      else if r == 14 { assert RowRotated(14); }
      else { assert RowRotated(15); }
    }
  }

  /** Word i of a rotated row, spelled out. */
  lemma RotateRow16At(row: seq<bv32>, i: nat)
    requires |row| == RowWords && i < RowWords
    ensures RotateRow16(row)[i] == Splice16(row[i], row[(i + 1) % RowWords])
  {
  }

  /**
   * The rotation word by word on the flat tables: word 8r + i of "zero
   * before" is the low half of word 8r + i of "zero after" followed by the
   * high half of word 8r + (i + 1) % 8.
   */
  lemma ZeroBeforeWords(r: nat, i: nat)
    requires r < RowCount && i < RowWords
    ensures ZeroBefore()[RowWords * r + i] ==
      (ZeroAfter()[RowWords * r + i] << 16) | (ZeroAfter()[RowWords * r + (i + 1) % RowWords] >> 16)
  {
    ZeroBeforeRowsRotated();
    assert RowRotated(r);
    RowsOfFlatTables(r);
    var after, before := Row(ZeroAfter(), r), Row(ZeroBefore(), r);
    RotateRow16At(after, i);
    assert before[i] == Splice16(after[i], after[(i + 1) % RowWords]);
  }

  /**
   * The same filter, delayed: tap e of each "zero before" row is tap e - 16
   * of the "zero after" row, and the 16 taps the rotation wraps round are
   * the padding.
   */
  lemma ZeroBeforeTaps(r: nat, e: bv8)
    requires r < RowCount
    ensures Tap(Row(ZeroBefore(), r), e) == Tap(Row(ZeroAfter(), r), e - 16)
  {
    ZeroBeforeRowsRotated();
    assert RowRotated(r);
    RowsOfFlatTables(r);
    RotateRow16Taps(ZeroAfterRows()[r], e);
  }

  /**
   * The padding: the leading halfword of every "zero after" row (taps
   * 240..255) and the trailing halfword of every "zero before" row (taps
   * 0..15) is 0xFFFF in bit planes 0..14 and 0x0000 in bit plane 15.
   */
  lemma PaddingHalfwords(r: nat)
    requires r < RowCount
    ensures ZeroAfter()[RowWords * r] >> 16 == if r < 15 then 0xFFFF else 0
    ensures ZeroBefore()[RowWords * r + 7] & 0xFFFF == if r < 15 then 0xFFFF else 0
  {
    RowsOfFlatTables(r);
    PaddingRows(r);
    var after, before := Row(ZeroAfter(), r), Row(ZeroBefore(), r);
    assert ZeroAfter()[RowWords * r] == after[0];
    assert ZeroBefore()[RowWords * r + 7] == before[7];
  }

  lemma PaddingRows(r: nat)
    requires r < RowCount
    ensures ZeroAfterRows()[r][0] >> 16 == if r < 15 then 0xFFFF else 0
    ensures ZeroBeforeRows()[r][7] & 0xFFFF == if r < 15 then 0xFFFF else 0
  {
    if r == 0 { }
    else if r == 1 { }
    else if r == 2 { }
    else if r == 3 { }
    else if r == 4 { }
    else if r == 5 { }
    else if r == 6 { }
    else if r == 7 { }
    else if r == 8 { }
    else if r == 9 { }
    else if r == 10 { }
    else if r == 11 { }
    else if r == 12 { }
    else if r == 13 { }
    else if r == 14 { }
  }
}
