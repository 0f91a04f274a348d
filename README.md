# Stage-1 decimation for 192 kHz PDM microphones, modelled in Dafny

This project models the first decimation stage of a PDM microphone array
library.

The device side is `OneStageDecimator192<MIC_COUNT>`. It keeps a 256-bit PDM
history per microphone. On every call it takes one 32-bit PDM block per
microphone and produces two output samples per microphone: one filtered with
the table `s1_fir_zero_after` and one with `s1_fir_zero_before`. Each
accumulator is scaled by `<< 3`.

The reference side is the Python filter script. It contains:

- the XNOR-popcount primitive `VLMACCR1`;
- the integer stage-1 filter (`Stage1Filter`): its constructor checks, the
  bipolar-to-binary coefficient map, the input padding, `FilterInt16` and the
  packing of coefficients into device words (`ToXCoreCoefArray`);
- the padding of the stage-2 filter.

Modules:

- `S1Coefficients` (coefficients.dfy): the two 128-word tables, stored as 16
  bit-plane rows of 8 words. It proves their structure. Row by row, "zero
  before" is "zero after" rotated left by 16 bits, so tap `e` of one is tap
  `e - 16` of the other. The 16 wrapped taps form the padding halfwords.
- `Decimator192` (decimator.dfy): the class with its mutable PDM history, the
  `Init` binding, and `ProcessBlock`. `ProcessBlock` is proved against a
  functional specification `Step`. Further lemmas cover channel independence,
  the sliding window, and the agreement between the device's initial history
  and the reference padding.
- `Bipolar` (bipolar.dfy): the binary and bipolar encodings and `VLMACCR1`.
  It proves the XNOR-popcount identity.
- `Stage1` (stage1.dfy): the `Stage1Filter` constructor as a `Result`, the
  padding, `FilterInt16` with explicit int32 wrap-around, and
  `ToXCoreCoefArray`. It proves the bit layout of the packed words.
- `Stage2` (stage2.dfy): the zero padding of `Stage2Filter`.

The routines `fir_1x16_bit` and `shift_buffer` are platform code; their
bodies are not part of this model. The class takes them as constructor
parameters: deterministic functions of one history row (and a table).

## Model

| member | source | states |
|---|---|---|
| S1Coefficients.ZeroAfterRows | lib_mic_array_192/api/mic_array/cpp/Decimator192.hpp:32-49 | s1_fir_zero_after is 16 bit-plane rows of 8 words |
| S1Coefficients.ZeroBeforeRows | lib_mic_array_192/api/mic_array/cpp/Decimator192.hpp:54-71 | s1_fir_zero_before is 16 bit-plane rows of 8 words |
| S1Coefficients.ZeroAfter | lib_mic_array_192/api/mic_array/cpp/Decimator192.hpp:27-49 | the flat table holds S1_WORDS = S1_TAP_COUNT / 2 = 128 words |
| S1Coefficients.ZeroBefore | lib_mic_array_192/api/mic_array/cpp/Decimator192.hpp:52-71 | the flat table holds S1_WORDS = 128 words |
| S1Coefficients.RowsOfFlatTables | lib_mic_array_192/api/mic_array/cpp/Decimator192.hpp:32-71 | words 8r..8r+7 of each flat table are bit-plane row r as written |
| S1Coefficients.RotateRow16Taps | lib_mic_array_192/api/mic_array/cpp/Decimator192.hpp:52-71 | rotating a row left by 16 bits moves every tap 16 places up: rotated tap e is original tap e - 16 (mod 256) |
| S1Coefficients.ZeroBeforeRowsRotated | lib_mic_array_192/api/mic_array/cpp/Decimator192.hpp:54-71 | every zero_before row is the matching zero_after row rotated left by 16 bits |
| S1Coefficients.ZeroBeforeWords | lib_mic_array_192/api/mic_array/cpp/Decimator192.hpp:54-71 | zero_before word 8r+i is the low half of zero_after word 8r+i followed by the high half of word 8r+(i+1)%8 |
| S1Coefficients.ZeroBeforeTaps | lib_mic_array_192/api/mic_array/cpp/Decimator192.hpp:52-71 | the same filter delayed by 16 samples: zero_before tap e is zero_after tap e - 16 in every bit plane |
| S1Coefficients.PaddingHalfwords | lib_mic_array_192/api/mic_array/cpp/Decimator192.hpp:30-71 | the 16 padding taps (leading halfword of zero_after, trailing halfword of zero_before) are 0xFFFF in planes 0..14 and 0 in plane 15 |
| Decimator192.Ingest | lib_mic_array_192/api/mic_array/cpp/Decimator192.hpp:182 | the filtered window is the history with word 0 replaced by the new block and words 1..7 kept |
| Decimator192.Scale | lib_mic_array_192/api/mic_array/cpp/Decimator192.hpp:183-184 | `<< 3` multiplies the accumulator by 8 modulo 2^32 |
| Decimator192.Step | lib_mic_array_192/api/mic_array/cpp/Decimator192.hpp:178-186 | one call yields one new history per microphone and two output slots of MIC_COUNT samples |
| Decimator192.StepOneWindow | lib_mic_array_192/api/mic_array/cpp/Decimator192.hpp:180-185 | both samples of microphone m and its new history come from one window: old history, word 0 = its block; slot s uses filter_coef[s], times 8 |
| Decimator192.StepChannelIndependent | lib_mic_array_192/api/mic_array/cpp/Decimator192.hpp:178-186 | microphone m's samples and new history depend only on its own history and block |
| Decimator192.RunSlidingWindow | lib_mic_array_192/api/mic_array/cpp/Decimator192.hpp:182-185 | if shift_buffer moves words one place up, after k calls word j (1 <= j <= k, j < 8) is the block received j calls ago |
| Decimator192.FillerHistoryIsPadFiller | lib_mic_array_192/api/mic_array/cpp/Decimator192.hpp:123 | the 0x55555555 history read tap by tap (bit 1 as -1) is -1 at even taps and +1 at odd taps, the reference filter's input padding |
| Decimator192.OneStageDecimator192.constructor | lib_mic_array_192/api/mic_array/cpp/Decimator192.hpp:111-129 | every history word of every microphone is 0x55555555; no table is bound |
| Decimator192.OneStageDecimator192.Init | lib_mic_array_192/api/mic_array/cpp/Decimator192.hpp:166-171 | filter_coef[0] becomes zero_after and filter_coef[1] zero_before; the history is untouched |
| Decimator192.OneStageDecimator192.ShiftBuffer | lib_mic_array_192/api/mic_array/cpp/Decimator192.hpp:185 | the microphone's row becomes shift_buffer of its old contents; no other row changes |
| Decimator192.OneStageDecimator192.ProcessChannel | lib_mic_array_192/api/mic_array/cpp/Decimator192.hpp:180-185 | one loop iteration: both slots of that microphone get fir(window, filter_coef[s]) << 3 and its history advances; other microphones and slots are unchanged |
| Decimator192.OneStageDecimator192.ProcessBlock | lib_mic_array_192/api/mic_array/cpp/Decimator192.hpp:173-187 | the new histories and all 2 x MIC_COUNT outputs are those of Step on the old histories and the blocks |
| Bipolar.BinaryOfBipolar | script/mic_array/filters.py:53 | (1 - b) // 2 maps +1 to 0 and -1 to 1, and 1 - 2x maps them back |
| Bipolar.BinaryOfFloors | script/mic_array/filters.py:53 | the map uses floor division |
| Bipolar.Mismatches | script/mic_array/filters.py:16-17 | the XOR popcount is at most the length and is zero exactly when the vectors are equal |
| Bipolar.MismatchesSymmetric | script/mic_array/filters.py:16-17 | the XOR popcount is symmetric |
| Bipolar.VLMACCR1 | script/mic_array/filters.py:9-18 | on two 256-element vectors the result lies within acc - 128 .. acc + 128 and is acc + 128 exactly when they are equal |
| Bipolar.VLMACCR1Symmetric | script/mic_array/filters.py:9-18 | swapping vC and mem does not change the result |
| Bipolar.BipolarDotIsXnorCount | script/mic_array/filters.py:16-18 | on binary vectors, the dot product of their bipolar images is the length minus twice the XOR popcount |
| Bipolar.VLMACCR1IsHalfBipolarDot | script/mic_array/filters.py:9-18 | VLMACCR1 adds half the dot product of the two vectors read as +-1 |
| Stage1.CoefsBinaryOf | script/mic_array/filters.py:53 | the binary matrix is the transposed bipolar matrix mapped through (1 - b) // 2 |
| Stage1.CoefsBinaryRoundTrip | script/mic_array/filters.py:53 | every binary coefficient is 0 or 1 and maps back to its bipolar value |
| Stage1.NewStage1Filter | script/mic_array/filters.py:27-53 | fails exactly when the count is not a multiple of 256 (checked first) or is zero; otherwise keeps the coefficients and the decimation factor, and the block count times 256 is the tap count |
| Stage1.Filler | script/mic_array/filters.py:94 | the padding is -1 at even positions and +1 at odd positions |
| Stage1.Padded | script/mic_array/filters.py:87-96 | a padded channel is TapCount - DecimationFactor longer than the input |
| Stage1.PadInput | script/mic_array/filters.py:87-96 | fresh matrix: the filler in the first P = TapCount - Q columns of every channel, the input after them |
| Stage1.PadInputChannel | script/mic_array/filters.py:87-96 | every channel of PadInput's result is the filler followed by the input channel |
| Stage1.Int32 | script/mic_array/filters.py:122-126 | a value stored in int32 lies in the int32 range and equals the exact value when that fits |
| Stage1.WindowInBounds | script/mic_array/filters.py:117-124 | window k (k < SAMPS_IN // Q) lies inside the padded input |
| Stage1.Window | script/mic_array/filters.py:124 | window k has TapCount samples |
| Stage1.Accumulate | script/mic_array/filters.py:120-125 | res[c, k] is the int32 dot product of window k of channel c with the int16 coefficients |
| Stage1.ShiftLeft8 | script/mic_array/filters.py:126 | every accumulator shifted left by 8, as int32 |
| Stage1.FilterInt16 | script/mic_array/filters.py:113-126 | SAMPS_IN // Q outputs per channel, output k being FilterOutput of window k of that channel |
| Stage1.WindowNewest | script/mic_array/filters.py:113-126 | the last Q samples of window k are input samples Q*k .. Q*(k+1) - 1 |
| Stage1.FilterCausal | script/mic_array/filters.py:113-126 | output k depends only on the first Q*(k+1) input samples |
| Stage1.FilterNoWrap | script/mic_array/filters.py:113-126 | with one 256-tap block and +-1 input, nothing wraps: the output is 256 times the exact dot product |
| Stage1.PackedWord | script/mic_array/filters.py:138-141 | a binary row packed with weights 2^(n-1) .. 2^0 is below 2^n, and its bit i is the row's entry n - 1 - i |
| Stage1.FlatShape | script/mic_array/filters.py:130-131 | the flattened binary matrix has planes x TapCount entries, all binary |
| Stage1.FlatBlocks | script/mic_array/filters.py:131-134 | it splits into whole 256-bit blocks of 8 words |
| Stage1.DeviceIndexOfTap | script/mic_array/filters.py:131-134 | tap e of block b lands in word 8b + 7 - e/32 at bit e % 32, the layout S1Coefficients.Tap reads |
| Stage1.DeviceRow | script/mic_array/filters.py:131-134 | row k of the reshaped, twice flipped matrix: entry j is bit 31 - j of device word k |
| Stage1.DeviceWord | script/mic_array/filters.py:131-141 | device word k is an unsigned 32-bit value whose bit i is coefficient DeviceIndex(k, i) |
| Stage1.ToXCoreCoefArray | script/mic_array/filters.py:128-143 | one word per 32 coefficients (planes x blocks x 8), each below 2^32, bit i of word k holding flattened coefficient 256(k/8) + 32(7 - k%8) + i |
| Stage2.Padded | script/mic_array/filters.py:205-213 | a padded channel is TapCount - DecimationFactor longer than the input |
| Stage2.PadInput | script/mic_array/filters.py:205-213 | fresh matrix: zeros in the first P = TapCount - Q columns of every channel, the input after them |
| Stage2.PadInputChannel | script/mic_array/filters.py:205-213 | every channel of PadInput's result is P zeros followed by the input channel |
| Stage2.PaddingsDifferOnlyInFiller | script/mic_array/filters.py:205-213 | with equal tap counts and factors, the two stages' paddings agree on the input part and differ only in the filler (zeros vs -1/+1) |

## Left out

- fir_1x16_bit and shift_buffer: their bodies are platform code that is not part of this model. They are constructor parameters of the class.
- Decimator192.RunSlidingWindow: takes as a hypothesis (MovesUp) that shift_buffer moves every word one place towards the old end. Its contract is not in the modelled source.
- Decimator192.Scale: the `<< 3` on an int32 accumulator is modelled on its two's complement bits. This is C++20 semantics; older standards leave a left shift of a negative value undefined.
- The WORD_ALIGNED placement of the tables, per-tile allocation and the `constexpr` constructor are memory-layout matters with no effect on values.
- Calling ProcessBlock before Init: the model requires Init to have run, because the library documents that it must.
- Stage1.NewStage1Filter: takes the int16 coefficients, the bipolar matrix and its width as inputs. Not modelled: the float coefficients, their [-1, 1] range assertion, the scale factor, the rounding, and the bipolar expansion (the util module is not part of this model). Its requires states what these guarantee: +-1 entries, a rectangular matrix, and magnitudes at most 32766.
- The ndim assertions, the promotion of a one-dimensional signal to one channel, and numpy dtypes are not modelled. Signals are integer matrices with one row per channel.
- Stage1.PadInput and Stage2.PadInput: require TapCount >= DecimationFactor. For a negative padding length, numpy's negative slice indices raise or produce values no caller uses.
- Stage1.FilterInt16: requires a positive decimation factor. With a zero factor, SAMPS_IN // 0 raises.
- FilterFloat (both stages), the Stage2Filter constructor (float scaling and output shift), Stage2Filter.FilterInt32 (float rounding) and the two-stage wrapper are floating-point code and are not modelled.
- VLMACCR1: the length assertions are preconditions. The `**kwargs` parameter is ignored by the source and is left out.
