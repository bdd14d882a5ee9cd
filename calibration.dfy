/** Measurement settings of the eight-channel recorder and the affine map
    that turns a raw ADC word into a voltage. */
module Calibration {

  /** One word of a recording, as an unsigned 16-bit integer. */
  type Word = x: int | 0 <= x < 0x1_0000

  /** Channels interleaved in one recording. */
  const NumberOfChannels: nat := 8

  /** Bit depth of the converter; the code is centred on 2^(NumAdcBits - 1). */
  const NumAdcBits: nat := 15

  /** Size of one code step (4.12e-4; the unit is millivolts by convention).
      The map below takes the resolution as a parameter, so another
      calibration can be stated without touching it. */
  const VoltageResolution: real := 0.000412

  function Pow2(n: nat): (p: nat) {
    if n == 0 then 1 else 2 * Pow2(n - 1)
  }

  /** The code that the calibration maps to zero volts. */
  const AdcOffset: nat := Pow2(NumAdcBits - 1)

  lemma AdcOffsetValue()
    ensures AdcOffset == 16384
  {
    assert Pow2(7) == 128;
    assert Pow2(14) == 128 * 128 by { Pow2Add(7, 7); }
  }

  lemma {:induction false} Pow2Add(a: nat, b: nat)
    ensures Pow2(a + b) == Pow2(a) * Pow2(b)
  {
    if a > 0 {
      Pow2Add(a - 1, b);
    }
  }

  /** The raw word re-centred on the offset: an exact integer. */
  function Centred(raw: Word): (c: int)
    ensures -16384 <= c <= 49151
    ensures c == 0 <==> raw == 16384
    ensures c == raw - 16384
  {
    AdcOffsetValue();
    raw - AdcOffset
  }

  /** The voltage that one raw word stands for, at resolution `res`. */
  function Voltage(res: real, raw: Word): (v: real)
    ensures raw == 16384 ==> v == 0.0
    ensures raw == 0 ==> v == -res * 16384.0
    ensures raw == 32767 ==> v == res * 16383.0
  {
    res * Centred(raw) as real
  }

  /** The inverse of the calibration: the raw code a voltage came from. */
  function RawCode(res: real, v: real): (raw: int)
    requires res > 0.0
  {
    (v / res).Floor + AdcOffset
  }

  /** Dividing a voltage by the resolution gives back the recentred code,
      and so the raw code it was calibrated from. */
  lemma RawCodeOfVoltage(res: real, raw: Word)
    requires res > 0.0
    ensures Voltage(res, raw) / res == Centred(raw) as real
    ensures RawCode(res, Voltage(res, raw)) == raw
  {
  }

  /** With a positive resolution the calibration is strictly increasing,
      so it is one-to-one on raw codes. */
  lemma VoltageStrictlyIncreasing(res: real, a: Word, b: Word)
    requires res > 0.0
    ensures a < b <==> Voltage(res, a) < Voltage(res, b)
    ensures a == b <==> Voltage(res, a) == Voltage(res, b)
  {
  }
}
