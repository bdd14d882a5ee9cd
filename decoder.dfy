/** The decoder of `Eight_Channel_Filter.load_file`: a recording read as
    unsigned 16-bit words is de-interleaved into one row per channel in
    column-major order, and every word is calibrated to a voltage. */
module Decoder {
  import opened Calibration
  import opened ColumnMajor

  /** Why a recording cannot be reshaped into one row per channel. */
  datatype DecodeError =
    /** The word count is not a multiple of the channel count. */
    | MalformedInput

  datatype Result<T> = Ok(value: T) | Err(error: DecodeError)

  /** Calibrates one row, word by word. */
  function CalibrateRow(res: real, row: seq<Word>): (v: seq<real>)
    ensures |v| == |row|
    ensures forall s :: 0 <= s < |row| ==> v[s] == Voltage(res, row[s])
  {
    if row == [] then [] else [Voltage(res, row[0])] + CalibrateRow(res, row[1..])
  }

  /** Calibrates a matrix element-wise; its shape is unchanged. */
  function Calibrate(res: real, m: seq<seq<Word>>): (v: seq<seq<real>>)
    ensures |v| == |m|
    ensures forall c :: 0 <= c < |m| ==> |v[c]| == |m[c]|
    ensures forall c, s :: 0 <= c < |m| && 0 <= s < |m[c]| ==> v[c][s] == Voltage(res, m[c][s])
  {
    if m == [] then [] else [CalibrateRow(res, m[0])] + Calibrate(res, m[1..])
  }

  /** Inverts the calibration of one row: the raw code of every voltage. */
  function RecoverRow(res: real, row: seq<real>): (w: seq<int>)
    requires res > 0.0
    ensures |w| == |row|
    ensures forall s :: 0 <= s < |row| ==> w[s] == RawCode(res, row[s])
  {
    if row == [] then [] else [RawCode(res, row[0])] + RecoverRow(res, row[1..])
  }

  /** Inverts the calibration of a matrix, element-wise. */
  function Recover(res: real, v: seq<seq<real>>): (m: seq<seq<int>>)
    requires res > 0.0
    ensures |m| == |v|
    ensures forall c :: 0 <= c < |v| ==> |m[c]| == |v[c]|
    ensures forall c, s :: 0 <= c < |v| && 0 <= s < |v[c]| ==> m[c][s] == RawCode(res, v[c][s])
  {
    if v == [] then [] else [RecoverRow(res, v[0])] + Recover(res, v[1..])
  }

  /** With a positive resolution no information is lost by calibration:
      recovering the raw codes of a calibrated matrix gives the matrix. */
  lemma RecoverCalibrate(res: real, m: seq<seq<Word>>)
    requires res > 0.0
    ensures Recover(res, Calibrate(res, m)) == m
  {
    var r := Recover(res, Calibrate(res, m));
    forall c | 0 <= c < |m|
      ensures r[c] == m[c]
    {
      forall s | 0 <= s < |m[c]|
        ensures r[c][s] == m[c][s]
      {
        RawCodeOfVoltage(res, m[c][s]);
      }
    }
  }

  /** Decodes a recording at resolution `res`: reshapes it into one row per
      channel in column-major order, then calibrates every word. A word
      count that is not a multiple of the channel count is rejected and no
      matrix is produced. */
  function Decode(words: seq<Word>, res: real): (r: Result<seq<seq<real>>>)
    ensures r.Err? <==> |words| % Rows != 0
    ensures r.Err? ==> r.error == MalformedInput
    ensures r.Ok? ==> |words| == Rows * (|words| / Rows)
    ensures r.Ok? ==> |r.value| == Rows && forall c :: 0 <= c < Rows ==> |r.value[c]| == |words| / Rows
    ensures r.Ok? ==> forall c, s :: 0 <= c < Rows && 0 <= s < |words| / Rows ==>
      r.value[c][s] == res * (words[s * Rows + c] as int - 16384) as real
  {
    if |words| % Rows != 0 then Err(MalformedInput)
    else
      var cols := |words| / Rows;
      var m := Reshape(words, cols);
      var v := Calibrate(res, m);
      assert forall c, s :: 0 <= c < Rows && 0 <= s < cols ==> v[c][s] == Voltage(res, words[FlatIndex(c, s)]);
      Ok(v)
  }

  /** `load_file` with the recorder's own settings: eight channels at a
      resolution of 4.12e-4 per code step. */
  function LoadFile(words: seq<Word>): (r: Result<seq<seq<real>>>)
    ensures r.Ok? <==> |words| % 8 == 0
    ensures r.Ok? ==> |r.value| == 8 && forall c :: 0 <= c < 8 ==> |r.value[c]| == |words| / 8
    ensures r.Ok? ==> forall c, s :: 0 <= c < 8 && 0 <= s < |words| / 8 ==>
      r.value[c][s] == 0.000412 * (words[8 * s + c] as int - 16384) as real
  {
    Decode(words, VoltageResolution)
  }

  /** Decoding the column-major flattening of a raw matrix gives the
      calibrated matrix back. */
  lemma DecodeInterleaved(m: seq<seq<Word>>, cols: nat, res: real)
    requires IsMatrix(m, cols)
    ensures Decode(Interleave(m, cols), res) == Ok(Calibrate(res, m))
  {
    var words := Interleave(m, cols);
    assert |words| / Rows == cols;
    ReshapeInterleave(m, cols);
  }

  /** The decoded matrix determines the recording: recovering the raw codes
      and flattening them in column-major order gives the input words. */
  lemma DecodeRecoversWords(words: seq<Word>, res: real)
    requires res > 0.0 && |words| % Rows == 0
    ensures Decode(words, res).Ok?
    ensures IsMatrix(Recover(res, Decode(words, res).value), |words| / Rows)
    ensures Interleave(Recover(res, Decode(words, res).value), |words| / Rows) == words
  {
    var cols := |words| / Rows;
    var m := Reshape(words, cols);
    assert Decode(words, res).value == Calibrate(res, m);
    RecoverCalibrate(res, m);
    var raw: seq<seq<int>> := Recover(res, Calibrate(res, m));
    assert raw == m;
    var f := Interleave(raw, cols);
    forall k | 0 <= k < |words|
      ensures f[k] == words[k]
    {
      ReshapeCellOf(words, cols, k);
      FlatIndexBijection(cols, k);
    }
  }

  /** At a positive resolution, two recordings that decode to the same
      matrix are the same recording. */
  lemma DecodeInjective(a: seq<Word>, b: seq<Word>, res: real)
    requires res > 0.0 && |a| % Rows == 0
    requires Decode(a, res) == Decode(b, res)
    ensures a == b
  {
    assert |a| / Rows == |b| / Rows;
    DecodeRecoversWords(a, res);
    DecodeRecoversWords(b, res);
  }

  /** Sixteen words counting up from 0 give two samples per channel:
      channel c holds the words at positions c and c + 8. */
  lemma ReshapeCountingWords()
    ensures Reshape(seq(16, k requires 0 <= k < 16 => k as Word), 2) ==
      [[0, 8], [1, 9], [2, 10], [3, 11], [4, 12], [5, 13], [6, 14], [7, 15]]
  {
    var m := Reshape(seq(16, k requires 0 <= k < 16 => k as Word), 2);
    forall c | 0 <= c < Rows
      ensures m[c] == [c, c + 8]
    {
      assert m[c][0] == c && m[c][1] == c + 8;
    }
  }

  /** Alternating mid-scale and zero codes at unit resolution: the even
      channels read zero volts and the odd ones the most negative voltage. */
  lemma DecodeAlternatingWords()
    ensures Decode(seq(16, k => if k % 2 == 0 then 16384 else 0), 1.0) ==
      Ok(seq(8, c => if c % 2 == 0 then [0.0, 0.0] else [-16384.0, -16384.0]))
  {
    var words: seq<Word> := seq(16, k => if k % 2 == 0 then 16384 else 0);
    var r := Decode(words, 1.0);
    var expected := seq(8, c => if c % 2 == 0 then [0.0, 0.0] else [-16384.0, -16384.0]);
    assert r.Ok? && |r.value| == 8;
    forall c | 0 <= c < Rows
      ensures r.value[c] == expected[c]
    {
      var w := if c % 2 == 0 then 16384 else 0;
      assert words[c] == w && words[8 + c] == w;
      assert |r.value[c]| == 2;
      assert r.value[c][0] == (w - 16384) as real;
      assert r.value[c][1] == (w - 16384) as real;
    }
    assert r.value == expected;
  }
}
