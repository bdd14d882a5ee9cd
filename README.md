# Eight-channel recording decoder

A Dafny model of the decoder in `Eight_Channel_Filter.load_file` and the
subplot placement of `Eight_Channel_Filter.show_ch`. A recording is a flat
sequence of unsigned 16-bit ADC words. The decoder reshapes it, in
column-major ("Fortran") order, into a matrix with one row per channel
(eight rows). It then calibrates every word to a voltage,
`resolution * (raw - 2^(15 - 1))`. The plotting code draws either all eight
channels in a 2-by-4 grid of subplots or one selected channel.

Layout:

- `calibration.dfy`, module `Calibration`: the recorder's settings
  (8 channels, 15 ADC bits, resolution 4.12e-4), the type `Word` of
  unsigned 16-bit values, and the affine map from a raw code to a voltage
  together with its inverse.
- `column_major.dfy`, module `ColumnMajor`: numpy's `reshape(..., (8, -1), order='F')`.
  It fills the matrix column by column, so cell (c, s) holds flat word
  `8*s + c`. The inverse is the column-major flattening.
- `decoder.dfy`, module `Decoder`: `Decode` (at any resolution) and
  `LoadFile` (at the recorder's resolution). Each returns `Err(MalformedInput)`
  when the word count is not a multiple of 8, where numpy's reshape
  raises. Element-wise calibration and its inverse are also here.
- `subplot_grid.dfy`, module `SubplotGrid`: the nested `for row` / `for ch`
  loops of `show_ch` as a method with loop invariants. It returns the
  sequence of (row, column, channel) placements the loops make.

Voltages are exact `real` numbers. The recentred code `raw - 16384` is an
exact integer, as it is in float64 for every 16-bit word. The resolution is
a parameter of `Decode`. `LoadFile` uses the source's literal 4.12e-4
(`Calibration.VoltageResolution`).

## Model

| member | source | states |
|---|---|---|
| `Calibration.AdcOffsetValue` | ECF.py:42 | the offset 2^(num_ADC_bits - 1) with 15 bits is 16384 |
| `Calibration.Centred` | ECF.py:41-42 | the recentred code is raw - 16384. For a 16-bit word it lies in [-16384, 49151], and it is zero exactly at raw 16384 |
| `Calibration.Voltage` | ECF.py:41-42 | calibration fixed points: raw 16384 gives 0, raw 0 gives -res*16384, raw 32767 gives res*16383 |
| `Calibration.RawCodeOfVoltage` | ECF.py:41-42 | for res > 0, voltage / res is the recentred code, and the raw code is recovered exactly from the voltage |
| `Calibration.VoltageStrictlyIncreasing` | ECF.py:41-42 | for res > 0, a < b iff Voltage(a) < Voltage(b), and a == b iff the voltages are equal, so calibration is one-to-one |
| `ColumnMajor.FlatIndexBijection` | ECF.py:38 | flat position k < 8*N belongs to cell (k mod 8, k div 8), whose flat index is k. No other cell has that index, and every cell of an 8-by-N matrix has an index below 8*N |
| `ColumnMajor.Reshape` | ECF.py:38 | the column-by-column fill of 8*N words gives 8 rows of length N, and cell (c, s) holds flat word 8*s + c |
| `ColumnMajor.Interleave` | ECF.py:38 | the column-major flattening of an 8-by-N matrix has 8*N words, and flat word 8*s + c is cell (c, s) |
| `ColumnMajor.ReshapeInterleave` | ECF.py:38 | reshaping the flattening of an 8-by-N matrix gives the matrix back |
| `ColumnMajor.InterleaveReshape` | ECF.py:35-38 | flattening the reshape of 8*N words gives the words back, so no word is lost or duplicated |
| `ColumnMajor.ReshapeCellOf` | ECF.py:35-38 | word k of the recording lands in row k mod 8, column k div 8 |
| `ColumnMajor.ReshapeCellCount` | ECF.py:35-38 | the reshaped matrix has exactly as many cells as the recording has words |
| `Decoder.CalibrateRow` | ECF.py:41-42 | calibrating a row keeps its length and maps each word to its voltage |
| `Decoder.Calibrate` | ECF.py:41-42 | calibration is element-wise: same number of rows, same row lengths, each cell mapped by the affine map |
| `Decoder.Recover` | ECF.py:41-42 | the inverse calibration keeps the shape and maps each voltage back to a raw code |
| `Decoder.RecoverCalibrate` | ECF.py:41-42 | for res > 0, recovering the raw codes of a calibrated matrix gives the raw matrix |
| `Decoder.Decode` | ECF.py:38-42 | succeeds iff the word count is a multiple of 8, and fails with MalformedInput otherwise. On success the result has 8 rows of length count / 8, and cell (c, s) is res * (words[8*s + c] - 16384) |
| `Decoder.LoadFile` | ECF.py:35-44 | at the recorder's constants (8 channels, 4.12e-4, offset 16384): same shape, error and cell formula as Decode |
| `Decoder.DecodeInterleaved` | ECF.py:35-44 | decoding the column-major flattening of an 8-by-N raw matrix gives that matrix calibrated |
| `Decoder.DecodeRecoversWords` | ECF.py:35-44 | for res > 0, recovering the raw codes of a decoded recording and flattening them gives the recording |
| `Decoder.DecodeInjective` | ECF.py:35-44 | for res > 0, two recordings that decode to the same matrix are equal |
| `Decoder.ReshapeCountingWords` | ECF.py:38 | the words 0..15 reshape to channel c = [c, c + 8] |
| `Decoder.DecodeAlternatingWords` | ECF.py:38-42 | 16 words alternating 16384 and 0 decode at resolution 1 to [0, 0] on even channels and [-16384, -16384] on odd ones |
| `SubplotGrid.GridPlacements` | ECF.py:138-144 | the nested loops make 8 calls, and call i draws channel i in grid cell (i div 4, i mod 4) |
| `SubplotGrid.ShowChannels` | ECF.py:128-149 | with no samples the call aborts before any subplot (the last time-axis entry at line 135 does not exist) and nothing is placed. Otherwise selector -1 gives the 2-by-4 grid layout, and any other selector draws that one channel in the single subplot |
| `SubplotGrid.GridCoversEachChannelOnce` | ECF.py:130-144 | in the grid, channels 0..7 are each drawn exactly once, in cell (ch div 4, ch mod 4). Every placement is inside the 2-by-4 grid, and no cell is used twice |

## Left out

- Reading the file (ECF.py:31-35): resolving the path next to the script and `np.fromfile`. The input is the sequence of words already read. The byte order of a word is the host's and is not modelled.
- Floating point: the product `voltage_resolution * (raw - 16384)` (ECF.py:41-42) is computed in float64 by the source and in exact real arithmetic here. Rounding is not modelled; the recentred integer code is exact in both.
- `Decoder.Decode`: the channel count is fixed at `number_of_channels` = 8, as in the source. A decoder for another channel count is not modelled.
- The error for a word count that is not a multiple of 8 (ECF.py:38): numpy raises `ValueError` from `reshape`. Here it is the value `Err(MalformedInput)`.
- `zp_filter` (ECF.py:65-80): it calls `scipy.signal.filtfilt` with coefficients b = a = [1, 0], in a foreign library. There is no in-repository logic to verify.
- `convert_dataframe` (ECF.py:47-62): a pandas wrapper that only attaches the labels "Channel 1".."Channel 8".
- All drawing in `plot_ch` and `show_ch` (ECF.py:83-158): colours, titles, axis limits, figure size, the legend and `plt.show()`. The float time axis `sample / sample_freq` (ECF.py:128-129) is also left out.
- `SubplotGrid.ShowChannels`: the `IndexError` raised for an empty recording (ECF.py:135) is modelled only as `drawn == false`, with no panels. A selector other than -1 is passed through unchecked, as in the source. What indexing `data[ch]` and `colors[ch]` with it does (Python's negative indices, `IndexError`) is not modelled.
- main.py: driver glue that calls the methods in sequence and prints the table (main.py:4-11).
