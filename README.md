# Windowing, splitting, ARFIMA and early stopping of nyu-capstone, in Dafny

This project models the integer and sequence logic under the machine-learning
code of the nyu-capstone turbulence-forecasting repository. It proves
properties of that model.

- **Windowing** (`to_windowed` in src/utils.py). A flat array holds T mesh
  blocks, each of volume B = nx1·nx2·nx3, laid out row-major with x3 fastest.
  The function turns that array into (feature, target) windows under four
  options:
  - `space`: a plain sliding window;
  - `time`: a gather with stride B;
  - `patch`: disjoint cuboid patches;
  - `patch_overlap`: sliding patches.

  The `time`, `patch` and `patch_overlap` windows are gathers by index lists,
  and those lists depend only on the array's length and the shape parameters.
  The nested loops that list the patch vertices are modelled as loops and
  proved against a mixed-radix specification.
- **Splitting** (`train_test_val_split` in src/utils.py). The window list is
  cut at whole blocks (multiples of patches_per_block). Noise is then added to
  the training windows only.
- **The older patch-only pipeline** of notebooks/tl-turb-16/utils.py. Its
  windows span the full window_size. Its split is proportional, window by
  window. Data, coordinates and timestamps of equal length are windowed and
  split in the same positions.
- **The ARFIMA generator** of data/_arfima.py, with the noise supplied as an
  input sequence:
  - the MA filter;
  - the AR recursion, over an array it reads back;
  - the fractional difference of Jensen and Nielsen (2014), where the FFT pair
    becomes the circular convolution it computes, proved equal to the causal
    convolution;
  - the composition of the three.
- **The `early_stopping` class.** It is identical in both
  `transformer_output.py` files. It is a class whose `Call` method updates
  best_loss, counter, early_stop and best_model, next to a pure transition
  function and lemmas about single calls and runs of calls.
- **The four-pass argsort** that orders the prediction table lexicographically
  by (time, x1, x2, x3).
- **The decoder input** of the rollout in
  notebooks/turbulence_16_yd/transformer_output.py.

Python semantics are written out in module `Indexing`:
- slices clamp their bounds and read negative bounds from the end;
- `int()` truncates toward zero;
- `range(n)` is empty for n <= 0;
- NumPy fancy indexing raises IndexError outside [-len, len).

Each operation that can raise returns a `Result` whose error is the exception
the source raises.

Where the project's documentation and the code disagree, the model follows the
code:
- The documentation says the ARFIMA generator returns exactly n_points values.
  The code returns fewer when warmup < q (see Findings).
- The documentation says patch sizes that do not divide the block are a
  configuration error. The code floors `nx // x` and goes on, and so does the
  model; the tiling lemmas assume divisibility.
- The documentation says `n_points <= 1` fails. The code computes an FFT length
  of 1 for n_points = 1, and the model follows that.

## Model

| member | source | states |
|---|---|---|
| MixedRadix.DecodeEncode | src/utils.py:53 | Decoding the row-major flat position of in-range digits (t, i, j, k) gives the digits back |
| MixedRadix.EncodeDecode | src/utils.py:53 | Every flat position is the row-major position of its digits |
| MixedRadix.EncodeBound | src/utils.py:49-53 | Digits in range give a position below the grid's volume r0·r1·r2·r3 |
| MixedRadix.DecodeBound | src/utils.py:49-53 | A position below the volume decodes to digits in range |
| MixedRadix.EncodeInjective | src/utils.py:53 | Distinct in-range digits have distinct positions |
| MixedRadix.EncodeBlock | src/utils.py:53 | The leading digit t selects the block [t·B, (t+1)·B) |
| LoopNest.Loops | src/utils.py:49-53 | Four nested range loops that append f(t, i, j, k) produce exactly the list whose n-th element is f of the digits of n |
| LoopNest.NestLength | src/utils.py:49-53 | The loops append r0·r1·r2·r3 values |
| LoopNest.NestAt | src/utils.py:49-53 | The value of iteration (t, i, j, k) sits at its row-major position |
| LoopNest.NestDigits | src/utils.py:49-53 | Every position holds f of in-range digits |
| Indexing.Slice | src/utils.py:30-31 | A Python slice with in-range bounds is the sub-sequence; any slice is no longer than the sequence |
| Indexing.SliceConcat | src/utils.py:106-108 | Slices at two non-negative cut points concatenate back to the sequence |
| Indexing.TakeSlice | src/utils.py:30-31 | Gathering the positions a..b-1 is the slice data[a:b] |
| Indexing.GatherLoop | src/utils.py:55-60 | The per-window gather loop returns all windows, or IndexError as soon as one index is out of range, as the gather function says |
| Indexing.GatherAt | src/utils.py:56-59 | A successful gather holds, at every position, the element its index names |
| Indexing.GatherAligned | notebooks/tl-turb-16/utils.py:59-62 | Arrays of equal length gather the same index windows with the same outcome and the same shapes |
| Indexing.GatherFetched | src/utils.py:55-60 | A successful gather is its index windows fetched one by one |
| Indexing.SliceFetched | notebooks/tl-turb-16/utils.py:81-83 | Slicing gathered windows and index windows at the same bounds keeps them paired |
| Windowing.SpaceWindows | src/utils.py:27-33 | The `space` loop builds exactly the window list of the specification function |
| Windowing.SpaceContents | src/utils.py:28-31 | There are max(0, len − w) windows; feature i is data[i..i+w); target i is data[i+pred..i+w+pred) cut at the end |
| Windowing.SpaceShift | src/utils.py:29-31 | With pred_size 1 each target has length w and target i equals feature i+1 |
| Windowing.SpaceTargetsFull | src/utils.py:28-31 | For 0 < w < len, all targets have full length w if and only if pred_size <= 1 |
| Windowing.TimeWindows | src/utils.py:35-42 | The `time` loop is the gather of the stride-B index windows |
| Windowing.TimeWindowsOk | src/utils.py:37-40 | The `time` option succeeds if and only if there is no window, w = 0, pred_size <= 1 or B = 0 |
| Windowing.TimeLastIndex | src/utils.py:40 | With pred_size > 1 the last target index of the last window is past the array |
| Windowing.TimeContents | src/utils.py:37-40 | Feature k of window i is data[i + B·k] and target k is data[i + B·(k+pred)]; there are max(0, len − B·w) windows |
| Windowing.TimeShift | src/utils.py:39-40 | With pred_size 1 the option succeeds and target k of a window is its feature k+1 |
| PatchIndex.PatchVertices | src/utils.py:48-53 | The vertex loops produce exactly the vertex list: the vertex of every patch (i, j, k) at every start time t, k fastest |
| PatchIndex.PatchIndicesShift | src/utils.py:56-59 | A window's feature and target each hold steps·x1·x2·x3 indices; reading `shift` steps later adds shift·B to each index |
| PatchIndex.OffsetShift | src/utils.py:56-58 | Moving a cell offset `shift` steps later adds shift·B |
| PatchIndex.StartCountOfBlocks | src/utils.py:49 | With T whole blocks there are max(0, T − window_size) start times |
| PatchIndex.StartCountBound | src/utils.py:49 | Each start time leaves room for window_size + 1 blocks |
| PatchIndex.VertexCount | src/utils.py:49-53 | There are start-times × patches_per_block vertices |
| PatchIndex.VertexOrder | src/utils.py:49-53 | Vertices are ordered by start time, then i, j, k |
| PatchIndex.IndexAsDigits | src/utils.py:53-57 | Vertex plus cell offset is the row-major position (t+time, i·x1+a, j·x2+b, k·x3+c) of the cell |
| PatchIndex.CellInBlock | src/utils.py:53-57 | Cell (a, b, c) of patch (i, j, k), `time` steps on, lies in block t + time |
| PatchIndex.PatchIndexInBlock | src/utils.py:55-59 | Every index gathered for a vertex lies in the block of its time step |
| PatchIndex.PatchIndexInArray | src/utils.py:49-59 | Windows of `steps` time steps read `shift` steps later stay inside the array when steps + shift <= window_size + 1 |
| PatchIndex.StepBound | src/utils.py:56-57 | A position of a window of `steps` patches falls in one of those steps |
| PatchIndex.PatchTilingCovers | src/utils.py:53-57 | When the patch divides the block, every position of block t is a cell of some patch at start time t |
| PatchIndex.PatchTilingDisjoint | src/utils.py:53-57 | Two patch cells of the same time step at the same position are the same cell of the same patch |
| Windowing.PatchWindows | src/utils.py:44-61 | The two `patch` loops are the gather of one index window per vertex |
| Windowing.PatchWindowCount | src/utils.py:49-61 | There are start-times × patches_per_block windows, i.e. max(0, T − window_size)·patches_per_block when len = T·B |
| Windowing.PatchWindowShape | src/utils.py:55-59 | Feature and target hold (w − pred + 1)·x1·x2·x3 indices; each target index is its feature index plus pred_size·B |
| Windowing.PatchWindowsOk | src/utils.py:48-60 | The `patch` option never raises IndexError: every index lies in [0, len) |
| Windowing.PatchWindowOrder | src/utils.py:48-60 | The window at position Encode(t, i, j, k) gathers the patch with vertex Vertex(t, i, j, k) |
| Windowing.ToWindowed | src/utils.py:20-81 | `to_windowed` returns the option's windows and patches_per_block, or ZeroDivisionError / IndexError as the source raises them; `patch_overlap` gathers by the index formula of lines 72 and 74 as written |
| Windowing.ToWindowedOutcome | src/utils.py:20-81 | `space` always succeeds; `time` succeeds exactly in the cases above; `patch` succeeds if and only if block and patch are non-empty; `patch_overlap` as written succeeds for pred_size <= 1 at unit stride on blocks with nx1 == nx3, and raises ZeroDivisionError on an empty block; `ToWindowedCorrected` agrees on the other options and its `patch_overlap` succeeds for pred_size <= 1 and any positive strides |
| Windowing.OverlapAsWrittenRaises | src/utils.py:63-78 | On 6 values, block (1,1,2), patch (1,1,2), unit stride and window_size = pred_size = 1, `patch_overlap` as written raises IndexError while the corrected formula succeeds |
| Overlap.OverlapWindowsAsWritten | src/utils.py:63-79 | The `patch_overlap` loops as written are the gather of the windows built with the formulas of lines 72 and 74 |
| Overlap.OverlapWindows | src/utils.py:63-79 | The same loops with the corrected index formula are the gather of the corrected windows |
| Overlap.OverlapWindowCount | src/utils.py:68-72 | Per start time there are Π floor((nx − x)/s + 1) vertices, under either formula |
| Overlap.UnitStrideCount | src/utils.py:69-79 | With stride (1,1,1) patches_per_block counts the vertices of one start time |
| Overlap.StrideCountMismatch | src/utils.py:69-79 | With a stride of 2 the vertex count (2) differs from patches_per_block (3) |
| Overlap.OverlapWindowShape | src/utils.py:73-77 | Feature and target hold window_size·x1·x2·x3 indices; each target index is the feature index plus pred_size·B |
| Overlap.CorrectedAsDigits | src/utils.py:72-75 | Corrected vertex plus offset is the x1-fastest position of the cell, with patch positions scaled by the stride |
| Overlap.CorrectedCellInBlock | src/utils.py:72-75 | Under the corrected formula every cell stays in the block of its time step |
| Overlap.CorrectedInBlock | src/utils.py:68-77 | Every corrected index of window n lies in block start + time + shift |
| Overlap.CorrectedIndexOk | src/utils.py:68-77 | With pred_size <= 1 every corrected index lies in [0, len) |
| Overlap.CorrectedCellsOk | src/utils.py:73-77 | All cells of a corrected window are valid indices |
| Overlap.CorrectedWindowsOk | src/utils.py:63-79 | With pred_size <= 1 the corrected option never raises IndexError |
| Overlap.UnitStrideVertices | src/utils.py:68-72 | With stride (1,1,1) the vertices as written equal the corrected ones |
| Overlap.CubicOffsets | src/utils.py:74-76 | With nx1 == nx3 the offsets as written equal the corrected ones |
| Overlap.AsWrittenAgrees | src/utils.py:68-77 | With nx1 == nx3 and stride (1,1,1) the windows as written equal the corrected ones |
| Overlap.NonCubicTarget | src/utils.py:72-77 | On the block (1,1,2) with 6 values, the second target as written gathers [4, 6], and 6 is past the array |
| Overlap.NonCubicSpill | src/utils.py:72-75 | On the block (1,1,2) the first feature as written gathers [0, 2], leaving its block; the corrected formula gathers [0, 1] |
| Overlap.StrideIgnored | src/utils.py:69-75 | With stride 2 the vertices as written are [0, 1] and the patches overlap; the corrected vertices are [0, 2] |
| BlockSplit.PortionNonNegative | src/utils.py:96-97 | int(total·proportion) is non-negative for a non-negative proportion |
| BlockSplit.TrainTestValSplit | src/utils.py:84-136 | The split returns the three block-aligned slices with noise on train, or the exception the source raises: AttributeError for `space`/`time`, whose `train` is a tuple, and the errors of to_windowed, with `patch_overlap` as written |
| BlockSplit.PartitionConcat | src/utils.py:99-108 | Validation starts where train ends, so train ++ val ++ test is the window list |
| BlockSplit.SplitConcat | src/utils.py:93-108 | With train_num_blocks >= 0 and val_proportion >= 0 the split loses and repeats nothing |
| BlockSplit.PartitionSizes | src/utils.py:101-108 | Train is the first train_num_blocks·ppb windows, val the next val_num_blocks·ppb, test the rest |
| BlockSplit.NoiseOnlyTrain | src/utils.py:125-129 | Noise changes only train, each value by exactly its noise draw; val and test are unchanged |
| BlockSplit.PatchWindowAt | src/utils.py:48-60 | The window of patch (i, j, k) at start time first + t sits t blocks after position first·ppb |
| BlockSplit.BlocksWithinStarts | src/utils.py:93-104 | A block count whose windows exist is at most the number of start times |
| BlockSplit.PartBlock | src/utils.py:101-108 | Within a run of blocks starting at `first`, patch (i, j, k) at time t sits at offset Encode(t, i, j, k) |
| BlockSplit.TrainBlocksAligned | src/utils.py:96-106 | Train starts on a block: its position Encode(t, i, j, k) holds that patch at start time t |
| BlockSplit.ValBlocksAligned | src/utils.py:97-107 | Validation starts on a block: it holds the patches of start time train_num_blocks + t |
| BlockSplit.TestBlocksAligned | src/utils.py:104-108 | Test starts on a block: it holds the patches of start time train_num_blocks + val_num_blocks + t |
| BlockSplit.SpaceTimeSplitFails | src/utils.py:114-131 | For `space` the split raises AttributeError; for `time` it raises AttributeError, or IndexError from its own gather |
| TlWindowing.TlToWindowed | notebooks/tl-turb-16/utils.py:42-65 | The vertex loops and gathers return the full-window index windows gathered, or ZeroDivisionError / IndexError |
| TlWindowing.TlTrainTestValSplit | notebooks/tl-turb-16/utils.py:68-89 | The split is the proportional cut of the windows, or the exception of to_windowed |
| TlWindowing.TlWindowCount | notebooks/tl-turb-16/utils.py:52-56 | There are start-times × patches_per_block windows, (T − window_size)·ppb for len = T·B |
| TlWindowing.TlWindowShape | notebooks/tl-turb-16/utils.py:58-62 | Feature and target hold window_size·x1·x2·x3 indices; target = feature + pred_size·B |
| TlWindowing.TlWindowOrder | notebooks/tl-turb-16/utils.py:52-63 | Windows are ordered time-major, then i, j, k |
| TlWindowing.TlWindowsOk | notebooks/tl-turb-16/utils.py:52-63 | With pred_size <= 1 every gathered index lies in [0, len) and the gather succeeds |
| TlWindowing.TlWindowOk | notebooks/tl-turb-16/utils.py:58-62 | Each single window's indices lie in [0, len) for pred_size <= 1 |
| TlWindowing.LastStepTarget | notebooks/tl-turb-16/utils.py:61-62 | The last-step target of patch (0,0,0) at start t is index (t + w − 1 + pred)·B |
| TlWindowing.TlLongPredictionFails | notebooks/tl-turb-16/utils.py:52-63 | On T whole blocks with 1 <= w < T, pred_size >= 2 raises IndexError |
| TlWindowing.TlSplitConcat | notebooks/tl-turb-16/utils.py:77-83 | With non-negative proportions train ++ val ++ test is the window list |
| TlWindowing.PortionsFit | notebooks/tl-turb-16/utils.py:77-79 | With proportions summing to at most 1, train_len + val_len <= total |
| TlWindowing.TlSplitSizes | notebooks/tl-turb-16/utils.py:77-83 | train = first int(total·tp) windows, val the next int(total·vp), test the remainder |
| TlWindowing.PartitionFetched | notebooks/tl-turb-16/utils.py:81-83 | The partitions of gathered windows are the partitions of the index windows, fetched |
| TlWindowing.TlSplitFetched | notebooks/tl-turb-16/utils.py:75-83 | The split succeeds if and only if the index windows are valid; each partition is then fetched from the same index windows |
| TlWindowing.TlAligned | notebooks/tl-turb-16/utils.py:124-144 | Data, coordinates and timestamps of equal length succeed together and their partitions come from the same index windows, position by position |
| Arfima.Zeros | data/_arfima.py:67 | np.zeros(n) has n zero entries |
| Arfima.MaModel | data/_arfima.py:37-44 | The MA loop over the preallocated array returns the noise for q = 0, otherwise ma_series[q:] of the MA sums |
| Arfima.MaSeries | data/_arfima.py:40-43 | The MA loop writes n_points values |
| Arfima.MaOrderZero | data/_arfima.py:37-38 | With q = 0 the noise is returned unchanged, n_points values |
| Arfima.MaValue | data/_arfima.py:39-43 | Value t is noise[t+q] + params[0]·noise[t+q−1] + … + params[q−1]·noise[t] |
| Arfima.MaDropsLeading | data/_arfima.py:44 | As written, q > 0 returns max(n_points − q, 0) values: the computed series without its first q |
| Arfima.MaShortExample | data/_arfima.py:44 | MA(1) asked for 3 points returns 2 |
| Arfima.MaCorrectedLength | data/_arfima.py:25-27 | The corrected filter returns n_points values |
| Arfima.LagDot | data/_arfima.py:69-70 | The dot product over the reversed index window is the lagged sum of the values before idx |
| Arfima.ArAdvance | data/_arfima.py:69-70 | One AR iteration extends the array's prefix by the next AR output and leaves the rest of the array alone |
| Arfima.ArmaModel | data/_arfima.py:63-71 | The AR loop, which reads back its own writes, returns the AR recursion over the noise |
| Arfima.ArPrefix | data/_arfima.py:67-70 | The first k outputs are k values |
| Arfima.ArPrefixStable | data/_arfima.py:68-70 | Later outputs never change earlier ones |
| Arfima.ArRecurrence | data/_arfima.py:63-71 | out has the noise's length and out[t] = noise[t] + Σ_{i=1..min(p,t)} params[i−1]·out[t−i] |
| Arfima.ArFirst | data/_arfima.py:67-70 | The zero seeds make out[0] = noise[0] |
| Arfima.BitLengthBounds | data/_arfima.py:86-89 | 2^(bit_length(k)−1) <= k < 2^bit_length(k) |
| Arfima.FftLenBounds | data/_arfima.py:86-92 | fft_len is a power of two with 2n − 1 <= fft_len < 2(2n − 1) |
| Arfima.FracCoefsRecurrence | data/_arfima.py:93-94 | There are max(n, 1) coefficients, c[0] = 1 and c[k] = c[k−1]·(k − 1 − d)/k |
| Arfima.CoefZero | data/_arfima.py:93-94 | With d = 0 every coefficient after the first is 0 |
| Arfima.FracDiff | data/_arfima.py:91-96 | The fractional difference returns one value per input value |
| Arfima.FracDiffLinear | data/_arfima.py:92-96 | Since fft_len >= 2n − 1 the circular convolution is the causal one: y[t] = Σ_{k<=t} c[k]·x[t−k] |
| Arfima.FracDiffIdentity | data/_arfima.py:74-96 | Differencing of order 0 is the identity |
| Arfima.ArfimaSeries | data/_arfima.py:131-136 | `arfima` is MA, then differencing of order −d, then AR, then the last n_points values |
| Arfima.ArfimaFromMa | data/_arfima.py:134-136 | The steps after the MA filter compute the specification's composition |
| Arfima.ArfimaFromLength | data/_arfima.py:134-136 | The output keeps min(n, len) values of the MA output, all of them for n = 0 |
| Arfima.ArfimaLength | data/_arfima.py:131-136 | As written the output has min(n_points, n_points + warmup − q) values |
| Arfima.ArfimaCorrectedLength | data/_arfima.py:128-136 | With the corrected MA filter the output has exactly n_points values |
| EarlyStopping.EarlyStopper.constructor | src/transformer_output.py:16-22 | __init__ stores patience and delta, with no best loss or model, counter 0 and early_stop false |
| EarlyStopping.EarlyStopper.Call | src/transformer_output.py:24-36 | __call__ updates the four fields exactly as one transition step |
| EarlyStopping.FirstCall | notebooks/turbulence_16_yd/transformer_output.py:28-29 | The first call only sets best_loss; counter, early_stop and best_model are unchanged |
| EarlyStopping.Improvement | notebooks/turbulence_16_yd/transformer_output.py:30-33 | A loss below best − delta becomes best_loss, resets the counter and records the model |
| EarlyStopping.NoImprovement | src/transformer_output.py:31-32 | Otherwise counter grows by exactly 1 and best_loss and best_model are unchanged |
| EarlyStopping.EarlyStopRule | notebooks/turbulence_16_yd/transformer_output.py:34-37 | early_stop is never reset; it turns on exactly at a non-improving call that brings the counter to patience |
| EarlyStopping.BestNonIncreasing | src/transformer_output.py:24-30 | With delta >= 0 a recorded best loss never increases |
| EarlyStopping.RunSticky | src/transformer_output.py:33-34 | Once set, early_stop stays set over any further calls |
| EarlyStopping.RunBestNonIncreasing | notebooks/turbulence_16_yd/transformer_output.py:27-35 | With delta >= 0 the best loss after any calls is at most the one before |
| EarlyStopping.StopsAfterPatience | src/transformer_output.py:31-34 | patience − counter non-improving calls set early_stop, leave counter = patience and keep best loss and model |
| RowOrder.Insert | src/transformer_output.py:122 | Inserting a row gives a permutation of the row and the rows |
| RowOrder.StableSortBy | src/transformer_output.py:122 | A stable sort on one column is a permutation |
| RowOrder.InsertSorted | src/transformer_output.py:122-124 | Inserting, at the head of its key, a row that precedes all the others on the later columns keeps the rows lexicographically sorted |
| RowOrder.StableSortLifts | notebooks/turbulence_16_yd/transformer_output.py:176-178 | A stable sort on column c of rows sorted on columns c+1..3 sorts them on columns c..3 |
| RowOrder.ChainSortsLexicographically | src/transformer_output.py:121-124 | Whatever order the unstable first argsort leaves, the four argsorts give the rows sorted by (time, x1, x2, x3), as a permutation of the input |
| RowOrder.FirstPassExists | notebooks/turbulence_16_yd/transformer_output.py:200 | A stable sort is one possible result of the first argsort on column 3 |
| DecoderInput.ShiftedWithLastPatch | notebooks/turbulence_16_yd/transformer_output.py:78-79 | For 1 <= L <= len, dec_in has len rows: enc_in shifted left by L, then enc_in's last patch |
| DecoderInput.DecoderRow | notebooks/turbulence_16_yd/transformer_output.py:78-79 | Row i of dec_in is row i + L of enc_in, or row i itself in the last patch |
| DecoderInput.LongPatch | notebooks/turbulence_16_yd/transformer_output.py:78-79 | With L > len, dec_in is enc_in |
| DecoderInput.ZeroPatch | notebooks/turbulence_16_yd/transformer_output.py:78-79 | With L = 0 (−0 is 0 in Python), dec_in is enc_in twice |

## Left out

- Scaling: `StandardScaler` and the `scale` flag are not modelled. The split is modelled as if scale were False. The code fits the scaler on all the data, while the documentation says training data only.
- Floating point: losses, data values, proportions and ARFIMA arithmetic are exact reals. Rounding, NaN and infinities are not modelled, and neither is the float rounding of `int(total * proportion)`.
- Random draws: `norm.rvs`, `levy_stable.rvs` and `np.random.normal` become parameters (the MA noise sequence, the training-noise function). The noise scale and distribution are therefore not modelled.
- Arfima.MaModel: requires a noise sequence of length n_points + q, the length the source draws itself.
- Arfima.FracDiff: the scipy FFT pair is modelled as the exact circular convolution of the zero-padded inputs, followed by taking the real part. Its behaviour on an empty input is not modelled (the model returns an empty series).
- Windowing.SpaceWindows: `np.array(out)` over windows whose targets were cut short (pred_size > 1) is ragged. The model returns the windows as sequences and does not model NumPy's rejection or object arrays.
- Windowing.ToWindowed: `patch_overlap` follows the index formula as written (see Findings); the corrected formula is the separate `Windowing.ToWindowedCorrected`, which the split does not use.
- Windowing.ToWindowed: the option is one of the four named ones. An unrecognised option string, which leaves patches_per_block unbound, is not modelled.
- Extents, window_size and pred_size are natural numbers. Negative shape parameters are not modelled.
- `torch.from_numpy(...).float()`, the `print` calls and the returned scaler are left out. `test_proportion` is unused in the source as well.
- The `predict_res` branch, the data loaders beyond the alignment of data, coordinates and timestamps, and the loaders that read coordinates and timestamps from files are not part of this model.
- The PyTorch models, the training, evaluation and rollout loops, and plotting and file I/O are not part of this model.
- DecoderInput: the Gaussian noise added to the decoder input at notebooks/turbulence_16_yd/transformer_output.py:80 is left out.
- RowOrder: the rows are modelled as records of six reals, not a NumPy matrix. The first argsort, which is not stable, is modelled as any permutation sorted on column 3.
- EarlyStopping.EarlyStopper.Call: the progress messages it prints are left out. patience and delta are constant fields, since the source never reassigns them.

## Findings

| source | as written | input that shows it | evidently intended | confidence | as-written member | corrected member |
|---|---|---|---|---|---|---|
| src/utils.py:74 | The `patch_overlap` cell offset uses multipliers nx2·nx3 and nx3 for an x1-fastest vertex, so a patch leaves its block on non-cubic grids | block (1,1,2), patch (1,1,2), 6 values, window_size = pred_size = 1: the first feature gathers indices 0 and 2, and index 2 is in the next block; the second target gathers index 6, so `to_windowed` raises IndexError | Offsets use the x1-fastest multipliers nx1·nx2 and nx1, so every patch stays in its block | not executed | Windowing.OverlapAsWrittenRaises | Overlap.CorrectedWindowsOk |
| src/utils.py:72 | The `patch_overlap` vertex never multiplies the patch position by the stride | block (4,1,1), patch (2,1,1), stride (2,1,1), 8 values, window_size 1: the vertices are 0 and 1, so the two patches overlap | Vertex positions are scaled by the stride, giving 0 and 2 | not executed | Overlap.StrideIgnored | Overlap.CorrectedAsDigits |
| data/_arfima.py:44 | `__ma_model` returns `ma_series[ma_order:]`, dropping the first q of the n_points values it computed | params [0.5], n_points 3: 2 values are returned | All n_points values are returned, as the docstring says, and `arfima` returns n_points values | not executed | Arfima.MaShortExample | Arfima.ArfimaCorrectedLength |
