/**
  The split of `train_test_val_split` in src/utils.py (lines 84-136). For the
  `patch` and `patch_overlap` options the window list is cut at whole blocks:
  train gets the windows of the first train_num_blocks start times, validation
  the next val_num_blocks, and test the rest. Gaussian noise is then added to
  the training windows only; the noise values are a parameter here.
 */
module BlockSplit {
  import opened Wrappers
  import opened MixedRadix
  import opened Indexing
  import opened PatchIndex
  import opened Windowing

  /** The three partitions. */
  datatype Splits<T> = Splits(train: seq<T>, val: seq<T>, test: seq<T>)

  /** int(total * proportion): val_num_blocks of the block split, and both lengths of the proportional split. */
  function Portion(total: nat, prop: real): int
  {
    Trunc(total as real * prop)
  }

  /** train_num_blocks: int(total * train_proportion) - ((window_size - 1) + pred_size). */
  function TrainBlocks(total: nat, tp: real, w: nat, pred: nat): int
  {
    Portion(total, tp) - ((w - 1) + pred)
  }

  /** A non-negative proportion gives a non-negative portion. */
  lemma PortionNonNegative(total: nat, prop: real)
    requires prop >= 0.0
    ensures Portion(total, prop) >= 0
  {
    assert total as real * prop >= 0.0;
  }

  /**
    Cut at whole blocks: the first trainBlocks * ppb windows, then the next
    valBlocks * ppb, then the rest (Python slice semantics).
   */
  function Partition<T>(ws: seq<T>, trainBlocks: int, valBlocks: int, ppb: int): Splits<T>
  {
    var valStart := trainBlocks * ppb;
    var valEnd := valStart + valBlocks * ppb;
    Splits(Slice(ws, 0, valStart), Slice(ws, valStart, valEnd), Slice(ws, valEnd, |ws|))
  }

  /** The three slices of src/utils.py:96-108. */
  function SplitAtBlocks<T>(ws: seq<T>, total: nat, ppb: int, w: nat, pred: nat, tp: real, vp: real): Splits<T>
  {
    Partition(ws, TrainBlocks(total, tp, w, pred), Portion(total, vp), ppb)
  }

  /** train + noise, elementwise: noise(i, 0, k) for feature k of window i, noise(i, 1, k) for its target k. */
  function AddNoise(train: seq<Window<real>>, noise: (int, int, int) -> real): seq<Window<real>>
  {
    seq(|train|, i requires 0 <= i < |train| =>
      Window(seq(|train[i].feature|, k requires 0 <= k < |train[i].feature| => train[i].feature[k] + noise(i, 0, k)),
             seq(|train[i].target|, k requires 0 <= k < |train[i].target| => train[i].target[k] + noise(i, 1, k))))
  }

  /** The noise step of src/utils.py:125-129. */
  function NoiseTrain(sp: Splits<Window<real>>, addNoise: bool, noise: (int, int, int) -> real): Splits<Window<real>>
  {
    if addNoise then Splits(AddNoise(sp.train, noise), sp.val, sp.test) else sp
  }

  /**
    What `train_test_val_split` returns or raises. For `space` and `time` the
    source slices the (windows, patches_per_block) pair returned by
    `to_windowed` instead of the windows, so `train` is a tuple and reading
    `train.shape` raises AttributeError: in the noise step when noise is
    added, and in the report of the three shapes just before the conversion
    to tensors otherwise.
   */
  function SplitResult(data: seq<real>, g: Extent, tp: real, vp: real, pred: nat, w: nat, p: Extent, mode: Mode,
                       addNoise: bool, noise: (int, int, int) -> real): Result<Splits<Window<real>>, PyError>
  {
    match ToWindowedResult(data, g, pred, w, p, mode, Extent(1, 1, 1))
    case Err(e) => Err(e)
    case Ok(out) =>
      if mode == Space || mode == Time then
        Err(AttributeError)
      else if Volume(g) == 0 || out.patchesPerBlock.None? then
        Err(ZeroDivisionError)
      else
        var total := |data| / Volume(g);
        Ok(NoiseTrain(SplitAtBlocks(out.windows, total, out.patchesPerBlock.value, w, pred, tp, vp), addNoise, noise))
  }

  /** `train_test_val_split` of src/utils.py:84-136, without scaling. */
  method TrainTestValSplit(data: seq<real>, g: Extent, tp: real, vp: real, pred: nat, w: nat, p: Extent, mode: Mode,
                           addNoise: bool, noise: (int, int, int) -> real)
    returns (r: Result<Splits<Window<real>>, PyError>)
    ensures r == SplitResult(data, g, tp, vp, pred, w, p, mode, addNoise, noise)
  {
    var windowed := ToWindowed(data, g, pred, w, p, mode, Extent(1, 1, 1));
    if windowed.Err? {
      return Err(windowed.error);
    }
    var out := windowed.value;
    if mode == Space || mode == Time {
      return Err(AttributeError);
    }
    if Volume(g) == 0 || out.patchesPerBlock.None? {
      return Err(ZeroDivisionError);
    }
    var total := |data| / Volume(g);
    var sp := SplitAtBlocks(out.windows, total, out.patchesPerBlock.value, w, pred, tp, vp);
    ghost var split := sp;
    if addNoise {
      sp := Splits(AddNoise(sp.train, noise), sp.val, sp.test);
    }
    assert sp == NoiseTrain(split, addNoise, noise);
    r := Ok(sp);
  }

  // ---------------------------------------------------------------------
  // Properties
  // ---------------------------------------------------------------------

  /** Validation starts where train ends, so with non-negative block counts the three partitions concatenate back to the windows. */
  lemma PartitionConcat<T>(ws: seq<T>, tnb: nat, vnb: nat, ppb: nat)
    ensures var sp := Partition(ws, tnb, vnb, ppb);
            sp.train + sp.val + sp.test == ws
  {
    SliceConcat(ws, tnb * ppb, tnb * ppb + vnb * ppb);
  }

  /** The split of the source: with train_num_blocks >= 0 and val_proportion >= 0 nothing is lost or repeated. */
  lemma SplitConcat<T>(ws: seq<T>, total: nat, ppb: nat, w: nat, pred: nat, tp: real, vp: real)
    requires TrainBlocks(total, tp, w, pred) >= 0 && vp >= 0.0
    ensures var sp := SplitAtBlocks(ws, total, ppb, w, pred, tp, vp);
            sp.train + sp.val + sp.test == ws
  {
    PortionNonNegative(total, vp);
    PartitionConcat(ws, TrainBlocks(total, tp, w, pred), Portion(total, vp), ppb);
  }

  /**
    When the windows cover train and validation, train holds tnb * ppb
    windows, validation vnb * ppb and test the remainder.
   */
  lemma PartitionSizes<T>(ws: seq<T>, tnb: nat, vnb: nat, ppb: nat)
    requires (tnb + vnb) * ppb <= |ws|
    ensures var sp := Partition(ws, tnb, vnb, ppb);
            && 0 <= tnb * ppb <= tnb * ppb + vnb * ppb <= |ws|
            && sp.train == ws[..tnb * ppb]
            && sp.val == ws[tnb * ppb..tnb * ppb + vnb * ppb]
            && sp.test == ws[tnb * ppb + vnb * ppb..]
            && |sp.train| == tnb * ppb && |sp.val| == vnb * ppb && |sp.test| == |ws| - (tnb + vnb) * ppb
  {
    var a, b := tnb * ppb, tnb * ppb + vnb * ppb;
    assert b == (tnb + vnb) * ppb;
    MulMonotone(0, tnb, ppb);
    MulMonotone(0, vnb, ppb);
    SliceThree(ws, a, b);
  }

  lemma SliceThree<T>(ws: seq<T>, a: int, b: int)
    requires 0 <= a <= b <= |ws|
    ensures Slice(ws, 0, a) == ws[..a] && Slice(ws, a, b) == ws[a..b] && Slice(ws, b, |ws|) == ws[b..]
  {
  }

  /** Noise changes only the training windows, by exactly the noise value at each position. */
  lemma NoiseOnlyTrain(sp: Splits<Window<real>>, addNoise: bool, noise: (int, int, int) -> real, i: int, k: int)
    ensures var sp' := NoiseTrain(sp, addNoise, noise);
            && sp'.val == sp.val && sp'.test == sp.test && |sp'.train| == |sp.train|
            && (!addNoise ==> sp'.train == sp.train)
            && (addNoise && 0 <= i < |sp.train| ==>
                  && |sp'.train[i].feature| == |sp.train[i].feature| && |sp'.train[i].target| == |sp.train[i].target|
                  && (0 <= k < |sp.train[i].feature| ==> sp'.train[i].feature[k] == sp.train[i].feature[k] + noise(i, 0, k))
                  && (0 <= k < |sp.train[i].target| ==> sp'.train[i].target[k] == sp.train[i].target[k] + noise(i, 1, k)))
  {
  }

  /** The window of patch (i, j, k) at start time first + t sits t blocks after position first * ppb. */
  lemma {:induction false} PatchWindowAt(len: nat, g: Extent, p: Extent, w: nat, pred: nat, first: nat, t: nat, i: nat, j: nat, k: nat)
    requires Volume(g) > 0 && Positive(p)
    requires first + t < StartCount(len, g, w)
    requires i < Counts(g, p).e1 && j < Counts(g, p).e2 && k < Counts(g, p).e3
    ensures var c := Counts(g, p);
            var ws := PatchIndexWindows(len, g, p, w, pred);
            var n := first * PatchesPerBlock(g, p) + Encode(Digits(t, i, j, k), c.e1, c.e2, c.e3);
            var v := Vertex(g, p, first + t, i, j, k);
            0 <= n < |ws| && ws[n] == Window(PatchIndices(g, p, PatchSteps(w, pred), v, 0), PatchIndices(g, p, PatchSteps(w, pred), v, pred))
  {
    var c := Counts(g, p);
    EncodeShift(first, Digits(t, i, j, k), c.e1, c.e2, c.e3);
    PatchWindowOrder(len, g, p, w, pred, first + t, i, j, k);
  }

  /** Position n of the tail after the first two parts is position (tnb + vnb) * ppb + n of the whole. */
  lemma TestSlot<T>(ws: seq<T>, test: seq<T>, tnb: int, vnb: int, ppb: int, n: int, x: T)
    requires 0 <= tnb * ppb + vnb * ppb <= |ws| && test == ws[tnb * ppb + vnb * ppb..]
    requires 0 <= n && 0 <= (tnb + vnb) * ppb + n < |ws| && ws[(tnb + vnb) * ppb + n] == x
    ensures 0 <= n < |test| && test[n] == x
  {
    assert (tnb + vnb) * ppb == tnb * ppb + vnb * ppb;
  }

  /** Windows for blocks * ppb positions exist only if there are that many start times. */
  lemma {:induction false} BlocksWithinStarts(len: nat, g: Extent, p: Extent, w: nat, pred: nat, blocks: int)
    requires Volume(g) > 0 && Positive(p) && Positive(Counts(g, p))
    requires blocks * PatchesPerBlock(g, p) <= |PatchIndexWindows(len, g, p, w, pred)|
    ensures blocks <= StartCount(len, g, w)
  {
    PatchWindowCount(len, g, p, w, pred);
    MulCancel(blocks, StartCount(len, g, w), PatchesPerBlock(g, p));
  }

  /**
    Inside the run of `size` blocks that starts at block `first`, the window
    of patch (i, j, k) at start time t is at offset Encode(t, i, j, k).
   */
  lemma {:induction false} PartBlock(len: nat, g: Extent, p: Extent, w: nat, pred: nat, first: nat, size: int, t: nat, i: nat, j: nat, k: nat)
    requires Volume(g) > 0 && Positive(p)
    requires t < size && first + size <= StartCount(len, g, w)
    requires i < Counts(g, p).e1 && j < Counts(g, p).e2 && k < Counts(g, p).e3
    ensures var c := Counts(g, p);
            var ws := PatchIndexWindows(len, g, p, w, pred);
            var n := Encode(Digits(t, i, j, k), c.e1, c.e2, c.e3);
            var v := Vertex(g, p, first + t, i, j, k);
            && 0 <= n < size * PatchesPerBlock(g, p)
            && 0 <= first * PatchesPerBlock(g, p) + n < |ws|
            && ws[first * PatchesPerBlock(g, p) + n]
               == Window(PatchIndices(g, p, PatchSteps(w, pred), v, 0), PatchIndices(g, p, PatchSteps(w, pred), v, pred))
  {
    var c := Counts(g, p);
    EncodeInSteps(c, size, Digits(t, i, j, k));
    PatchWindowAt(len, g, p, w, pred, first, t, i, j, k);
  }

  /**
    Each partition starts on a new block. In train, the window of patch
    (i, j, k) at start time t is at position Encode(t, i, j, k).
   */
  lemma {:induction false} TrainBlocksAligned(len: nat, g: Extent, p: Extent, w: nat, pred: nat, tnb: nat, vnb: nat, t: nat, i: nat, j: nat, k: nat)
    requires Volume(g) > 0 && Positive(p)
    requires i < Counts(g, p).e1 && j < Counts(g, p).e2 && k < Counts(g, p).e3
    requires (tnb + vnb) * PatchesPerBlock(g, p) <= |PatchIndexWindows(len, g, p, w, pred)|
    requires t < tnb
    ensures var c := Counts(g, p);
            var sp := Partition(PatchIndexWindows(len, g, p, w, pred), tnb, vnb, PatchesPerBlock(g, p));
            var n := Encode(Digits(t, i, j, k), c.e1, c.e2, c.e3);
            var v := Vertex(g, p, t, i, j, k);
            && 0 <= n < |sp.train|
            && sp.train[n] == Window(PatchIndices(g, p, PatchSteps(w, pred), v, 0), PatchIndices(g, p, PatchSteps(w, pred), v, pred))
  {
    var ppb := PatchesPerBlock(g, p);
    var ws := PatchIndexWindows(len, g, p, w, pred);
    PartitionSizes(ws, tnb, vnb, ppb);
    BlocksWithinStarts(len, g, p, w, pred, tnb + vnb);
    PartBlock(len, g, p, w, pred, 0, tnb, t, i, j, k);
  }

  /** In validation, position Encode(t, i, j, k) holds that patch at start time train_num_blocks + t. */
  lemma {:induction false} ValBlocksAligned(len: nat, g: Extent, p: Extent, w: nat, pred: nat, tnb: nat, vnb: nat, t: nat, i: nat, j: nat, k: nat)
    requires Volume(g) > 0 && Positive(p)
    requires i < Counts(g, p).e1 && j < Counts(g, p).e2 && k < Counts(g, p).e3
    requires (tnb + vnb) * PatchesPerBlock(g, p) <= |PatchIndexWindows(len, g, p, w, pred)|
    requires t < vnb
    ensures var c := Counts(g, p);
            var sp := Partition(PatchIndexWindows(len, g, p, w, pred), tnb, vnb, PatchesPerBlock(g, p));
            var n := Encode(Digits(t, i, j, k), c.e1, c.e2, c.e3);
            var v := Vertex(g, p, tnb + t, i, j, k);
            && 0 <= n < |sp.val|
            && sp.val[n] == Window(PatchIndices(g, p, PatchSteps(w, pred), v, 0), PatchIndices(g, p, PatchSteps(w, pred), v, pred))
  {
    var ppb := PatchesPerBlock(g, p);
    var ws := PatchIndexWindows(len, g, p, w, pred);
    PartitionSizes(ws, tnb, vnb, ppb);
    BlocksWithinStarts(len, g, p, w, pred, tnb + vnb);
    PartBlock(len, g, p, w, pred, tnb, vnb, t, i, j, k);
  }

  /** In test, position Encode(t, i, j, k) holds that patch at start time train_num_blocks + val_num_blocks + t. */
  lemma {:induction false} TestBlocksAligned(len: nat, g: Extent, p: Extent, w: nat, pred: nat, tnb: nat, vnb: nat, t: nat, i: nat, j: nat, k: nat)
    requires Volume(g) > 0 && Positive(p)
    requires i < Counts(g, p).e1 && j < Counts(g, p).e2 && k < Counts(g, p).e3
    requires (tnb + vnb) * PatchesPerBlock(g, p) <= |PatchIndexWindows(len, g, p, w, pred)|
    requires tnb + vnb + t < StartCount(len, g, w)
    ensures var c := Counts(g, p);
            var sp := Partition(PatchIndexWindows(len, g, p, w, pred), tnb, vnb, PatchesPerBlock(g, p));
            var n := Encode(Digits(t, i, j, k), c.e1, c.e2, c.e3);
            var v := Vertex(g, p, tnb + vnb + t, i, j, k);
            && 0 <= n < |sp.test|
            && sp.test[n] == Window(PatchIndices(g, p, PatchSteps(w, pred), v, 0), PatchIndices(g, p, PatchSteps(w, pred), v, pred))
  {
    var ppb := PatchesPerBlock(g, p);
    var ws := PatchIndexWindows(len, g, p, w, pred);
    PartitionSizes(ws, tnb, vnb, ppb);
    var c := Counts(g, p);
    var v := Vertex(g, p, tnb + vnb + t, i, j, k);
    PartBlock(len, g, p, w, pred, tnb + vnb, StartCount(len, g, w) - (tnb + vnb), t, i, j, k);
    TestSlot(ws, Partition(ws, tnb, vnb, ppb).test, tnb, vnb, ppb, Encode(Digits(t, i, j, k), c.e1, c.e2, c.e3),
             Window(PatchIndices(g, p, PatchSteps(w, pred), v, 0), PatchIndices(g, p, PatchSteps(w, pred), v, pred)));
  }

  /**
    The `space` and `time` options never produce a split: `space` always
    reaches the slicing of the tuple and raises AttributeError; `time` does
    too unless its own gather raised IndexError first.
   */
  lemma SpaceTimeSplitFails(data: seq<real>, g: Extent, tp: real, vp: real, pred: nat, w: nat, p: Extent, mode: Mode,
                            addNoise: bool, noise: (int, int, int) -> real)
    requires mode == Space || mode == Time
    ensures var r := SplitResult(data, g, tp, vp, pred, w, p, mode, addNoise, noise);
            r == Err(AttributeError) || (mode == Time && r == Err(IndexError))
    ensures mode == Space ==> SplitResult(data, g, tp, vp, pred, w, p, mode, addNoise, noise) == Err(AttributeError)
  {
  }
}
