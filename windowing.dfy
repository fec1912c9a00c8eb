/**
  `to_windowed` of src/utils.py, option by option. Every option builds its
  windows in a loop; `time`, `patch` and `patch_overlap` gather them from the
  flat array by lists of indices, and those index lists depend only on the
  length of the array and the shape parameters.
 */
module Windowing {
  import opened Wrappers
  import opened MixedRadix
  import opened Indexing
  import opened PatchIndex
  import opened Overlap

  // ---------------------------------------------------------------------
  // option == 'space'
  // ---------------------------------------------------------------------

  /** The windows of the `space` option: two slices per start position. */
  function SpaceWindowList<T>(data: seq<T>, w: nat, pred: nat): seq<Window<T>>
  {
    seq(RangeLen(|data| - w), i => Window(Slice(data, i, i + w), Slice(data, i + pred, i + w + pred)))
  }

  /** The loop of the `space` option (src/utils.py:27-33). */
  method SpaceWindows<T>(data: seq<T>, w: nat, pred: nat) returns (out: seq<Window<T>>)
    ensures out == SpaceWindowList(data, w, pred)
  {
    out := [];
    var length := |data| - w;
    for i := 0 to RangeLen(length)
      invariant out == SpaceWindowList(data, w, pred)[..i]
    {
      var feature := Slice(data, i, i + w);
      var target := Slice(data, i + pred, i + w + pred);
      out := out + [Window(feature, target)];
    }
  }

  /**
    There are max(0, len(data) - window_size) windows; the feature of window
    i is data[i..i+w) and its target is data[i+pred..i+w+pred) cut at the end
    of the array.
   */
  lemma SpaceContents<T>(data: seq<T>, w: nat, pred: nat, i: int)
    ensures |SpaceWindowList(data, w, pred)| == RangeLen(|data| - w)
    ensures 0 <= i < |SpaceWindowList(data, w, pred)| ==>
              && i + w <= |data|
              && SpaceWindowList(data, w, pred)[i].feature == data[i..i + w]
              && SpaceWindowList(data, w, pred)[i].target == data[Min(i + pred, |data|)..Min(i + w + pred, |data|)]
  {
    var ws := SpaceWindowList(data, w, pred);
    if 0 <= i < |ws| {
      assert ws[i] == Window(Slice(data, i, i + w), Slice(data, i + pred, i + w + pred));
      assert SliceBound(i + pred, |data|) == Min(i + pred, |data|);
      assert SliceBound(i + w + pred, |data|) == Min(i + w + pred, |data|);
    }
  }

  /** With pred_size = 1 every target is full and target i is feature i+1. */
  lemma SpaceShift<T>(data: seq<T>, w: nat, i: int)
    requires 0 <= i < |SpaceWindowList(data, w, 1)|
    ensures |SpaceWindowList(data, w, 1)[i].target| == w
    ensures i + 1 < |SpaceWindowList(data, w, 1)| ==>
              SpaceWindowList(data, w, 1)[i].target == SpaceWindowList(data, w, 1)[i + 1].feature
  {
    SpaceContents(data, w, 1, i);
    SpaceContents(data, w, 1, i + 1);
  }

  /**
    When there are windows and w > 0, all targets have the full length w
    exactly when pred_size <= 1; with a larger pred_size the last pred_size - 1
    targets are cut short by the end of the array.
   */
  lemma SpaceTargetsFull<T>(data: seq<T>, w: nat, pred: nat)
    requires 0 < w < |data|
    ensures (forall i :: 0 <= i < |SpaceWindowList(data, w, pred)| ==> |SpaceWindowList(data, w, pred)[i].target| == w)
            <==> pred <= 1
  {
    var ws := SpaceWindowList(data, w, pred);
    if pred > 1 {
      var last := |data| - w - 1;
      SpaceContents(data, w, pred, last);
      assert |ws[last].target| < w;
    } else {
      forall i | 0 <= i < |ws|
        ensures |ws[i].target| == w
      {
        SpaceContents(data, w, pred, i);
      }
    }
  }

  // ---------------------------------------------------------------------
  // option == 'time'
  // ---------------------------------------------------------------------

  /** The index windows of the `time` option: stride-B gathers, B the block volume. */
  function TimeIndexWindows(len: nat, b: nat, w: nat, pred: nat): seq<Window<int>>
  {
    seq(RangeLen(len - b * w), i => Window(seq(w, k => i + b * k), seq(w, k => i + b * (k + pred))))
  }

  /** The loop of the `time` option (src/utils.py:35-42). */
  method TimeWindows<T>(data: seq<T>, g: Extent, w: nat, pred: nat) returns (r: Result<seq<Window<T>>, PyError>)
    ensures r == Gather(data, TimeIndexWindows(|data|, Volume(g), w, pred))
  {
    var nx1, nx2, nx3 := g.e1, g.e2, g.e3;
    var length := |data| - nx1 * nx2 * nx3 * w;
    var ws := seq(RangeLen(length), i => Window(seq(w, k => i + nx1 * nx2 * nx3 * k),
                                                 seq(w, k => i + nx1 * nx2 * nx3 * (k + pred))));
    assert ws == TimeIndexWindows(|data|, Volume(g), w, pred);
    r := GatherLoop(data, ws);
  }

  /** The last target index of the last window, len - 1 + B*(pred - 1), leaves the array when pred > 1. */
  lemma {:induction false} TimeLastIndex(len: nat, b: nat, w: nat, pred: nat)
    requires RangeLen(len - b * w) > 0 && w > 0 && pred > 1 && b > 0
    ensures var ws := TimeIndexWindows(len, b, w, pred);
            ws[|ws| - 1].target[w - 1] >= len
  {
    var i := len - b * w - 1;
    assert i + b * (w - 1 + pred) == len - 1 + b * (pred - 1);
    MulMonotone(1, pred - 1, b);
  }

  /** Every target index is at most i + B*w when pred_size <= 1. */
  lemma {:induction false} TimeIndexBound(len: nat, b: nat, w: nat, pred: nat, i: int, k: int)
    requires 0 <= i < len - b * w && 0 <= k < w && pred <= 1
    ensures 0 <= i + b * k < len && 0 <= i + b * (k + pred) < len
  {
    MulMonotone(k, w, b);
    MulMonotone(k + pred, w, b);
  }

  /**
    The `time` option raises IndexError exactly when there is a window,
    w > 0, pred_size > 1 and B > 0.
   */
  lemma TimeWindowsOk<T>(data: seq<T>, b: nat, w: nat, pred: nat)
    ensures Gather(data, TimeIndexWindows(|data|, b, w, pred)).Ok?
            <==> (RangeLen(|data| - b * w) == 0 || w == 0 || pred <= 1 || b == 0)
  {
    var ws := TimeIndexWindows(|data|, b, w, pred);
    if RangeLen(|data| - b * w) > 0 && w > 0 && pred > 1 && b > 0 {
      TimeLastIndex(|data|, b, w, pred);
      assert !WindowOk(|data|, ws[|ws| - 1]);
    } else {
      forall i | 0 <= i < |ws|
        ensures WindowOk(|data|, ws[i])
      {
        forall k | 0 <= k < w
          ensures IndexOk(|data|, ws[i].feature[k]) && IndexOk(|data|, ws[i].target[k])
        {
          if b > 0 && pred <= 1 {
            TimeIndexBound(|data|, b, w, pred, i, k);
          }
        }
      }
    }
  }

  /** Feature k of window i is data[i + B*k] and target k is data[i + B*(k + pred)]. */
  lemma TimeContents<T>(data: seq<T>, b: nat, w: nat, pred: nat, i: int, k: int)
    requires Gather(data, TimeIndexWindows(|data|, b, w, pred)).Ok?
    requires 0 <= i < RangeLen(|data| - b * w) && 0 <= k < w
    ensures var out := Gather(data, TimeIndexWindows(|data|, b, w, pred)).value;
            && |out| == RangeLen(|data| - b * w)
            && |out[i].feature| == w && |out[i].target| == w
            && 0 <= i + b * k < |data| && out[i].feature[k] == data[i + b * k]
            && 0 <= i + b * (k + pred) < |data| && out[i].target[k] == data[i + b * (k + pred)]
  {
    var ws := TimeIndexWindows(|data|, b, w, pred);
    GatherAt(data, ws, i, k);
    assert WindowOk(|data|, ws[i]);
    assert IndexOk(|data|, ws[i].feature[k]) && IndexOk(|data|, ws[i].target[k]);
  }

  /** With pred_size = 1 target k of a window is its feature k + 1. */
  lemma TimeShift<T>(data: seq<T>, b: nat, w: nat, i: int, k: int)
    requires 0 <= i < RangeLen(|data| - b * w) && 0 <= k && k + 1 < w
    ensures Gather(data, TimeIndexWindows(|data|, b, w, 1)).Ok?
    ensures var out := Gather(data, TimeIndexWindows(|data|, b, w, 1)).value;
            out[i].target[k] == out[i].feature[k + 1]
  {
    TimeWindowsOk(data, b, w, 1);
    TimeContents(data, b, w, 1, i, k);
    TimeContents(data, b, w, 1, i, k + 1);
  }

  // ---------------------------------------------------------------------
  // option == 'patch'
  // ---------------------------------------------------------------------

  /** Time steps per window of the `patch` option: range(window_size - pred_size + 1). */
  function PatchSteps(w: nat, pred: nat): nat
  {
    RangeLen(w - pred + 1)
  }

  /** The index windows of the `patch` option, one per vertex. */
  function PatchIndexWindows(len: nat, g: Extent, p: Extent, w: nat, pred: nat): seq<Window<int>>
    requires Volume(g) > 0 && Positive(p)
  {
    var vs := VertexList(len, g, p, w);
    seq(|vs|, n requires 0 <= n < |vs| =>
      Window(PatchIndices(g, p, PatchSteps(w, pred), vs[n], 0), PatchIndices(g, p, PatchSteps(w, pred), vs[n], pred)))
  }

  /** The two loops of the `patch` option (src/utils.py:44-61). */
  method PatchWindows<T>(data: seq<T>, g: Extent, p: Extent, w: nat, pred: nat) returns (r: Result<seq<Window<T>>, PyError>)
    requires Volume(g) > 0 && Positive(p)
    ensures r == Gather(data, PatchIndexWindows(|data|, g, p, w, pred))
  {
    var vertices := PatchVertices(|data|, g, p, w);
    var steps := RangeLen(w - pred + 1);
    var ws := seq(|vertices|, n requires 0 <= n < |vertices| =>
      Window(PatchIndices(g, p, steps, vertices[n], 0), PatchIndices(g, p, steps, vertices[n], pred)));
    assert steps == PatchSteps(w, pred);
    forall n | 0 <= n < |ws|
      ensures ws[n] == PatchIndexWindows(|data|, g, p, w, pred)[n]
    {
    }
    r := GatherLoop(data, ws);
  }

  /**
    There are StartCount * patches_per_block windows, and max(0, T - window_size)
    * patches_per_block when the array holds T whole blocks.
   */
  lemma PatchWindowCount(len: nat, g: Extent, p: Extent, w: nat, pred: nat)
    requires Volume(g) > 0 && Positive(p)
    ensures |PatchIndexWindows(len, g, p, w, pred)| == StartCount(len, g, w) * PatchesPerBlock(g, p)
    ensures len % Volume(g) == 0 ==>
              |PatchIndexWindows(len, g, p, w, pred)| == RangeLen(len / Volume(g) - w) * PatchesPerBlock(g, p)
  {
    VertexCount(len, g, p, w);
    if len % Volume(g) == 0 {
      SplitJoin(len, Volume(g));
      StartCountOfBlocks(len / Volume(g), g, w);
    }
  }

  /**
    Feature and target hold (w - pred + 1) * x1*x2*x3 indices each, and each
    target index is its feature index moved pred_size blocks forward.
   */
  lemma PatchWindowShape(len: nat, g: Extent, p: Extent, w: nat, pred: nat, n: int, m: int)
    requires Volume(g) > 0 && Positive(p)
    requires 0 <= n < |PatchIndexWindows(len, g, p, w, pred)|
    ensures var win := PatchIndexWindows(len, g, p, w, pred)[n];
            && |win.feature| == PatchSteps(w, pred) * Volume(p)
            && |win.target| == PatchSteps(w, pred) * Volume(p)
            && (0 <= m < |win.feature| ==> win.target[m] == win.feature[m] + pred * Volume(g))
  {
    var v := VertexList(len, g, p, w)[n];
    var steps := PatchSteps(w, pred);
    assert PatchIndexWindows(len, g, p, w, pred)[n] == Window(PatchIndices(g, p, steps, v, 0), PatchIndices(g, p, steps, v, pred));
    PatchIndicesShift(g, p, steps, v, pred, m);
  }

  /** The `patch` option never raises IndexError: all its windows gather. */
  lemma PatchWindowsOk<T>(data: seq<T>, g: Extent, p: Extent, w: nat, pred: nat)
    requires Volume(g) > 0 && Positive(p)
    ensures AllWindowsOk(|data|, PatchIndexWindows(|data|, g, p, w, pred))
    ensures Gather(data, PatchIndexWindows(|data|, g, p, w, pred)).Ok?
  {
    var ws := PatchIndexWindows(|data|, g, p, w, pred);
    forall n | 0 <= n < |ws|
      ensures WindowOk(|data|, ws[n])
    {
      forall m | 0 <= m < PatchSteps(w, pred) * Volume(p)
        ensures IndexOk(|data|, ws[n].feature[m]) && IndexOk(|data|, ws[n].target[m])
      {
        PatchIndexInArray(|data|, g, p, w, PatchSteps(w, pred), n, m, 0);
        PatchIndexInArray(|data|, g, p, w, PatchSteps(w, pred), n, m, pred);
      }
    }
  }

  /**
    Windows come time-major, then patch i, j, k: the window at position
    Encode(t, i, j, k) gathers the patch whose vertex is Vertex(t, i, j, k).
   */
  lemma PatchWindowOrder(len: nat, g: Extent, p: Extent, w: nat, pred: nat, t: nat, i: nat, j: nat, k: nat)
    requires Volume(g) > 0 && Positive(p)
    requires t < StartCount(len, g, w)
    requires i < Counts(g, p).e1 && j < Counts(g, p).e2 && k < Counts(g, p).e3
    ensures var c := Counts(g, p);
            var n := Encode(Digits(t, i, j, k), c.e1, c.e2, c.e3);
            var v := Vertex(g, p, t, i, j, k);
            && 0 <= n < |PatchIndexWindows(len, g, p, w, pred)|
            && PatchIndexWindows(len, g, p, w, pred)[n] == Window(PatchIndices(g, p, PatchSteps(w, pred), v, 0),
                                                                  PatchIndices(g, p, PatchSteps(w, pred), v, pred))
  {
    VertexOrder(len, g, p, w, t, i, j, k);
  }

  // ---------------------------------------------------------------------
  // The dispatch over the option
  // ---------------------------------------------------------------------

  /** The `option` argument. */
  datatype Mode = Space | Time | Patch | PatchOverlap

  /** The pair returned by `to_windowed`: the windows and patches_per_block (None for `space` and `time`). */
  datatype Windowed<T> = Windowed(windows: seq<Window<T>>, patchesPerBlock: Option<int>)

  function WithCount<T>(r: Result<seq<Window<T>>, PyError>, ppb: Option<int>): Result<Windowed<T>, PyError>
  {
    match r
    case Ok(ws) => Ok(Windowed(ws, ppb))
    case Err(e) => Err(e)
  }

  /**
    The `patch_overlap` option. The vertex loops divide by the block volume
    and by the strides; past them the windows are gathered by the index
    lists of the chosen formula: as written at src/utils.py:72 and :74, or
    corrected.
   */
  function OverlapResult<T>(data: seq<T>, g: Extent, pred: nat, w: nat, p: Extent, s: Extent, asWritten: bool)
    : Result<Windowed<T>, PyError>
  {
    if Volume(g) == 0 then Err(ZeroDivisionError)
    else if !Positive(s) then
      if StrideLoopsRaise(|data|, g, p, s, w) then Err(ZeroDivisionError)
      else Ok(Windowed([], Some(OverlapPatchesPerBlock(g, p))))
    else
      var ws := if asWritten then WindowsAsWritten(|data|, g, p, s, w, pred) else WindowsCorrected(|data|, g, p, s, w, pred);
      WithCount(Gather(data, ws), Some(OverlapPatchesPerBlock(g, p)))
  }

  /**
    What `to_windowed` returns or raises. `patch` raises ZeroDivisionError for
    an empty block (the number of start times divides by B) and for a zero
    patch extent (patches_per_block divides by it at the end even when the
    loops did not run); `patch_overlap` gathers by the index formula as
    written, so it ignores the stride and, on a non-cubic block, can read
    past its block or past the array.
   */
  function ToWindowedResult<T>(data: seq<T>, g: Extent, pred: nat, w: nat, p: Extent, mode: Mode, s: Extent)
    : Result<Windowed<T>, PyError>
  {
    match mode
    case Space => Ok(Windowed(SpaceWindowList(data, w, pred), None))
    case Time => WithCount(Gather(data, TimeIndexWindows(|data|, Volume(g), w, pred)), None)
    case Patch =>
      if Volume(g) == 0 || !Positive(p) then Err(ZeroDivisionError)
      else WithCount(Gather(data, PatchIndexWindows(|data|, g, p, w, pred)), Some(PatchesPerBlock(g, p)))
    case PatchOverlap => OverlapResult(data, g, pred, w, p, s, true)
  }

  /** `to_windowed` with the corrected `patch_overlap` formula; the other options are unchanged. */
  function ToWindowedCorrected<T>(data: seq<T>, g: Extent, pred: nat, w: nat, p: Extent, mode: Mode, s: Extent)
    : Result<Windowed<T>, PyError>
  {
    if mode == PatchOverlap then OverlapResult(data, g, pred, w, p, s, false)
    else ToWindowedResult(data, g, pred, w, p, mode, s)
  }

  /** `to_windowed` of src/utils.py:20-81. */
  method ToWindowed<T>(data: seq<T>, g: Extent, pred: nat, w: nat, p: Extent, mode: Mode, s: Extent)
    returns (r: Result<Windowed<T>, PyError>)
    ensures r == ToWindowedResult(data, g, pred, w, p, mode, s)
  {
    match mode
    case Space =>
      var out := SpaceWindows(data, w, pred);
      r := Ok(Windowed(out, None));
    case Time =>
      var out := TimeWindows(data, g, w, pred);
      r := WithCount(out, None);
    case Patch =>
      if Volume(g) == 0 || !Positive(p) {
        return Err(ZeroDivisionError);
      }
      var out := PatchWindows(data, g, p, w, pred);
      r := WithCount(out, Some(PatchesPerBlock(g, p)));
    case PatchOverlap =>
      if Volume(g) == 0 {
        return Err(ZeroDivisionError);
      }
      if !Positive(s) {
        if StrideLoopsRaise(|data|, g, p, s, w) {
          return Err(ZeroDivisionError);
        }
        return Ok(Windowed([], Some(OverlapPatchesPerBlock(g, p))));
      }
      var out := OverlapWindowsAsWritten(data, g, p, s, w, pred);
      r := WithCount(out, Some(OverlapPatchesPerBlock(g, p)));
  }

  /**
    When each option succeeds: `space` always; `time` unless pred_size > 1
    pushes a target past the end; `patch` exactly when the block and the
    patch are non-empty; `patch_overlap` as written whenever pred_size <= 1
    on a block with nx1 == nx3 at unit stride (the configuration the split
    uses), and with the corrected formula whenever pred_size <= 1 and the
    strides are positive.
   */
  lemma ToWindowedOutcome<T>(data: seq<T>, g: Extent, pred: nat, w: nat, p: Extent, mode: Mode, s: Extent)
    ensures var r := ToWindowedResult(data, g, pred, w, p, mode, s);
            && (mode == Space ==> r.Ok? && r.value.patchesPerBlock == None)
            && (mode == Time ==> (r.Ok? <==> (RangeLen(|data| - Volume(g) * w) == 0 || w == 0 || pred <= 1 || Volume(g) == 0)))
            && (mode == Patch ==> (r.Ok? <==> Volume(g) > 0 && Positive(p)))
            && (mode == Patch && r.Ok? ==> r.value.patchesPerBlock == Some(PatchesPerBlock(g, p)))
            && (mode == PatchOverlap && Volume(g) > 0 && g.e1 == g.e3 && s == Extent(1, 1, 1) && pred <= 1 ==>
                  r.Ok? && r.value.patchesPerBlock == Some(OverlapPatchesPerBlock(g, p)))
            && (mode == PatchOverlap && Volume(g) == 0 ==> r == Err(ZeroDivisionError))
    ensures var c := ToWindowedCorrected(data, g, pred, w, p, mode, s);
            && (mode != PatchOverlap ==> c == ToWindowedResult(data, g, pred, w, p, mode, s))
            && (mode == PatchOverlap && Volume(g) > 0 && Positive(s) && pred <= 1 ==>
                  c.Ok? && c.value.patchesPerBlock == Some(OverlapPatchesPerBlock(g, p)))
  {
    match mode
    case Space =>
    case Time =>
      TimeWindowsOk(data, Volume(g), w, pred);
    case Patch =>
      if Volume(g) > 0 && Positive(p) {
        PatchWindowsOk(data, g, p, w, pred);
      }
    case PatchOverlap =>
      if Volume(g) > 0 && Positive(s) && pred <= 1 {
        CorrectedWindowsOk(data, g, p, s, w, pred);
        if g.e1 == g.e3 && s == Extent(1, 1, 1) {
          AsWrittenAgrees(|data|, g, p, w, pred);
        }
      }
  }

  /**
    On six values, block (1, 1, 2), patch (1, 1, 2), unit stride and
    w = pred_size = 1, the option as written raises IndexError: the target of
    the second vertex gathers index 6. The corrected formula succeeds.
   */
  lemma OverlapAsWrittenRaises<T>(data: seq<T>)
    requires |data| == 6
    ensures ToWindowedResult(data, Extent(1, 1, 2), 1, 1, Extent(1, 1, 2), PatchOverlap, Extent(1, 1, 1)) == Err(IndexError)
    ensures ToWindowedCorrected(data, Extent(1, 1, 2), 1, 1, Extent(1, 1, 2), PatchOverlap, Extent(1, 1, 1)).Ok?
  {
    var g, p, s := Extent(1, 1, 2), Extent(1, 1, 2), Extent(1, 1, 1);
    var ws := WindowsAsWritten(6, g, p, s, 1, 1);
    NonCubicTarget();
    assert ws[1].target[1] == 6 && !IndexOk(6, ws[1].target[1]);
    assert !AllWindowsOk(6, ws);
    CorrectedWindowsOk(data, g, p, s, 1, 1);
  }
}
