/**
  The `patch_overlap` option of `to_windowed` in src/utils.py (lines 63-79):
  patches slide through each block with a stride, and every window covers the
  full window_size time steps.

  The index formula as written addresses the block with x1 fastest in the
  vertex (`k*nx1*nx2 + j*nx1 + i`) but with the multipliers `nx2*nx3` and
  `nx3` in the cell offset, and it never multiplies the patch position by the
  stride. Both halves agree with an x1-fastest block only on grids with
  nx1 == nx3 and with unit stride. This module models the formula as written,
  exhibits where it goes wrong, and gives the corrected formula (x1 fastest
  throughout, patch positions scaled by the stride) with its properties.
 */
module Overlap {
  import opened Wrappers
  import opened MixedRadix
  import opened LoopNest
  import opened Indexing
  import opened PatchIndex

  /** Patch positions along one axis, math.floor((n - x) / s + 1), as a range length. */
  function AxisCount(n: nat, x: nat, s: nat): nat
    requires s > 0
  {
    RangeLen((n - x) / s + 1)
  }

  /** Patch positions along the three axes. */
  function OverlapCounts(g: Extent, p: Extent, s: Extent): Extent
    requires Positive(s)
  {
    Extent(AxisCount(g.e1, p.e1, s.e1), AxisCount(g.e2, p.e2, s.e2), AxisCount(g.e3, p.e3, s.e3))
  }

  /** patches_per_block of the option, (nx1-x1+1)*(nx2-x2+1)*(nx3-x3+1). */
  function OverlapPatchesPerBlock(g: Extent, p: Extent): int
  {
    (g.e1 - p.e1 + 1) * (g.e2 - p.e2 + 1) * (g.e3 - p.e3 + 1)
  }

  /**
    The windows of a vertex list: cell (a, b, c) of the patch, `time` steps
    on, is at vertex + offset(time, a, b, c); the comprehension runs over
    time < w, a < x1, b < x2, c < x3 with c innermost.
   */
  function CellIndices(p: Extent, w: nat, v: int, shift: nat, offset: Digits -> int): seq<int>
  {
    if Positive(p) then
      seq(w * Volume(p), m requires 0 <= m =>
        var e := Decode(m, p.e1, p.e2, p.e3);
        v + offset(Digits(e.d0 + shift, e.d1, e.d2, e.d3)))
    else
      []
  }

  function WindowsOf(vs: seq<int>, p: Extent, w: nat, pred: nat, offset: Digits -> int): seq<Window<int>>
  {
    seq(|vs|, n requires 0 <= n < |vs| => Window(CellIndices(p, w, vs[n], 0, offset), CellIndices(p, w, vs[n], pred, offset)))
  }

  /**
    The vertex loops raise ZeroDivisionError on a zero stride: the bound with
    stride_z is evaluated once per start time, the one with stride_y once per
    k and the one with stride_x once per j.
   */
  predicate StrideLoopsRaise(len: nat, g: Extent, p: Extent, s: Extent, w: nat)
    requires Volume(g) > 0
  {
    && StartCount(len, g, w) > 0
    && (s.e3 == 0 || (AxisCount(g.e3, p.e3, s.e3) > 0 && (s.e2 == 0 || (AxisCount(g.e2, p.e2, s.e2) > 0 && s.e1 == 0))))
  }

  // ---------------------------------------------------------------------
  // As written
  // ---------------------------------------------------------------------

  /** The vertex of loop iteration (t, k, j, i), i innermost, as written at src/utils.py:72. */
  function VertexAsWritten(g: Extent): Digits -> int
  {
    (d: Digits) => d.d0 * g.e1 * g.e2 * g.e3 + d.d1 * g.e1 * g.e2 + d.d2 * g.e1 + d.d3
  }

  /** The cell offset as written at src/utils.py:74: (time, a, b, c) to time*B + c*nx2*nx3 + b*nx3 + a. */
  function OffsetAsWritten(g: Extent): Digits -> int
  {
    (e: Digits) => e.d0 * g.e1 * g.e2 * g.e3 + e.d3 * (g.e2 * g.e3) + e.d2 * g.e3 + e.d1
  }

  function VerticesAsWritten(len: nat, g: Extent, p: Extent, s: Extent, w: nat): seq<int>
    requires Volume(g) > 0 && Positive(s)
  {
    var c := OverlapCounts(g, p, s);
    NestList(StartCount(len, g, w), c.e3, c.e2, c.e1, VertexAsWritten(g))
  }

  function WindowsAsWritten(len: nat, g: Extent, p: Extent, s: Extent, w: nat, pred: nat): seq<Window<int>>
    requires Volume(g) > 0 && Positive(s)
  {
    WindowsOf(VerticesAsWritten(len, g, p, s, w), p, w, pred, OffsetAsWritten(g))
  }

  /** The two loops of the option as written (src/utils.py:63-79). */
  method OverlapWindowsAsWritten<T>(data: seq<T>, g: Extent, p: Extent, s: Extent, w: nat, pred: nat)
    returns (r: Result<seq<Window<T>>, PyError>)
    requires Volume(g) > 0 && Positive(s)
    ensures r == Gather(data, WindowsAsWritten(|data|, g, p, s, w, pred))
  {
    var c := OverlapCounts(g, p, s);
    var vertices := Loops(StartCount(|data|, g, w), c.e3, c.e2, c.e1, VertexAsWritten(g));
    r := GatherLoop(data, WindowsOf(vertices, p, w, pred, OffsetAsWritten(g)));
  }

  // ---------------------------------------------------------------------
  // Corrected
  // ---------------------------------------------------------------------

  /** The vertex of iteration (t, k, j, i): patch positions scaled by the stride, x1 fastest. */
  function VertexCorrected(g: Extent, s: Extent): Digits -> int
  {
    (d: Digits) => d.d0 * g.e1 * g.e2 * g.e3 + d.d1 * s.e3 * (g.e1 * g.e2) + d.d2 * s.e2 * g.e1 + d.d3 * s.e1
  }

  /** The cell offset with the x1-fastest multipliers: time*B + c*nx1*nx2 + b*nx1 + a. */
  function OffsetCorrected(g: Extent): Digits -> int
  {
    (e: Digits) => e.d0 * g.e1 * g.e2 * g.e3 + e.d3 * (g.e1 * g.e2) + e.d2 * g.e1 + e.d1
  }

  function VerticesCorrected(len: nat, g: Extent, p: Extent, s: Extent, w: nat): seq<int>
    requires Volume(g) > 0 && Positive(s)
  {
    var c := OverlapCounts(g, p, s);
    NestList(StartCount(len, g, w), c.e3, c.e2, c.e1, VertexCorrected(g, s))
  }

  function WindowsCorrected(len: nat, g: Extent, p: Extent, s: Extent, w: nat, pred: nat): seq<Window<int>>
    requires Volume(g) > 0 && Positive(s)
  {
    WindowsOf(VerticesCorrected(len, g, p, s, w), p, w, pred, OffsetCorrected(g))
  }

  /** The two loops of the option with the corrected index formula. */
  method OverlapWindows<T>(data: seq<T>, g: Extent, p: Extent, s: Extent, w: nat, pred: nat)
    returns (r: Result<seq<Window<T>>, PyError>)
    requires Volume(g) > 0 && Positive(s)
    ensures r == Gather(data, WindowsCorrected(|data|, g, p, s, w, pred))
  {
    var c := OverlapCounts(g, p, s);
    var vertices := Loops(StartCount(|data|, g, w), c.e3, c.e2, c.e1, VertexCorrected(g, s));
    r := GatherLoop(data, WindowsOf(vertices, p, w, pred, OffsetCorrected(g)));
  }

  // ---------------------------------------------------------------------
  // Counts and shapes
  // ---------------------------------------------------------------------

  /**
    Per start time there are AxisCount1 * AxisCount2 * AxisCount3 windows,
    for either formula (the number of start times is StartCountOfBlocks).
   */
  lemma OverlapWindowCount(len: nat, g: Extent, p: Extent, s: Extent, w: nat, pred: nat)
    requires Volume(g) > 0 && Positive(s)
    ensures var c := OverlapCounts(g, p, s);
            && |WindowsAsWritten(len, g, p, s, w, pred)| == StartCount(len, g, w) * c.e3 * c.e2 * c.e1
            && |WindowsCorrected(len, g, p, s, w, pred)| == StartCount(len, g, w) * c.e3 * c.e2 * c.e1
  {
    var c := OverlapCounts(g, p, s);
    NestLength(StartCount(len, g, w), c.e3, c.e2, c.e1, VertexAsWritten(g));
    NestLength(StartCount(len, g, w), c.e3, c.e2, c.e1, VertexCorrected(g, s));
  }

  /** With stride (1, 1, 1) and patches no larger than the block, patches_per_block counts the vertices of one start time. */
  lemma UnitStrideCount(g: Extent, p: Extent)
    requires p.e1 <= g.e1 && p.e2 <= g.e2 && p.e3 <= g.e3
    ensures var c := OverlapCounts(g, p, Extent(1, 1, 1));
            c.e3 * c.e2 * c.e1 == OverlapPatchesPerBlock(g, p)
  {
  }

  /** With a stride of 2 along x1, a 4x1x1 block holds 2 patches of length 2 per start time, while patches_per_block says 3. */
  lemma StrideCountMismatch()
    ensures var c := OverlapCounts(Extent(4, 1, 1), Extent(2, 1, 1), Extent(2, 1, 1));
            c.e3 * c.e2 * c.e1 == 2 && OverlapPatchesPerBlock(Extent(4, 1, 1), Extent(2, 1, 1)) == 3
  {
  }

  /**
    Features and targets hold w * x1*x2*x3 indices (the full window), and each
    target index is its feature index moved pred_size blocks forward, for
    either formula.
   */
  lemma OverlapWindowShape(vs: seq<int>, g: Extent, p: Extent, w: nat, pred: nat, n: int, m: int)
    requires Positive(p) && 0 <= n < |vs|
    ensures var a := WindowsOf(vs, p, w, pred, OffsetAsWritten(g))[n];
            && |a.feature| == w * Volume(p) && |a.target| == w * Volume(p)
            && (0 <= m < w * Volume(p) ==> a.target[m] == a.feature[m] + pred * Volume(g))
    ensures var b := WindowsOf(vs, p, w, pred, OffsetCorrected(g))[n];
            && |b.feature| == w * Volume(p) && |b.target| == w * Volume(p)
            && (0 <= m < w * Volume(p) ==> b.target[m] == b.feature[m] + pred * Volume(g))
  {
  }

  // ---------------------------------------------------------------------
  // The corrected formula stays inside the block
  // ---------------------------------------------------------------------

  /** A patch position k with cell c inside the patch stays inside the block along that axis. */
  lemma {:induction false} OverlapCellBound(k: int, c: int, x: nat, n: nat, s: nat)
    requires s > 0 && 0 <= k < AxisCount(n, x, s) && 0 <= c < x
    ensures 0 <= k * s + c < n
  {
    var q := (n - x) / s;
    assert k <= q;
    SplitJoin(n - x, s);
    MulMonotone(k, q, s);
    MulMonotone(0, k, s);
  }

  /** Vertex plus offset under the corrected formula is the x1-fastest position of the cell. */
  lemma CorrectedAsDigits(g: Extent, s: Extent, d: Digits, e: Digits)
    ensures VertexCorrected(g, s)(d) + OffsetCorrected(g)(e)
         == Encode(Digits(d.d0 + e.d0, d.d1 * s.e3 + e.d3, d.d2 * s.e2 + e.d2, d.d3 * s.e1 + e.d1), g.e3, g.e2, g.e1)
  {
    var enc := Encode(Digits(d.d0 + e.d0, d.d1 * s.e3 + e.d3, d.d2 * s.e2 + e.d2, d.d3 * s.e1 + e.d1), g.e3, g.e2, g.e1);
    assert enc == (((d.d0 + e.d0) * g.e3 + (d.d1 * s.e3 + e.d3)) * g.e2 + (d.d2 * s.e2 + e.d2)) * g.e1 + (d.d3 * s.e1 + e.d1);
    CorrectedArith(d.d0, d.d1, d.d2, d.d3, e.d0, e.d1, e.d2, e.d3, s.e1, s.e2, s.e3, g.e1, g.e2, g.e3);
  }

  /** The arithmetic of CorrectedAsDigits over plain integers. */
  lemma CorrectedArith(d0: int, d1: int, d2: int, d3: int, e0: int, e1: int, e2: int, e3: int,
                       s1: int, s2: int, s3: int, n1: int, n2: int, n3: int)
    ensures (((d0 + e0) * n3 + (d1 * s3 + e3)) * n2 + (d2 * s2 + e2)) * n1 + (d3 * s1 + e1)
         == (d0 * n1 * n2 * n3 + d1 * s3 * (n1 * n2) + d2 * s2 * n1 + d3 * s1)
            + (e0 * n1 * n2 * n3 + e3 * (n1 * n2) + e2 * n1 + e1)
  {
    ExpandFour(d0 + e0, d1 * s3 + e3, d2 * s2 + e2, d3 * s1 + e1, n1, n2, n3);
    var vol := n1 * n2 * n3;
    Distribute(d0, e0, vol);
    Distribute(d1 * s3, e3, n1 * n2);
    Distribute(d2 * s2, e2, n1);
    assert d0 * n1 * n2 * n3 == d0 * vol && e0 * n1 * n2 * n3 == e0 * vol;
  }


  /** Cell e of the patch at vertex digits d, e.d0 steps on, lies in block d.d0 + e.d0. */
  lemma {:induction false} CorrectedCellInBlock(g: Extent, p: Extent, s: Extent, d: Digits, e: Digits)
    requires Positive(g) && Positive(s) && Positive(p)
    requires 0 <= d.d1 < OverlapCounts(g, p, s).e3 && 0 <= d.d2 < OverlapCounts(g, p, s).e2 && 0 <= d.d3 < OverlapCounts(g, p, s).e1
    requires 0 <= e.d1 < p.e1 && 0 <= e.d2 < p.e2 && 0 <= e.d3 < p.e3
    ensures (d.d0 + e.d0) * Volume(g) <= VertexCorrected(g, s)(d) + OffsetCorrected(g)(e) < (d.d0 + e.d0 + 1) * Volume(g)
  {
    CorrectedAsDigits(g, s, d, e);
    OverlapCellBound(d.d1, e.d3, p.e3, g.e3, s.e3);
    OverlapCellBound(d.d2, e.d2, p.e2, g.e2, s.e2);
    OverlapCellBound(d.d3, e.d1, p.e1, g.e1, s.e1);
    var cell := Digits(d.d0 + e.d0, d.d1 * s.e3 + e.d3, d.d2 * s.e2 + e.d2, d.d3 * s.e1 + e.d1);
    EncodeBlock(cell, g.e3, g.e2, g.e1);
    ReversedVolume(g);
  }

  /** The block volume with the extents multiplied in the reverse order. */
  lemma ReversedVolume(g: Extent)
    ensures g.e3 * g.e2 * g.e1 == Volume(g)
  {
    assert g.e3 * g.e2 * g.e1 == g.e1 * (g.e2 * g.e3);
  }

  /**
    Under the corrected formula, the index at position m of window n lies in
    block t + time + shift, where t is the window's start time and time the
    step of position m.
   */
  lemma {:induction false} CorrectedInBlock(len: nat, g: Extent, p: Extent, s: Extent, w: nat, n: int, m: int, shift: nat)
    requires Volume(g) > 0 && Positive(s) && Positive(p)
    requires 0 <= n < |VerticesCorrected(len, g, p, s, w)| && 0 <= m < w * Volume(p)
    ensures var c := OverlapCounts(g, p, s);
            var d := Decode(n, c.e3, c.e2, c.e1);
            var e := Decode(m, p.e1, p.e2, p.e3);
            var blk := d.d0 + e.d0 + shift;
            var x := VerticesCorrected(len, g, p, s, w)[n] + OffsetCorrected(g)(Digits(e.d0 + shift, e.d1, e.d2, e.d3));
            && 0 <= d.d0 < StartCount(len, g, w) && 0 <= e.d0 < w
            && blk * Volume(g) <= x < (blk + 1) * Volume(g)
  {
    var c := OverlapCounts(g, p, s);
    NestDigits(StartCount(len, g, w), c.e3, c.e2, c.e1, VertexCorrected(g, s), n);
    var d := Decode(n, c.e3, c.e2, c.e1);
    var e := Decode(m, p.e1, p.e2, p.e3);
    DecodeBound(m, w, p.e1, p.e2, p.e3);
    assert Positive(g);
    CorrectedCellInBlock(g, p, s, d, Digits(e.d0 + shift, e.d1, e.d2, e.d3));
  }

  /** Under the corrected formula, every index is inside the array when pred_size <= 1. */
  lemma {:induction false} CorrectedIndexOk(len: nat, g: Extent, p: Extent, s: Extent, w: nat, pred: nat, n: int, m: int, shift: nat)
    requires Volume(g) > 0 && Positive(s) && Positive(p) && pred <= 1 && shift <= pred
    requires 0 <= n < |VerticesCorrected(len, g, p, s, w)| && 0 <= m < w * Volume(p)
    ensures var e := Decode(m, p.e1, p.e2, p.e3);
            0 <= VerticesCorrected(len, g, p, s, w)[n] + OffsetCorrected(g)(Digits(e.d0 + shift, e.d1, e.d2, e.d3)) < len
  {
    var c := OverlapCounts(g, p, s);
    var d := Decode(n, c.e3, c.e2, c.e1);
    var e := Decode(m, p.e1, p.e2, p.e3);
    CorrectedInBlock(len, g, p, s, w, n, m, shift);
    var blk := d.d0 + e.d0 + shift;
    StartCountBound(len, g, w, d.d0);
    MulMonotone(0, blk, Volume(g));
    MulMonotone(blk + 1, d.d0 + w + 1, Volume(g));
  }

  /** Every cell of the patch at vertex n, shifted by 0 or pred_size <= 1 in time, lies inside the data. */
  lemma CorrectedCellsOk(len: nat, g: Extent, p: Extent, s: Extent, w: nat, pred: nat, n: int, shift: nat)
    requires Volume(g) > 0 && Positive(s) && Positive(p) && pred <= 1 && shift <= pred
    requires 0 <= n < |VerticesCorrected(len, g, p, s, w)|
    ensures AllIndicesOk(len, CellIndices(p, w, VerticesCorrected(len, g, p, s, w)[n], shift, OffsetCorrected(g)))
  {
    var cells := CellIndices(p, w, VerticesCorrected(len, g, p, s, w)[n], shift, OffsetCorrected(g));
    forall m | 0 <= m < |cells|
      ensures IndexOk(len, cells[m])
    {
      CorrectedIndexOk(len, g, p, s, w, pred, n, m, shift);
    }
  }

  /** With pred_size <= 1 the corrected option never raises IndexError. */
  lemma CorrectedWindowsOk<T>(data: seq<T>, g: Extent, p: Extent, s: Extent, w: nat, pred: nat)
    requires Volume(g) > 0 && Positive(s) && pred <= 1
    ensures AllWindowsOk(|data|, WindowsCorrected(|data|, g, p, s, w, pred))
    ensures Gather(data, WindowsCorrected(|data|, g, p, s, w, pred)).Ok?
  {
    var vs := VerticesCorrected(|data|, g, p, s, w);
    var ws := WindowsCorrected(|data|, g, p, s, w, pred);
    forall n | 0 <= n < |ws|
      ensures WindowOk(|data|, ws[n])
    {
      if Positive(p) {
        CorrectedCellsOk(|data|, g, p, s, w, pred, n, 0);
        CorrectedCellsOk(|data|, g, p, s, w, pred, n, pred);
      }
    }
  }

  // ---------------------------------------------------------------------
  // Where the formula as written goes wrong, and where it does not
  // ---------------------------------------------------------------------

  /** With stride (1, 1, 1) the vertices as written are the corrected ones. */
  lemma UnitStrideVertices(len: nat, g: Extent, p: Extent, w: nat)
    requires Volume(g) > 0
    ensures VerticesAsWritten(len, g, p, Extent(1, 1, 1), w) == VerticesCorrected(len, g, p, Extent(1, 1, 1), w)
  {
    var s := Extent(1, 1, 1);
    var c := OverlapCounts(g, p, s);
    forall d: Digits
      ensures VertexAsWritten(g)(d) == VertexCorrected(g, s)(d)
    {
    }
    NestListExt(StartCount(len, g, w), c.e3, c.e2, c.e1, VertexAsWritten(g), VertexCorrected(g, s));
  }

  /** With nx1 == nx3 the cell offsets as written are the corrected ones. */
  lemma CubicOffsets(g: Extent, p: Extent, w: nat, v: int, shift: nat)
    requires g.e1 == g.e3
    ensures CellIndices(p, w, v, shift, OffsetAsWritten(g)) == CellIndices(p, w, v, shift, OffsetCorrected(g))
  {
    forall e: Digits
      ensures OffsetAsWritten(g)(e) == OffsetCorrected(g)(e)
    {
      assert g.e2 * g.e3 == g.e1 * g.e2;
    }
  }

  /** With nx1 == nx3 and stride (1, 1, 1) the formula as written is the corrected one. */
  lemma AsWrittenAgrees(len: nat, g: Extent, p: Extent, w: nat, pred: nat)
    requires Volume(g) > 0 && g.e1 == g.e3
    ensures WindowsAsWritten(len, g, p, Extent(1, 1, 1), w, pred) == WindowsCorrected(len, g, p, Extent(1, 1, 1), w, pred)
  {
    var s := Extent(1, 1, 1);
    UnitStrideVertices(len, g, p, w);
    var vs := VerticesCorrected(len, g, p, s, w);
    var wa, wc := WindowsOf(vs, p, w, pred, OffsetAsWritten(g)), WindowsOf(vs, p, w, pred, OffsetCorrected(g));
    forall n | 0 <= n < |vs|
      ensures wa[n] == wc[n]
    {
      CubicOffsets(g, p, w, vs[n], 0);
      CubicOffsets(g, p, w, vs[n], pred);
    }
  }

  /**
    On the non-cubic block (1, 1, 2) with patch (1, 1, 2), three blocks and
    w = pred_size = 1, the first feature as written gathers flat indices 0
    and 2; index 2 belongs to the next block. The corrected formula gathers
    0 and 1, the whole first block.
   */
  lemma NonCubicSpill()
    ensures WindowsAsWritten(6, Extent(1, 1, 2), Extent(1, 1, 2), Extent(1, 1, 1), 1, 1)[0].feature == [0, 2]
    ensures WindowsCorrected(6, Extent(1, 1, 2), Extent(1, 1, 2), Extent(1, 1, 1), 1, 1)[0].feature == [0, 1]
  {
    var g, p, s := Extent(1, 1, 2), Extent(1, 1, 2), Extent(1, 1, 1);
    assert StartCount(6, g, 1) == 2;
    assert OverlapCounts(g, p, s) == Extent(1, 1, 1);
    NestAt(2, 1, 1, 1, VertexAsWritten(g), Digits(0, 0, 0, 0));
    NestAt(2, 1, 1, 1, VertexCorrected(g, s), Digits(0, 0, 0, 0));
    assert Decode(1, 1, 1, 2) == Digits(0, 0, 0, 1);
  }

  /**
    On the same configuration with six values (two start times), the target
    of the second vertex gathers indices 4 and 6, and 6 is past the array.
   */
  lemma NonCubicTarget()
    ensures |WindowsAsWritten(6, Extent(1, 1, 2), Extent(1, 1, 2), Extent(1, 1, 1), 1, 1)| == 2
    ensures WindowsAsWritten(6, Extent(1, 1, 2), Extent(1, 1, 2), Extent(1, 1, 1), 1, 1)[1].target == [4, 6]
  {
    var g, p, s := Extent(1, 1, 2), Extent(1, 1, 2), Extent(1, 1, 1);
    assert StartCount(6, g, 1) == 2;
    assert OverlapCounts(g, p, s) == Extent(1, 1, 1);
    NestLength(2, 1, 1, 1, VertexAsWritten(g));
    NestAt(2, 1, 1, 1, VertexAsWritten(g), Digits(1, 0, 0, 0));
    assert Decode(0, 1, 1, 2) == Digits(0, 0, 0, 0);
    assert Decode(1, 1, 1, 2) == Digits(0, 0, 0, 1);
  }

  /**
    With stride 2 along x1 on the block (4, 1, 1) and patch (2, 1, 1), two
    blocks and w = 1, the vertices as written are 0 and 1, so the patches
    {0, 1} and {1, 2} overlap and cell 3 is never gathered; the corrected
    vertices are 0 and 2, giving {0, 1} and {2, 3}.
   */
  lemma StrideIgnored()
    ensures VerticesAsWritten(8, Extent(4, 1, 1), Extent(2, 1, 1), Extent(2, 1, 1), 1) == [0, 1]
    ensures VerticesCorrected(8, Extent(4, 1, 1), Extent(2, 1, 1), Extent(2, 1, 1), 1) == [0, 2]
    ensures WindowsAsWritten(8, Extent(4, 1, 1), Extent(2, 1, 1), Extent(2, 1, 1), 1, 1)[1].feature == [1, 2]
    ensures WindowsCorrected(8, Extent(4, 1, 1), Extent(2, 1, 1), Extent(2, 1, 1), 1, 1)[1].feature == [2, 3]
  {
    var g, p, s := Extent(4, 1, 1), Extent(2, 1, 1), Extent(2, 1, 1);
    StrideVertices();
    assert Decode(1, 2, 1, 1) == Digits(0, 1, 0, 0);
    assert Decode(0, 2, 1, 1) == Digits(0, 0, 0, 0);
    assert CellIndices(p, 1, 1, 0, OffsetAsWritten(g)) == [1, 2];
    assert CellIndices(p, 1, 2, 0, OffsetCorrected(g)) == [2, 3];
  }

  lemma StrideVertices()
    ensures VerticesAsWritten(8, Extent(4, 1, 1), Extent(2, 1, 1), Extent(2, 1, 1), 1) == [0, 1]
    ensures VerticesCorrected(8, Extent(4, 1, 1), Extent(2, 1, 1), Extent(2, 1, 1), 1) == [0, 2]
  {
    StrideVerticesAt(8, Extent(4, 1, 1), Extent(2, 1, 1), Extent(2, 1, 1), 1);
  }

  lemma StrideVerticesAt(len: nat, g: Extent, p: Extent, s: Extent, w: nat)
    requires len == 8 && g == Extent(4, 1, 1) && p == Extent(2, 1, 1) && s == Extent(2, 1, 1) && w == 1
    ensures VerticesAsWritten(len, g, p, s, w) == [0, 1]
    ensures VerticesCorrected(len, g, p, s, w) == [0, 2]
  {
    assert VerticesAsWritten(len, g, p, s, w) == NestList(1, 1, 1, 2, VertexAsWritten(g)) by {
      StrideShape(len, g, p, s, w);
    }
    assert VerticesCorrected(len, g, p, s, w) == NestList(1, 1, 1, 2, VertexCorrected(g, s)) by {
      StrideShape(len, g, p, s, w);
    }
    StrideAsWrittenList(g);
    StrideCorrectedList(g, s);
  }

  lemma StrideAsWrittenList(g: Extent)
    requires g == Extent(4, 1, 1)
    ensures NestList(1, 1, 1, 2, VertexAsWritten(g)) == [0, 1]
  {
    var f := VertexAsWritten(g);
    var va := NestList(1, 1, 1, 2, f);
    assert |va| == 2;
    assert va[0] == f(Decode(0, 1, 1, 2)) && va[1] == f(Decode(1, 1, 1, 2));
    assert Decode(0, 1, 1, 2) == Digits(0, 0, 0, 0) && Decode(1, 1, 1, 2) == Digits(0, 0, 0, 1);
    assert f(Digits(0, 0, 0, 0)) == 0 && f(Digits(0, 0, 0, 1)) == 1;
  }

  lemma StrideCorrectedList(g: Extent, s: Extent)
    requires g == Extent(4, 1, 1) && s == Extent(2, 1, 1)
    ensures NestList(1, 1, 1, 2, VertexCorrected(g, s)) == [0, 2]
  {
    var h := VertexCorrected(g, s);
    var vc := NestList(1, 1, 1, 2, h);
    assert |vc| == 2;
    assert vc[0] == h(Decode(0, 1, 1, 2)) && vc[1] == h(Decode(1, 1, 1, 2));
    assert Decode(0, 1, 1, 2) == Digits(0, 0, 0, 0) && Decode(1, 1, 1, 2) == Digits(0, 0, 0, 1);
    assert h(Digits(0, 0, 0, 0)) == 0 && h(Digits(0, 0, 0, 1)) == 2;
  }

  lemma StrideShape(len: nat, g: Extent, p: Extent, s: Extent, w: nat)
    requires len == 8 && g == Extent(4, 1, 1) && p == Extent(2, 1, 1) && s == Extent(2, 1, 1) && w == 1
    ensures Volume(g) > 0 && Positive(s)
    ensures StartCount(len, g, w) == 1 && OverlapCounts(g, p, s) == Extent(2, 1, 1)
  {
  }
}
