/**
  The older patch-only pipeline of notebooks/tl-turb-16/utils.py.

  Its `to_windowed` (lines 42-65) lists the vertices of the disjoint patches
  exactly as the `patch` option of src/utils.py does, but every window spans
  the full window_size time steps, and no patches_per_block is returned.
  Its `train_test_val_split` (lines 68-89) cuts the window list at
  proportions of its length, window by window. `get_data_loaders` (lines
  124-144) windows and splits the data, the coordinates and the timestamps
  with the same parameters; since the index windows depend only on the
  length of the array, the three come out position-aligned.
 */
module TlWindowing {
  import opened Wrappers
  import opened MixedRadix
  import opened Indexing
  import opened PatchIndex
  import opened BlockSplit

  /** The index windows: one per vertex, window_size steps of the patch, the target pred_size blocks later. */
  function TlIndexWindows(len: nat, g: Extent, p: Extent, w: nat, pred: nat): seq<Window<int>>
    requires Volume(g) > 0 && Positive(p)
  {
    var vs := VertexList(len, g, p, w);
    seq(|vs|, n requires 0 <= n < |vs| => Window(PatchIndices(g, p, w, vs[n], 0), PatchIndices(g, p, w, vs[n], pred)))
  }

  /**
    The index windows `to_windowed` would gather for an array of length len,
    or the exception it raises before gathering: dividing by a zero block
    volume, or a zero patch extent reached by the vertex loops. A zero patch
    extent the loops never reach leaves no vertices and no windows.
   */
  function TlIndexResult(len: nat, g: Extent, p: Extent, w: nat, pred: nat): Result<seq<Window<int>>, PyError>
  {
    if Volume(g) == 0 then Err(ZeroDivisionError)
    else if !Positive(p) then (if VertexLoopsRaise(len, g, p, w) then Err(ZeroDivisionError) else Ok([]))
    else Ok(TlIndexWindows(len, g, p, w, pred))
  }

  /** What `to_windowed` returns or raises. */
  function TlWindowedResult<T>(data: seq<T>, g: Extent, pred: nat, w: nat, p: Extent): Result<seq<Window<T>>, PyError>
  {
    match TlIndexResult(|data|, g, p, w, pred)
    case Err(e) => Err(e)
    case Ok(ws) => Gather(data, ws)
  }

  /** `to_windowed` of notebooks/tl-turb-16/utils.py:42-65: the vertex loops, then one gather per vertex. */
  method TlToWindowed<T>(data: seq<T>, g: Extent, pred: nat, w: nat, p: Extent) returns (r: Result<seq<Window<T>>, PyError>)
    ensures r == TlWindowedResult(data, g, pred, w, p)
  {
    if g.e1 * g.e2 * g.e3 == 0 {
      return Err(ZeroDivisionError);
    }
    if !Positive(p) {
      if VertexLoopsRaise(|data|, g, p, w) {
        return Err(ZeroDivisionError);
      }
      assert AllWindowsOk(|data|, []);
      assert Gather(data, []).value == [];
      return Ok([]);
    }
    var vertices := PatchVertices(|data|, g, p, w);
    var ws := seq(|vertices|, n requires 0 <= n < |vertices| =>
      Window(PatchIndices(g, p, w, vertices[n], 0), PatchIndices(g, p, w, vertices[n], pred)));
    r := GatherLoop(data, ws);
  }

  /** train_len = int(total * train_proportion), val_len = int(total * val_proportion), cut window by window. */
  function TlSplit<T>(xs: seq<T>, tp: real, vp: real): Splits<T>
  {
    Partition(xs, Portion(|xs|, tp), Portion(|xs|, vp), 1)
  }

  /** What `train_test_val_split` returns or raises, without scaling. */
  function TlSplitResult<T>(data: seq<T>, g: Extent, tp: real, vp: real, pred: nat, w: nat, p: Extent): Result<Splits<Window<T>>, PyError>
  {
    match TlWindowedResult(data, g, pred, w, p)
    case Err(e) => Err(e)
    case Ok(ws) => Ok(TlSplit(ws, tp, vp))
  }

  /** `train_test_val_split` of notebooks/tl-turb-16/utils.py:68-89. */
  method TlTrainTestValSplit<T>(data: seq<T>, g: Extent, tp: real, vp: real, pred: nat, w: nat, p: Extent)
    returns (r: Result<Splits<Window<T>>, PyError>)
    ensures r == TlSplitResult(data, g, tp, vp, pred, w, p)
  {
    var windowed := TlToWindowed(data, g, pred, w, p);
    if windowed.Err? {
      return Err(windowed.error);
    }
    var xs := windowed.value;
    var trainLen := Portion(|xs|, tp);
    var valLen := Portion(|xs|, vp);
    r := Ok(Splits(Slice(xs, 0, trainLen), Slice(xs, trainLen, trainLen + valLen), Slice(xs, trainLen + valLen, |xs|)));
  }

  // ---------------------------------------------------------------------
  // Windows
  // ---------------------------------------------------------------------

  /**
    There are StartCount * patches_per_block windows, and max(0, T - window_size)
    * patches_per_block when the array holds T whole blocks.
   */
  lemma TlWindowCount(len: nat, g: Extent, p: Extent, w: nat, pred: nat)
    requires Volume(g) > 0 && Positive(p)
    ensures |TlIndexWindows(len, g, p, w, pred)| == StartCount(len, g, w) * PatchesPerBlock(g, p)
    ensures len % Volume(g) == 0 ==>
              |TlIndexWindows(len, g, p, w, pred)| == RangeLen(len / Volume(g) - w) * PatchesPerBlock(g, p)
  {
    VertexCount(len, g, p, w);
    if len % Volume(g) == 0 {
      SplitJoin(len, Volume(g));
      StartCountOfBlocks(len / Volume(g), g, w);
    }
  }

  /**
    Feature and target hold window_size * x1*x2*x3 indices each, and each
    target index is its feature index moved pred_size blocks forward.
   */
  lemma TlWindowShape(len: nat, g: Extent, p: Extent, w: nat, pred: nat, n: int, m: int)
    requires Volume(g) > 0 && Positive(p)
    requires 0 <= n < |TlIndexWindows(len, g, p, w, pred)|
    ensures var win := TlIndexWindows(len, g, p, w, pred)[n];
            && |win.feature| == w * Volume(p)
            && |win.target| == w * Volume(p)
            && (0 <= m < |win.feature| ==> win.target[m] == win.feature[m] + pred * Volume(g))
  {
    var v := VertexList(len, g, p, w)[n];
    assert TlIndexWindows(len, g, p, w, pred)[n] == Window(PatchIndices(g, p, w, v, 0), PatchIndices(g, p, w, v, pred));
    PatchIndicesShift(g, p, w, v, pred, m);
  }

  /**
    Windows come time-major, then patch i, j, k: the window at position
    Encode(t, i, j, k) gathers the patch whose vertex is Vertex(t, i, j, k).
   */
  lemma TlWindowOrder(len: nat, g: Extent, p: Extent, w: nat, pred: nat, t: nat, i: nat, j: nat, k: nat)
    requires Volume(g) > 0 && Positive(p)
    requires t < StartCount(len, g, w)
    requires i < Counts(g, p).e1 && j < Counts(g, p).e2 && k < Counts(g, p).e3
    ensures var c := Counts(g, p);
            var n := Encode(Digits(t, i, j, k), c.e1, c.e2, c.e3);
            var v := Vertex(g, p, t, i, j, k);
            && 0 <= n < |TlIndexWindows(len, g, p, w, pred)|
            && TlIndexWindows(len, g, p, w, pred)[n] == Window(PatchIndices(g, p, w, v, 0), PatchIndices(g, p, w, v, pred))
  {
    VertexOrder(len, g, p, w, t, i, j, k);
  }

  /** With pred_size <= 1 every gathered index lies in [0, len). */
  lemma TlWindowsOk<T>(data: seq<T>, g: Extent, p: Extent, w: nat, pred: nat)
    requires Volume(g) > 0 && Positive(p) && pred <= 1
    ensures AllWindowsOk(|data|, TlIndexWindows(|data|, g, p, w, pred))
    ensures TlWindowedResult(data, g, pred, w, p).Ok?
  {
    var ws := TlIndexWindows(|data|, g, p, w, pred);
    forall n | 0 <= n < |ws|
      ensures WindowOk(|data|, ws[n])
    {
      TlWindowOk(|data|, g, p, w, pred, n);
    }
  }

  /** One window of TlWindowsOk. */
  lemma TlWindowOk(len: nat, g: Extent, p: Extent, w: nat, pred: nat, n: int)
    requires Volume(g) > 0 && Positive(p) && pred <= 1
    requires 0 <= n < |TlIndexWindows(len, g, p, w, pred)|
    ensures WindowOk(len, TlIndexWindows(len, g, p, w, pred)[n])
  {
    var win := TlIndexWindows(len, g, p, w, pred)[n];
    forall m | 0 <= m < w * Volume(p)
      ensures IndexOk(len, win.feature[m]) && IndexOk(len, win.target[m])
    {
      PatchIndexInArray(len, g, p, w, w, n, m, 0);
      PatchIndexInArray(len, g, p, w, w, n, m, pred);
    }
  }

  /** Target index (w - 1) * x1*x2*x3 of the patch (0, 0, 0) at start time t: the first cell, window_size - 1 + pred_size blocks later. */
  lemma {:induction false} LastStepTarget(g: Extent, p: Extent, w: nat, pred: nat, t: int)
    requires Positive(p) && w >= 1
    ensures var m := Encode(Digits(w - 1, 0, 0, 0), p.e1, p.e2, p.e3);
            && 0 <= m < w * Volume(p)
            && PatchIndices(g, p, w, Vertex(g, p, t, 0, 0, 0), pred)[m] == (t + w - 1 + pred) * Volume(g)
  {
    var d := Digits(w - 1, 0, 0, 0);
    var m := Encode(d, p.e1, p.e2, p.e3);
    DecodeEncode(d, p.e1, p.e2, p.e3);
    EncodeBound(d, w, p.e1, p.e2, p.e3);
    MulAssoc(w, p.e1, p.e2, p.e3);
    var v := Vertex(g, p, t, 0, 0, 0);
    MulAssoc(t, g.e1, g.e2, g.e3);
    assert v == t * Volume(g);
    MulAssoc(w - 1 + pred, g.e1, g.e2, g.e3);
    assert OffsetAt(g, p, m, pred) == Offset(g, w - 1 + pred, 0, 0, 0) == (w - 1 + pred) * Volume(g);
    assert PatchIndices(g, p, w, v, pred)[m] == v + OffsetAt(g, p, m, pred);
    Distribute(t, w - 1 + pred, Volume(g));
  }

  /**
    Unlike the `patch` option of src/utils.py, which shortens the window to
    window_size - pred_size + 1 steps, this variant keeps window_size steps,
    so with pred_size >= 2 the target of the last start time reaches past
    the data and the gather raises IndexError.
   */
  lemma TlLongPredictionFails<T>(data: seq<T>, g: Extent, p: Extent, w: nat, pred: nat, blocks: nat)
    requires Volume(g) > 0 && Positive(p) && Positive(Counts(g, p))
    requires |data| == blocks * Volume(g) && 1 <= w < blocks && pred >= 2
    ensures TlWindowedResult(data, g, pred, w, p) == Err(IndexError)
  {
    var ws := TlIndexWindows(|data|, g, p, w, pred);
    var c := Counts(g, p);
    StartCountOfBlocks(blocks, g, w);
    var t := blocks - w - 1;
    TlWindowOrder(|data|, g, p, w, pred, t, 0, 0, 0);
    LastStepTarget(g, p, w, pred, t);
    MulMonotone(blocks, t + w - 1 + pred, Volume(g));
    var n := Encode(Digits(t, 0, 0, 0), c.e1, c.e2, c.e3);
    var m := Encode(Digits(w - 1, 0, 0, 0), p.e1, p.e2, p.e3);
    assert !IndexOk(|data|, ws[n].target[m]);
    assert !WindowOk(|data|, ws[n]);
  }

  // ---------------------------------------------------------------------
  // Split
  // ---------------------------------------------------------------------

  /** Validation starts where train ends, so with non-negative proportions train ++ val ++ test is the window list. */
  lemma TlSplitConcat<T>(xs: seq<T>, tp: real, vp: real)
    requires tp >= 0.0 && vp >= 0.0
    ensures var sp := TlSplit(xs, tp, vp);
            sp.train + sp.val + sp.test == xs
  {
    PortionNonNegative(|xs|, tp);
    PortionNonNegative(|xs|, vp);
    PartitionConcat(xs, Portion(|xs|, tp), Portion(|xs|, vp), 1);
  }

  /** With proportions summing to at most 1 the two portions fit in the total. */
  lemma {:induction false} PortionsFit(total: nat, tp: real, vp: real)
    requires tp >= 0.0 && vp >= 0.0 && tp + vp <= 1.0
    ensures 0 <= Portion(total, tp) && 0 <= Portion(total, vp) && Portion(total, tp) + Portion(total, vp) <= total
  {
    var n := total as real;
    var a, b := n * tp, n * vp;
    assert a >= 0.0 && b >= 0.0;
    assert a + b == n * (tp + vp);
    assert n - n * (tp + vp) == n * (1.0 - (tp + vp)) >= 0.0;
    assert Portion(total, tp) == a.Floor && Portion(total, vp) == b.Floor;
    assert a.Floor as real <= a && b.Floor as real <= b;
    assert (a.Floor + b.Floor) as real == a.Floor as real + b.Floor as real;
    assert a.Floor as real + b.Floor as real <= a + b <= n;
  }

  /**
    With proportions that sum to at most 1, train holds int(total *
    train_proportion) windows, validation int(total * val_proportion), and
    test receives the remainder.
   */
  lemma TlSplitSizes<T>(xs: seq<T>, tp: real, vp: real)
    requires tp >= 0.0 && vp >= 0.0 && tp + vp <= 1.0
    ensures var sp := TlSplit(xs, tp, vp);
            var trainLen, valLen := Portion(|xs|, tp), Portion(|xs|, vp);
            && 0 <= trainLen <= trainLen + valLen <= |xs|
            && sp.train == xs[..trainLen]
            && sp.val == xs[trainLen..trainLen + valLen]
            && sp.test == xs[trainLen + valLen..]
            && |sp.test| == |xs| - trainLen - valLen
  {
    PortionsFit(|xs|, tp, vp);
    PartitionSizes(xs, Portion(|xs|, tp), Portion(|xs|, vp), 1);
  }

  // ---------------------------------------------------------------------
  // Alignment of data, coordinates and timestamps
  // ---------------------------------------------------------------------

  /** The three partitions of gathered windows are the three partitions of the index windows, fetched. */
  lemma PartitionFetched<T>(data: seq<T>, xs: seq<Window<T>>, ys: seq<Window<int>>, tp: real, vp: real)
    requires FetchedFrom(data, xs, ys)
    ensures var sx, sy := TlSplit(xs, tp, vp), TlSplit(ys, tp, vp);
            && FetchedFrom(data, sx.train, sy.train)
            && FetchedFrom(data, sx.val, sy.val)
            && FetchedFrom(data, sx.test, sy.test)
  {
    var a, b := Portion(|xs|, tp), Portion(|xs|, vp);
    SliceFetched(data, xs, ys, 0, a);
    SliceFetched(data, xs, ys, a, a + b);
    SliceFetched(data, xs, ys, a + b, |xs|);
  }

  /**
    Splitting an array succeeds exactly when the index windows for its length
    gather, and then each partition is the same partition of those index
    windows fetched from the array.
   */
  lemma TlSplitFetched<T>(data: seq<T>, g: Extent, tp: real, vp: real, pred: nat, w: nat, p: Extent)
    ensures var ix := TlIndexResult(|data|, g, p, w, pred);
            TlSplitResult(data, g, tp, vp, pred, w, p).Ok? <==> ix.Ok? && AllWindowsOk(|data|, ix.value)
    ensures var ix := TlIndexResult(|data|, g, p, w, pred);
            var r := TlSplitResult(data, g, tp, vp, pred, w, p);
            r.Ok? ==>
              var si := TlSplit(ix.value, tp, vp);
              && FetchedFrom(data, r.value.train, si.train)
              && FetchedFrom(data, r.value.val, si.val)
              && FetchedFrom(data, r.value.test, si.test)
  {
    var ix := TlIndexResult(|data|, g, p, w, pred);
    if ix.Ok? && Gather(data, ix.value).Ok? {
      GatherFetched(data, ix.value);
      PartitionFetched(data, Gather(data, ix.value).value, ix.value, tp, vp);
    }
  }

  /**
    `get_data_loaders` windows the data, the coordinates and the timestamps
    with the same parameters. Arrays of equal length succeed or fail
    together, and their partitions are fetched from the same index windows,
    so training example n of the data sits at the coordinates and times of
    training example n of the coordinates and of the timestamps.
   */
  lemma TlAligned<T, U>(a: seq<T>, b: seq<U>, g: Extent, tp: real, vp: real, pred: nat, w: nat, p: Extent)
    requires |a| == |b|
    ensures TlSplitResult(a, g, tp, vp, pred, w, p).Ok? <==> TlSplitResult(b, g, tp, vp, pred, w, p).Ok?
    ensures var ra, rb := TlSplitResult(a, g, tp, vp, pred, w, p), TlSplitResult(b, g, tp, vp, pred, w, p);
            ra.Ok? ==>
              var si := TlSplit(TlIndexResult(|a|, g, p, w, pred).value, tp, vp);
              && FetchedFrom(a, ra.value.train, si.train) && FetchedFrom(b, rb.value.train, si.train)
              && FetchedFrom(a, ra.value.val, si.val) && FetchedFrom(b, rb.value.val, si.val)
              && FetchedFrom(a, ra.value.test, si.test) && FetchedFrom(b, rb.value.test, si.test)
  {
    TlSplitFetched(a, g, tp, vp, pred, w, p);
    TlSplitFetched(b, g, tp, vp, pred, w, p);
  }
}
