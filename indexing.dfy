/**
  The Python and NumPy indexing primitives the windowing and splitting code
  relies on: slicing with clamped and negative bounds, `int()` of a quotient,
  the length of `range(n)`, and gathering by a list of indices.
 */
module Indexing {
  import opened Wrappers

  /** The exceptions the modelled Python code can raise. */
  datatype PyError = IndexError | ZeroDivisionError | AttributeError

  /** A training example: the feature window and the target window. */
  datatype Window<T> = Window(feature: seq<T>, target: seq<T>)

  /** len(range(n)): a negative count gives an empty range. */
  function RangeLen(n: int): nat
  {
    if n > 0 then n else 0
  }

  /** min(a, b). */
  function Min(a: int, b: int): int
  {
    if a <= b then a else b
  }

  /** int(a / b) for b > 0: the quotient truncated toward zero. */
  function TruncDiv(a: int, b: int): int
    requires b > 0
  {
    if a >= 0 then a / b else -((-a) / b)
  }

  /** int(x) for a float x: truncation toward zero. */
  function Trunc(x: real): int
  {
    if x >= 0.0 then x.Floor else -((-x).Floor)
  }

  /** The position a slice bound i denotes in a sequence of length n. */
  function SliceBound(i: int, n: nat): (r: nat)
    ensures r <= n
    ensures 0 <= i <= n ==> r == i
  {
    if i < 0 then (if i + n < 0 then 0 else i + n) else if i > n then n else i
  }

  /** s[a:b] with Python's semantics: negative bounds count from the end, bounds are clamped. */
  function Slice<T>(s: seq<T>, a: int, b: int): (r: seq<T>)
    ensures 0 <= a <= b <= |s| ==> r == s[a..b]
    ensures |r| <= |s|
  {
    var lo, hi := SliceBound(a, |s|), SliceBound(b, |s|);
    if lo <= hi then s[lo..hi] else []
  }

  /** Cutting at two non-negative points gives three pieces that concatenate back. */
  lemma SliceConcat<T>(s: seq<T>, a: int, b: int)
    requires 0 <= a <= b
    ensures Slice(s, 0, a) + Slice(s, a, b) + Slice(s, b, |s|) == s
  {
  }

  /** The indices lo, lo+1, ..., lo+n-1. */
  function Range(lo: int, n: nat): (r: seq<int>)
  {
    seq(n, k => lo + k)
  }

  /** A valid NumPy index into an array of length n (negative indices count from the end). */
  predicate IndexOk(n: nat, i: int)
  {
    -(n as int) <= i < n
  }

  predicate AllIndicesOk(n: nat, idx: seq<int>)
  {
    forall k :: 0 <= k < |idx| ==> IndexOk(n, idx[k])
  }

  function At<T>(data: seq<T>, i: int): T
    requires IndexOk(|data|, i)
  {
    if i < 0 then data[i + |data|] else data[i]
  }

  /** data[idx] for an index list idx (NumPy fancy indexing). */
  function Take<T>(data: seq<T>, idx: seq<int>): (r: seq<T>)
    requires AllIndicesOk(|data|, idx)
  {
    seq(|idx|, k requires 0 <= k < |idx| => At(data, idx[k]))
  }

  /** Gathering the positions of a slice is the slice. */
  lemma TakeSlice<T>(data: seq<T>, a: nat, b: nat)
    requires a <= b <= |data|
    ensures AllIndicesOk(|data|, Range(a, b - a)) && Take(data, Range(a, b - a)) == data[a..b]
  {
  }

  predicate WindowOk(n: nat, w: Window<int>)
  {
    AllIndicesOk(n, w.feature) && AllIndicesOk(n, w.target)
  }

  /** The window of data at the positions of the index window win. */
  function Fetch<T>(data: seq<T>, win: Window<int>): Window<T>
    requires WindowOk(|data|, win)
  {
    Window(Take(data, win.feature), Take(data, win.target))
  }

  /** Every index of every window is valid for an array of length n. */
  predicate AllWindowsOk(n: nat, ws: seq<Window<int>>)
  {
    forall i :: 0 <= i < |ws| ==> WindowOk(n, ws[i])
  }

  /**
    The windows of data whose positions are the index windows ws. The loops
    that build windows in the source raise IndexError on the first bad index;
    either way the caller gets no windows, only the error.
   */
  function Gather<T>(data: seq<T>, ws: seq<Window<int>>): Result<seq<Window<T>>, PyError>
  {
    if AllWindowsOk(|data|, ws) then
      Ok(seq(|ws|, i requires 0 <= i < |ws| => Fetch(data, ws[i])))
    else
      Err(IndexError)
  }

  /**
    The loop over windows that gathers one window per iteration and stops
    at the first window holding an index outside the array.
   */
  method GatherLoop<T>(data: seq<T>, ws: seq<Window<int>>) returns (r: Result<seq<Window<T>>, PyError>)
    ensures r == Gather(data, ws)
  {
    var out := [];
    for i := 0 to |ws|
      invariant forall n :: 0 <= n < i ==> WindowOk(|data|, ws[n])
      invariant |out| == i
      invariant forall n :: 0 <= n < i ==> out[n] == Fetch(data, ws[n])
    {
      if !WindowOk(|data|, ws[i]) {
        return Err(IndexError);
      }
      out := out + [Fetch(data, ws[i])];
    }
    assert AllWindowsOk(|data|, ws);
    assert out == Gather(data, ws).value;
    return Ok(out);
  }

  /** A successful gather holds, at every position, the element the index names. */
  lemma GatherAt<T>(data: seq<T>, ws: seq<Window<int>>, i: int, k: int)
    requires Gather(data, ws).Ok? && 0 <= i < |ws|
    ensures |Gather(data, ws).value| == |ws|
    ensures |Gather(data, ws).value[i].feature| == |ws[i].feature|
    ensures |Gather(data, ws).value[i].target| == |ws[i].target|
    ensures 0 <= k < |ws[i].feature| ==> Gather(data, ws).value[i].feature[k] == At(data, ws[i].feature[k])
    ensures 0 <= k < |ws[i].target| ==> Gather(data, ws).value[i].target[k] == At(data, ws[i].target[k])
  {
    assert WindowOk(|data|, ws[i]);
  }

  /**
    Index windows depend only on lengths: gathering from two arrays of the
    same length succeeds for both or for neither, and position k of window i
    comes from the same index in both.
   */
  lemma GatherAligned<T, U>(a: seq<T>, b: seq<U>, ws: seq<Window<int>>)
    requires |a| == |b|
    ensures Gather(a, ws).Ok? <==> Gather(b, ws).Ok?
    ensures Gather(a, ws).Err? ==> Gather(a, ws).error == Gather(b, ws).error
    ensures Gather(a, ws).Ok? ==>
              && |Gather(a, ws).value| == |Gather(b, ws).value|
              && forall i :: 0 <= i < |ws| ==>
                   && |Gather(a, ws).value[i].feature| == |Gather(b, ws).value[i].feature|
                   && |Gather(a, ws).value[i].target| == |Gather(b, ws).value[i].target|
  {
  }

  /** Window n of xs is index window n of ys fetched from data, for every n. */
  ghost predicate FetchedFrom<T>(data: seq<T>, xs: seq<Window<T>>, ys: seq<Window<int>>)
  {
    |xs| == |ys| && forall n :: 0 <= n < |ys| ==> WindowOk(|data|, ys[n]) && xs[n] == Fetch(data, ys[n])
  }

  /** A successful gather is its index windows fetched one by one. */
  lemma GatherFetched<T>(data: seq<T>, ws: seq<Window<int>>)
    requires Gather(data, ws).Ok?
    ensures FetchedFrom(data, Gather(data, ws).value, ws)
  {
  }

  /** Slicing the gathered windows and slicing the index windows at the same bounds keep them paired. */
  lemma SliceFetched<T>(data: seq<T>, xs: seq<Window<T>>, ys: seq<Window<int>>, a: int, b: int)
    requires FetchedFrom(data, xs, ys)
    ensures FetchedFrom(data, Slice(xs, a, b), Slice(ys, a, b))
  {
    var lo, hi := SliceBound(a, |xs|), SliceBound(b, |xs|);
    if lo <= hi {
      forall n | 0 <= n < hi - lo
        ensures WindowOk(|data|, ys[lo..hi][n]) && xs[lo..hi][n] == Fetch(data, ys[lo..hi][n])
      {
        assert ys[lo..hi][n] == ys[lo + n];
      }
    }
  }
}
