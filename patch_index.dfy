/**
  Index arithmetic of the non-overlapping `patch` addressing, shared by
  `to_windowed` in src/utils.py and in notebooks/tl-turb-16/utils.py.

  The flat data array holds T mesh blocks of volume B = nx1*nx2*nx3, each in
  row-major order with x3 fastest. A block is cut into disjoint patches of
  shape (x1, x2, x3); the vertex of a patch is the flat index of its first
  cell, and a window gathers the cells of one patch over several consecutive
  time steps.
 */
module PatchIndex {
  import opened MixedRadix
  import opened LoopNest
  import opened Indexing

  /** The extent of a mesh block (nx1, nx2, nx3) or of a patch (x1, x2, x3). */
  datatype Extent = Extent(e1: nat, e2: nat, e3: nat)

  function Volume(g: Extent): nat
  {
    g.e1 * g.e2 * g.e3
  }

  predicate Positive(g: Extent)
  {
    g.e1 > 0 && g.e2 > 0 && g.e3 > 0
  }

  /** Number of start times, range(int((len(data) - B*window_size) / B)). */
  function StartCount(len: nat, g: Extent, w: nat): nat
    requires Volume(g) > 0
  {
    RangeLen(TruncDiv(len - Volume(g) * w, Volume(g)))
  }

  /** Patches along each axis, (nx1 // x1, nx2 // x2, nx3 // x3). */
  function Counts(g: Extent, p: Extent): Extent
    requires Positive(p)
  {
    Extent(g.e1 / p.e1, g.e2 / p.e2, g.e3 / p.e3)
  }

  /** patches_per_block of the `patch` option. */
  function PatchesPerBlock(g: Extent, p: Extent): nat
    requires Positive(p)
  {
    Volume(Counts(g, p))
  }

  /** The vertex of patch (i, j, k) at start time t. */
  function Vertex(g: Extent, p: Extent, t: int, i: int, j: int, k: int): int
  {
    t * g.e1 * g.e2 * g.e3 + i * p.e1 * g.e2 * g.e3 + j * p.e2 * g.e3 + k * p.e3
  }

  /** The vertex appended on loop iteration (t, i, j, k). */
  function VertexFn(g: Extent, p: Extent): Digits -> int
  {
    (d: Digits) => Vertex(g, p, d.d0, d.d1, d.d2, d.d3)
  }

  /** The list `vertices` of the source: patch (i, j, k) at start time t, k fastest. */
  function VertexList(len: nat, g: Extent, p: Extent, w: nat): seq<int>
    requires Volume(g) > 0 && Positive(p)
  {
    var c := Counts(g, p);
    NestList(StartCount(len, g, w), c.e1, c.e2, c.e3, VertexFn(g, p))
  }

  /** Offset of cell (a, b, c) of a patch, `time` steps after its vertex. */
  function Offset(g: Extent, time: int, a: int, b: int, c: int): int
  {
    time * g.e1 * g.e2 * g.e3 + a * (g.e2 * g.e3) + b * g.e3 + c
  }

  /** The m-th offset of the comprehension over time, j, k, l (l innermost). */
  function OffsetAt(g: Extent, p: Extent, m: int, shift: nat): int
    requires Positive(p)
  {
    var e := Decode(m, p.e1, p.e2, p.e3);
    Offset(g, e.d0 + shift, e.d1, e.d2, e.d3)
  }

  /**
    The indices gathered for the patch with vertex v over `steps` time steps,
    starting `shift` steps after the vertex (shift = 0 for a feature,
    shift = pred_size for a target).
   */
  function PatchIndices(g: Extent, p: Extent, steps: nat, v: int, shift: nat): seq<int>
    requires Positive(p)
  {
    seq(steps * Volume(p), m => v + OffsetAt(g, p, m, shift))
  }

  /**
    The indices of a patch over `steps` time steps number steps * x1*x2*x3,
    and reading them `shift` steps later moves each one shift blocks forward.
   */
  lemma PatchIndicesShift(g: Extent, p: Extent, steps: nat, v: int, shift: nat, m: int)
    requires Positive(p)
    ensures |PatchIndices(g, p, steps, v, 0)| == |PatchIndices(g, p, steps, v, shift)| == steps * Volume(p)
    ensures 0 <= m < steps * Volume(p) ==>
              PatchIndices(g, p, steps, v, shift)[m] == PatchIndices(g, p, steps, v, 0)[m] + shift * Volume(g)
  {
    if 0 <= m < steps * Volume(p) {
      var e := Decode(m, p.e1, p.e2, p.e3);
      assert PatchIndices(g, p, steps, v, shift)[m] == v + Offset(g, e.d0 + shift, e.d1, e.d2, e.d3);
      assert PatchIndices(g, p, steps, v, 0)[m] == v + Offset(g, e.d0 + 0, e.d1, e.d2, e.d3);
      OffsetShift(g, e.d0, shift, e.d1, e.d2, e.d3);
    }
  }

  /** Moving `shift` steps later adds shift block volumes to an offset. */
  lemma OffsetShift(g: Extent, time: int, shift: int, a: int, b: int, c: int)
    ensures Offset(g, time + shift, a, b, c) == Offset(g, time, a, b, c) + shift * Volume(g)
  {
    assert (time + shift) * g.e1 * g.e2 * g.e3 == time * g.e1 * g.e2 * g.e3 + shift * (g.e1 * g.e2 * g.e3);
  }

  /**
    The nested loops that list the vertices (src/utils.py:48-53 and
    notebooks/tl-turb-16/utils.py:51-56).
   */
  method PatchVertices(len: nat, g: Extent, p: Extent, w: nat) returns (vertices: seq<int>)
    requires Volume(g) > 0 && Positive(p)
    ensures vertices == VertexList(len, g, p, w)
  {
    var nx1, nx2, nx3 := g.e1, g.e2, g.e3;
    var x1, x2, x3 := p.e1, p.e2, p.e3;
    var tc := RangeLen(TruncDiv(len - nx1 * nx2 * nx3 * w, nx1 * nx2 * nx3));
    vertices := Loops(tc, nx1 / x1, nx2 / x2, nx3 / x3, VertexFn(g, p));
  }

  // ---------------------------------------------------------------------
  // Properties of the index arithmetic
  // ---------------------------------------------------------------------

  /** With T whole blocks, there are max(0, T - window_size) start times. */
  lemma {:induction false} StartCountOfBlocks(blocks: nat, g: Extent, w: nat)
    requires Volume(g) > 0
    ensures StartCount(blocks * Volume(g), g, w) == RangeLen(blocks - w)
  {
    var b := Volume(g);
    assert blocks * b - b * w == (blocks - w) * b;
    if blocks >= w {
      JoinSplit(blocks - w, 0, b);
    } else {
      assert -(blocks * b - b * w) == (w - blocks) * b;
      JoinSplit(w - blocks, 0, b);
    }
  }

  /** A start time t leaves room for the window: blocks t .. t + w lie inside the array. */
  lemma {:induction false} StartCountBound(len: nat, g: Extent, w: nat, t: int)
    requires Volume(g) > 0 && 0 <= t < StartCount(len, g, w)
    ensures (t + w + 1) * Volume(g) <= len
  {
    var b := Volume(g);
    var a := len - b * w;
    assert a / b > 0;
    SplitJoin(a, b);
    MulMonotone(t + 1, a / b, b);
    assert (t + w + 1) * b == (t + 1) * b + b * w;
  }

  /** There are StartCount * patches_per_block vertices. */
  lemma VertexCount(len: nat, g: Extent, p: Extent, w: nat)
    requires Volume(g) > 0 && Positive(p)
    ensures |VertexList(len, g, p, w)| == StartCount(len, g, w) * PatchesPerBlock(g, p)
  {
    var c := Counts(g, p);
    NestLength(StartCount(len, g, w), c.e1, c.e2, c.e3, VertexFn(g, p));
  }

  /**
    Vertices are ordered by start time, then i, j, k: the vertex of patch
    (i, j, k) at start time t is listed at position Encode(t, i, j, k).
   */
  lemma VertexOrder(len: nat, g: Extent, p: Extent, w: nat, t: nat, i: nat, j: nat, k: nat)
    requires Volume(g) > 0 && Positive(p)
    requires t < StartCount(len, g, w)
    requires i < Counts(g, p).e1 && j < Counts(g, p).e2 && k < Counts(g, p).e3
    ensures var c := Counts(g, p);
            var n := Encode(Digits(t, i, j, k), c.e1, c.e2, c.e3);
            0 <= n < |VertexList(len, g, p, w)| && VertexList(len, g, p, w)[n] == Vertex(g, p, t, i, j, k)
  {
    var c := Counts(g, p);
    NestAt(StartCount(len, g, w), c.e1, c.e2, c.e3, VertexFn(g, p), Digits(t, i, j, k));
  }

  /** A patch coordinate i with cell a inside the patch stays inside the block. */
  lemma {:induction false} CellBound(i: nat, a: nat, x: nat, nx: nat)
    requires x > 0 && i < nx / x && a < x
    ensures 0 <= i * x + a < nx
  {
    JoinBound(i, a, x, nx / x);
    assert (nx / x) * x <= nx;
  }

  /** The flat index is the row-major position (time, x1, x2, x3) of the cell, x3 fastest. */
  lemma IndexAsDigits(g: Extent, p: Extent, t: int, i: int, j: int, k: int, time: int, a: int, b: int, c: int)
    ensures Vertex(g, p, t, i, j, k) + Offset(g, time, a, b, c)
         == Encode(Digits(t + time, i * p.e1 + a, j * p.e2 + b, k * p.e3 + c), g.e1, g.e2, g.e3)
  {
    IndexArith(t, i, j, k, time, a, b, c, p.e1, p.e2, p.e3, g.e1, g.e2, g.e3);
  }

  /** The arithmetic of IndexAsDigits over plain integers. */
  lemma IndexArith(t: int, i: int, j: int, k: int, time: int, a: int, b: int, c: int,
                   p1: int, p2: int, p3: int, g1: int, g2: int, g3: int)
    ensures (((t + time) * g1 + (i * p1 + a)) * g2 + (j * p2 + b)) * g3 + (k * p3 + c)
         == (t * g1 * g2 * g3 + i * p1 * g2 * g3 + j * p2 * g3 + k * p3)
            + (time * g1 * g2 * g3 + a * (g2 * g3) + b * g3 + c)
  {
    ExpandFour(t + time, i * p1 + a, j * p2 + b, k * p3 + c, g3, g2, g1);
    var vol := g3 * g2 * g1;
    Distribute(t, time, vol);
    Distribute(i * p1, a, g3 * g2);
    Distribute(j * p2, b, g3);
    assert t * g1 * g2 * g3 == t * vol && time * g1 * g2 * g3 == time * vol;
    assert i * p1 * g2 * g3 == i * p1 * (g3 * g2) && a * (g2 * g3) == a * (g3 * g2);
  }

  /** The cell (a, b, c) of patch (i, j, k), `time` steps after start time t, lies in block t + time. */
  lemma {:induction false} CellInBlock(g: Extent, p: Extent, t: int, i: nat, j: nat, k: nat, time: int, a: nat, b: nat, c: nat)
    requires Positive(p) && Positive(g)
    requires i < Counts(g, p).e1 && j < Counts(g, p).e2 && k < Counts(g, p).e3
    requires a < p.e1 && b < p.e2 && c < p.e3
    ensures (t + time) * Volume(g) <= Vertex(g, p, t, i, j, k) + Offset(g, time, a, b, c) < (t + time + 1) * Volume(g)
  {
    CellBound(i, a, p.e1, g.e1);
    CellBound(j, b, p.e2, g.e2);
    CellBound(k, c, p.e3, g.e3);
    IndexAsDigits(g, p, t, i, j, k, time, a, b, c);
    EncodeBlock(Digits(t + time, i * p.e1 + a, j * p.e2 + b, k * p.e3 + c), g.e1, g.e2, g.e3);
  }

  /**
    Every index gathered for vertex n and comprehension position m lies in
    block t + time + shift, where t is the vertex's start time and time the
    step of position m.
   */
  lemma PatchIndexInBlock(len: nat, g: Extent, p: Extent, w: nat, n: int, m: int, shift: nat)
    requires Volume(g) > 0 && Positive(p)
    requires 0 <= n < |VertexList(len, g, p, w)| && 0 <= m
    ensures var d := Decode(n, Counts(g, p).e1, Counts(g, p).e2, Counts(g, p).e3);
            var e := Decode(m, p.e1, p.e2, p.e3);
            var blk := d.d0 + e.d0 + shift;
            && 0 <= d.d0 < StartCount(len, g, w)
            && blk * Volume(g) <= VertexList(len, g, p, w)[n] + OffsetAt(g, p, m, shift) < (blk + 1) * Volume(g)
  {
    var c := Counts(g, p);
    NestDigits(StartCount(len, g, w), c.e1, c.e2, c.e3, VertexFn(g, p), n);
    var d := Decode(n, c.e1, c.e2, c.e3);
    var e := Decode(m, p.e1, p.e2, p.e3);
    DecodeDigits(m, p.e1, p.e2, p.e3);
    assert Positive(g);
    assert VertexList(len, g, p, w)[n] == Vertex(g, p, d.d0, d.d1, d.d2, d.d3);
    assert OffsetAt(g, p, m, shift) == Offset(g, e.d0 + shift, e.d1, e.d2, e.d3);
    CellInBlock(g, p, d.d0, d.d1, d.d2, d.d3, e.d0 + shift, e.d1, e.d2, e.d3);
  }

  /**
    A window of `steps` time steps whose cells are read `shift` steps after
    the vertex stays inside the array when steps + shift <= w + 1, since the
    start times leave room for w + 1 blocks.
   */
  lemma {:induction false} PatchIndexInArray(len: nat, g: Extent, p: Extent, w: nat, steps: nat, n: int, m: int, shift: nat)
    requires Volume(g) > 0 && Positive(p) && steps + shift <= w + 1
    requires 0 <= n < |VertexList(len, g, p, w)| && 0 <= m < steps * Volume(p)
    ensures 0 <= VertexList(len, g, p, w)[n] + OffsetAt(g, p, m, shift) < len
  {
    var c := Counts(g, p);
    var d := Decode(n, c.e1, c.e2, c.e3);
    var e := Decode(m, p.e1, p.e2, p.e3);
    PatchIndexInBlock(len, g, p, w, n, m, shift);
    StepBound(p, steps, m);
    var blk := d.d0 + e.d0 + shift;
    assert 0 <= blk && blk + 1 <= d.d0 + w + 1;
    StartCountBound(len, g, w, d.d0);
    BlockInArray(VertexList(len, g, p, w)[n] + OffsetAt(g, p, m, shift), blk, d.d0 + w + 1, Volume(g), len);
  }

  /** Position m of a window of `steps` patches lies in one of those steps. */
  lemma StepBound(p: Extent, steps: nat, m: int)
    requires Positive(p) && 0 <= m < steps * Volume(p)
    ensures 0 <= Decode(m, p.e1, p.e2, p.e3).d0 < steps
  {
    MulAssoc(steps, p.e1, p.e2, p.e3);
    DecodeBound(m, steps, p.e1, p.e2, p.e3);
  }

  /** Digits within `steps` leading values and the extent e encode to a position below steps * volume(e). */
  lemma EncodeInSteps(e: Extent, steps: int, d: Digits)
    requires Positive(e) && InRange(d, steps, e.e1, e.e2, e.e3)
    ensures 0 <= Encode(d, e.e1, e.e2, e.e3) < steps * Volume(e)
  {
    EncodeBound(d, steps, e.e1, e.e2, e.e3);
    MulAssoc(steps, e.e1, e.e2, e.e3);
  }

  /** A number in block blk of size v lies below len when the blocks up to top fit in len. */
  lemma BlockInArray(x: int, blk: int, top: int, v: int, len: int)
    requires v > 0 && 0 <= blk && blk + 1 <= top && top * v <= len
    requires blk * v <= x < (blk + 1) * v
    ensures 0 <= x < len
  {
    MulMonotone(0, blk, v);
    MulMonotone(blk + 1, top, v);
  }

  /**
    The vertex loops raise ZeroDivisionError on a zero patch extent:
    range(nx1 // x1) is evaluated once per start time, range(nx2 // x2) once
    per i and range(nx3 // x3) once per j.
   */
  predicate VertexLoopsRaise(len: nat, g: Extent, p: Extent, w: nat)
    requires Volume(g) > 0
  {
    StartCount(len, g, w) > 0 && (p.e1 == 0 || (g.e1 / p.e1 > 0 && (p.e2 == 0 || (g.e2 / p.e2 > 0 && p.e3 == 0))))
  }

  /** nx_i % x_i == 0 on every axis: the patches tile the block. */
  predicate Divides(p: Extent, g: Extent)
    requires Positive(p)
  {
    g.e1 % p.e1 == 0 && g.e2 % p.e2 == 0 && g.e3 % p.e3 == 0
  }

  /** Patch (v.d1, v.d2, v.d3) exists and (e.d1, e.d2, e.d3) is a cell inside it. */
  predicate PatchCell(g: Extent, p: Extent, v: Digits, e: Digits)
    requires Positive(p)
  {
    && 0 <= v.d1 < Counts(g, p).e1 && 0 <= v.d2 < Counts(g, p).e2 && 0 <= v.d3 < Counts(g, p).e3
    && 0 <= e.d1 < p.e1 && 0 <= e.d2 < p.e2 && 0 <= e.d3 < p.e3
  }

  /** The flat index of cell e of patch v at start time v.d0, e.d0 steps later. */
  function CellIndex(g: Extent, p: Extent, v: Digits, e: Digits): int
  {
    Vertex(g, p, v.d0, v.d1, v.d2, v.d3) + Offset(g, e.d0, e.d1, e.d2, e.d3)
  }

  /** A block coordinate splits into a patch coordinate and a cell coordinate. */
  lemma {:induction false} SplitCoordinate(q: int, x: nat, nx: nat)
    requires x > 0 && nx % x == 0 && 0 <= q < nx
    ensures 0 <= q / x < nx / x && 0 <= q % x < x && (q / x) * x + q % x == q
  {
    assert nx == (nx / x) * x;
    SplitBound(q, x, nx / x);
    SplitJoin(q, x);
  }

  /** A position of block t is t*B plus a spatial position with digits inside the block. */
  lemma {:induction false} SplitPosition(g: Extent, t: int, s: int) returns (d: Digits)
    requires Positive(g)
    requires t * Volume(g) <= s < (t + 1) * Volume(g)
    ensures 0 <= d.d1 < g.e1 && 0 <= d.d2 < g.e2 && 0 <= d.d3 < g.e3 && d.d0 == t
    ensures Encode(d, g.e1, g.e2, g.e3) == s
  {
    var o := s - t * Volume(g);
    assert (t + 1) * Volume(g) == t * Volume(g) + Volume(g);
    var low := Decode(o, g.e1, g.e2, g.e3);
    DecodeBound(o, 1, g.e1, g.e2, g.e3);
    EncodeDecode(o, g.e1, g.e2, g.e3);
    d := Digits(t, low.d1, low.d2, low.d3);
    EncodeBlock(d, g.e1, g.e2, g.e3);
  }

  /**
    Tiling, first half: when the patch shape divides the block, every
    position s of block t is a cell of some patch of start time t.
   */
  lemma {:induction false} PatchTilingCovers(g: Extent, p: Extent, t: int, s: int) returns (v: Digits, e: Digits)
    requires Positive(p) && Positive(g) && Divides(p, g)
    requires t * Volume(g) <= s < (t + 1) * Volume(g)
    ensures v.d0 == t && e.d0 == 0 && PatchCell(g, p, v, e)
    ensures CellIndex(g, p, v, e) == s
  {
    var d := SplitPosition(g, t, s);
    SplitCoordinate(d.d1, p.e1, g.e1);
    SplitCoordinate(d.d2, p.e2, g.e2);
    SplitCoordinate(d.d3, p.e3, g.e3);
    v := Digits(t, d.d1 / p.e1, d.d2 / p.e2, d.d3 / p.e3);
    e := Digits(0, d.d1 % p.e1, d.d2 % p.e2, d.d3 % p.e3);
    IndexAsDigits(g, p, t, v.d1, v.d2, v.d3, 0, e.d1, e.d2, e.d3);
  }

  /**
    Tiling, second half: two cells of patches of the same start time that
    land on the same position are the same cell of the same patch.
   */
  lemma {:induction false} PatchTilingDisjoint(g: Extent, p: Extent, v: Digits, e: Digits, v': Digits, e': Digits)
    requires Positive(p) && Positive(g)
    requires PatchCell(g, p, v, e) && PatchCell(g, p, v', e')
    requires v.d0 + e.d0 == v'.d0 + e'.d0
    requires CellIndex(g, p, v, e) == CellIndex(g, p, v', e')
    ensures v.d1 == v'.d1 && v.d2 == v'.d2 && v.d3 == v'.d3
    ensures e.d1 == e'.d1 && e.d2 == e'.d2 && e.d3 == e'.d3
  {
    IndexAsDigits(g, p, v.d0, v.d1, v.d2, v.d3, e.d0, e.d1, e.d2, e.d3);
    IndexAsDigits(g, p, v'.d0, v'.d1, v'.d2, v'.d3, e'.d0, e'.d1, e'.d2, e'.d3);
    CellBound(v.d1, e.d1, p.e1, g.e1);
    CellBound(v.d2, e.d2, p.e2, g.e2);
    CellBound(v.d3, e.d3, p.e3, g.e3);
    CellBound(v'.d1, e'.d1, p.e1, g.e1);
    CellBound(v'.d2, e'.d2, p.e2, g.e2);
    CellBound(v'.d3, e'.d3, p.e3, g.e3);
    EncodeInjective(Digits(v.d0 + e.d0, v.d1 * p.e1 + e.d1, v.d2 * p.e2 + e.d2, v.d3 * p.e3 + e.d3),
                    Digits(v'.d0 + e'.d0, v'.d1 * p.e1 + e'.d1, v'.d2 * p.e2 + e'.d2, v'.d3 * p.e3 + e'.d3),
                    g.e1, g.e2, g.e3);
    JoinSplit(v.d1, e.d1, p.e1);
    JoinSplit(v'.d1, e'.d1, p.e1);
    JoinSplit(v.d2, e.d2, p.e2);
    JoinSplit(v'.d2, e'.d2, p.e2);
    JoinSplit(v.d3, e.d3, p.e3);
    JoinSplit(v'.d3, e'.d3, p.e3);
  }
}
