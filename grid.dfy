/** Grid layout shared by every compute kernel: a field is a flat array of
    (N+2)*(N+2) four-channel cells, cell (i, j) stored at j*(N+2) + i, with a
    one-cell ring (i or j equal to 0 or N+1) around the N*N interior. */
module Grid {
  import opened Arith

  /** One four-channel cell (a `vec4f`); values are modelled as reals. */
  datatype Cell = Cell(x: real, y: real, z: real, w: real)

  const Zero: Cell := Cell(0.0, 0.0, 0.0, 0.0)

  /** Workgroup edge length used by every compute pipeline. */
  const WorkgroupSize: nat := 16

  function Add(a: Cell, b: Cell): Cell {
    Cell(a.x + b.x, a.y + b.y, a.z + b.z, a.w + b.w)
  }

  function Scale(k: real, a: Cell): Cell {
    Cell(k * a.x, k * a.y, k * a.z, k * a.w)
  }

  /** Grid width including the ring. */
  function Width(n: nat): nat { n + 2 }

  /** Number of cells in a field of interior resolution n. */
  function Size(n: nat): nat { Width(n) * Width(n) }

  /** The `IX(x, y)` index function of the kernels. */
  function IX(n: nat, i: nat, j: nat): nat { j * Width(n) + i }

  function Col(n: nat, k: nat): nat { k % Width(n) }

  function Row(n: nat, k: nat): nat { k / Width(n) }

  predicate Interior(n: nat, i: nat, j: nat) { 1 <= i <= n && 1 <= j <= n }

  predicate IsCorner(n: nat, i: nat, j: nat) {
    (i == 0 || i == n + 1) && (j == 0 || j == n + 1)
  }

  /** The interior cell of flat index k. */
  predicate InteriorAt(n: nat, k: nat) { Interior(n, Col(n, k), Row(n, k)) }

  /** Interior kernels carry no thread guard and are dispatched as
      ceil(N / WorkgroupSize) groups per axis. */
  function Threads(n: nat): nat {
    ((n + WorkgroupSize - 1) / WorkgroupSize) * WorkgroupSize
  }

  /** The grid sizes for which the unguarded interior dispatch covers exactly
      the interior. */
  predicate Dispatchable(n: nat) { n > 0 && n % WorkgroupSize == 0 }

  /** The dispatch has exactly one invocation per interior column iff N is a
      multiple of the workgroup size; otherwise invocations past the interior
      write ring cells. */
  lemma DispatchCoversInterior(n: nat)
    requires n > 0
    ensures Threads(n) >= n
    ensures Threads(n) == n <==> Dispatchable(n)
  {
    var q := (n + WorkgroupSize - 1) / WorkgroupSize;
    var r := (n + WorkgroupSize - 1) % WorkgroupSize;
    assert n + WorkgroupSize - 1 == q * WorkgroupSize + r;
    if n % WorkgroupSize == 0 {
      var p := n / WorkgroupSize;
      assert n == p * WorkgroupSize;
      DivModUnique(n + WorkgroupSize - 1, WorkgroupSize, p, WorkgroupSize - 1);
    }
  }

  /** Division and remainder are determined by any decomposition k = q*w + r
      with 0 <= r < w. */
  lemma DivModUnique(k: int, w: int, q: int, r: int)
    requires w > 0 && 0 <= r < w && k == q * w + r
    ensures k / w == q && k % w == r
  {
    var q', r' := k / w, k % w;
    assert k == q' * w + r';
    if q' < q {
      assert (q' + 1) * w == q' * w + w;
      MulLeq(q' + 1, q, w);
    } else if q < q' {
      assert (q + 1) * w == q * w + w;
      MulLeq(q + 1, q', w);
    }
  }

  lemma MulLeq(a: int, b: int, w: int)
    requires a <= b && w >= 0
    ensures a * w <= b * w
  {
    assert b * w - a * w == (b - a) * w;
  }

  /** Coordinates and flat index are inverse on the grid. */
  lemma CoordsOf(n: nat, i: nat, j: nat)
    requires i < Width(n) && j < Width(n)
    ensures Col(n, IX(n, i, j)) == i && Row(n, IX(n, i, j)) == j
    ensures IX(n, i, j) < Size(n)
  {
    DivModUnique(IX(n, i, j), Width(n), j, i);
    MulLeq(j, Width(n) - 1, Width(n));
    assert (Width(n) - 1) * Width(n) == Size(n) - Width(n);
  }

  lemma IndexOf(n: nat, k: nat)
    requires k < Size(n)
    ensures Col(n, k) < Width(n) && Row(n, k) < Width(n)
    ensures k == IX(n, Col(n, k), Row(n, k))
  {
    var w := Width(n);
    assert k == (k / w) * w + k % w;
    if k / w >= w {
      MulLeq(w, k / w, w);
    }
  }

  /** The four axis neighbours of an interior cell are in the grid, at the
      offsets -1, +1, -(N+2), +(N+2) the kernels use. */
  lemma Neighbours(n: nat, k: nat)
    requires k < Size(n) && InteriorAt(n, k)
    ensures k >= Width(n) && k + Width(n) < Size(n)
    ensures k - 1 == IX(n, Col(n, k) - 1, Row(n, k))
    ensures k + 1 == IX(n, Col(n, k) + 1, Row(n, k))
    ensures k - Width(n) == IX(n, Col(n, k), Row(n, k) - 1)
    ensures k + Width(n) == IX(n, Col(n, k), Row(n, k) + 1)
  {
    var i, j, w := Col(n, k), Row(n, k), Width(n);
    IndexOf(n, k);
    assert (j - 1) * w == j * w - w;
    assert (j + 1) * w == j * w + w;
    CoordsOf(n, i, j + 1);
    MulLeq(1, j, w);
  }

  /** The coordinates of the four axis neighbours of an interior cell. */
  lemma NeighbourCoords(n: nat, k: nat)
    requires k < Size(n) && InteriorAt(n, k)
    ensures k >= Width(n) && k + Width(n) < Size(n)
    ensures Col(n, k - 1) == Col(n, k) - 1 && Row(n, k - 1) == Row(n, k)
    ensures Col(n, k + 1) == Col(n, k) + 1 && Row(n, k + 1) == Row(n, k)
    ensures Col(n, k - Width(n)) == Col(n, k) && Row(n, k - Width(n)) == Row(n, k) - 1
    ensures Col(n, k + Width(n)) == Col(n, k) && Row(n, k + Width(n)) == Row(n, k) + 1
  {
    Neighbours(n, k);
    var i, j, w := Col(n, k), Row(n, k), Width(n);
    assert k == j * w + i;
    DivModUnique(k - 1, w, j, i - 1);
    DivModUnique(k + 1, w, j, i + 1);
    assert (j - 1) * w == j * w - w;
    DivModUnique(k - w, w, j - 1, i);
    assert (j + 1) * w == j * w + w;
    DivModUnique(k + w, w, j + 1, i);
  }

  /** The cell at (i, j) of a field. */
  function At(n: nat, s: seq<Cell>, i: nat, j: nat): Cell
    requires |s| == Size(n) && i < Width(n) && j < Width(n)
  {
    CoordsOf(n, i, j);
    s[IX(n, i, j)]
  }

  function Avg(a: Cell, b: Cell): Cell { Scale(0.5, Add(a, b)) }

  /** A cell with its x (respectively y) channel negated: the reflection of
      the wall-normal velocity component at a vertical (horizontal) wall. */
  function NegX(c: Cell): Cell { c.(x := -c.x) }

  function NegY(c: Cell): Cell { c.(y := -c.y) }

  /** Every channel of c lies in [lo, hi]. */
  predicate Bounded(c: Cell, lo: real, hi: real) {
    lo <= c.x <= hi && lo <= c.y <= hi && lo <= c.z <= hi && lo <= c.w <= hi
  }

  /** The Jacobi relaxation applied channel by channel. */
  function RelaxCell(a: real, c: Cell, l: Cell, r: Cell, b: Cell, t: Cell): Cell
    requires a >= 0.0
  {
    Cell(Relax(a, c.x, l.x, r.x, b.x, t.x), Relax(a, c.y, l.y, r.y, b.y, t.y),
         Relax(a, c.z, l.z, r.z, b.z, t.z), Relax(a, c.w, l.w, r.w, b.w, t.w))
  }

  lemma RelaxCellBounded(a: real, c: Cell, l: Cell, r: Cell, b: Cell, t: Cell, lo: real, hi: real)
    requires a >= 0.0
    requires Bounded(c, lo, hi) && Bounded(l, lo, hi) && Bounded(r, lo, hi) && Bounded(b, lo, hi) && Bounded(t, lo, hi)
    ensures Bounded(RelaxCell(a, c, l, r, b, t), lo, hi)
  {
    RelaxBounded(a, c.x, l.x, r.x, b.x, t.x, lo, hi);
    RelaxBounded(a, c.y, l.y, r.y, b.y, t.y, lo, hi);
    RelaxBounded(a, c.z, l.z, r.z, b.z, t.z, lo, hi);
    RelaxBounded(a, c.w, l.w, r.w, b.w, t.w, lo, hi);
  }

  /** With a zero coefficient the relaxation returns the centre. */
  lemma RelaxCellStill(c: Cell, l: Cell, r: Cell, b: Cell, t: Cell)
    ensures RelaxCell(0.0, c, l, r, b, t) == c
  {
    RelaxStill(c.x, l.x, r.x, b.x, t.x);
    RelaxStill(c.y, l.y, r.y, b.y, t.y);
    RelaxStill(c.z, l.z, r.z, b.z, t.z);
    RelaxStill(c.w, l.w, r.w, b.w, t.w);
  }

  /** Second phase of both boundary kernels: each corner becomes the average
      of its two axis-adjacent ring cells, read after the edges were written. */
  function CornerPhase(n: nat, e: seq<Cell>): (r: seq<Cell>)
    requires n > 0 && |e| == Size(n)
    ensures |r| == Size(n)
  {
    CoordsOf(n, 0, 0);
    CoordsOf(n, 0, n + 1);
    CoordsOf(n, n + 1, 0);
    CoordsOf(n, n + 1, n + 1);
    e[IX(n, 0, 0) := Avg(At(n, e, 1, 0), At(n, e, 0, 1))]
     [IX(n, 0, n + 1) := Avg(At(n, e, 1, n + 1), At(n, e, 0, n))]
     [IX(n, n + 1, 0) := Avg(At(n, e, n, 0), At(n, e, n + 1, 1))]
     [IX(n, n + 1, n + 1) := Avg(At(n, e, n, n + 1), At(n, e, n + 1, n))]
  }

  /** Corner rule: in the result every corner is the average of its two
      axis-adjacent ring cells, and every other cell is untouched. */
  lemma CornerRule(n: nat, e: seq<Cell>)
    requires n > 0 && |e| == Size(n)
    ensures var r := CornerPhase(n, e);
      && At(n, r, 0, 0) == Avg(At(n, r, 1, 0), At(n, r, 0, 1))
      && At(n, r, 0, n + 1) == Avg(At(n, r, 1, n + 1), At(n, r, 0, n))
      && At(n, r, n + 1, 0) == Avg(At(n, r, n, 0), At(n, r, n + 1, 1))
      && At(n, r, n + 1, n + 1) == Avg(At(n, r, n, n + 1), At(n, r, n + 1, n))
    ensures forall i: nat, j: nat | i < Width(n) && j < Width(n) && !IsCorner(n, i, j) ::
      At(n, CornerPhase(n, e), i, j) == At(n, e, i, j)
  {
    CornerCells(n, e);
    NonCornerCells(n, e);
  }

  /** Flat indices of the four corners and of their eight ring neighbours. */
  lemma CornerIndices(n: nat)
    requires n > 0
    ensures Size(n) >= 3 * Width(n)
    ensures IX(n, 0, 0) == 0 && IX(n, n + 1, 0) == n + 1
    ensures IX(n, 1, 0) == 1 && IX(n, n, 0) == n
    ensures IX(n, 0, 1) == Width(n) && IX(n, n + 1, 1) == Width(n) + n + 1
    ensures IX(n, 0, n + 1) == Size(n) - Width(n) && IX(n, n + 1, n + 1) == Size(n) - 1
    ensures IX(n, 1, n + 1) == Size(n) - Width(n) + 1 && IX(n, n, n + 1) == Size(n) - 2
    ensures IX(n, 0, n) == Size(n) - 2 * Width(n) && IX(n, n + 1, n) == Size(n) - Width(n) - 1
  {
    var w := Width(n);
    assert (n + 1) * w == w * w - w;
    assert n * w == w * w - 2 * w;
    MulLeq(3, w, w);
  }

  lemma CornerCells(n: nat, e: seq<Cell>)
    requires n > 0 && |e| == Size(n)
    ensures var r := CornerPhase(n, e);
      && At(n, r, 0, 0) == Avg(At(n, r, 1, 0), At(n, r, 0, 1))
      && At(n, r, 0, n + 1) == Avg(At(n, r, 1, n + 1), At(n, r, 0, n))
      && At(n, r, n + 1, 0) == Avg(At(n, r, n, 0), At(n, r, n + 1, 1))
      && At(n, r, n + 1, n + 1) == Avg(At(n, r, n, n + 1), At(n, r, n + 1, n))
  {
    CornerIndices(n);
  }

  lemma NonCornerCells(n: nat, e: seq<Cell>)
    requires n > 0 && |e| == Size(n)
    ensures forall i: nat, j: nat | i < Width(n) && j < Width(n) && !IsCorner(n, i, j) ::
      At(n, CornerPhase(n, e), i, j) == At(n, e, i, j)
  {
    forall i: nat, j: nat | i < Width(n) && j < Width(n) && !IsCorner(n, i, j)
      ensures At(n, CornerPhase(n, e), i, j) == At(n, e, i, j)
    {
      NotCorner(n, i, j);
      CoordsOf(n, i, j);
      CornerIndices(n);
      var k := IX(n, i, j);
      var r := CornerPhase(n, e);
      assert r[k] == e[k];
    }
  }

  lemma NotCorner(n: nat, i: nat, j: nat)
    requires i < Width(n) && j < Width(n) && !IsCorner(n, i, j)
    ensures IX(n, i, j) != IX(n, 0, 0) && IX(n, i, j) != IX(n, 0, n + 1)
    ensures IX(n, i, j) != IX(n, n + 1, 0) && IX(n, i, j) != IX(n, n + 1, n + 1)
  {
    CoordsOf(n, i, j);
    CoordsOf(n, 0, 0);
    CoordsOf(n, 0, n + 1);
    CoordsOf(n, n + 1, 0);
    CoordsOf(n, n + 1, n + 1);
  }

  /** The corner phase reads only non-corner cells. */
  lemma CornerPhaseCongruence(n: nat, e: seq<Cell>, e': seq<Cell>)
    requires n > 0 && |e| == Size(n) && |e'| == Size(n)
    requires forall i: nat, j: nat | i < Width(n) && j < Width(n) && !IsCorner(n, i, j) ::
      At(n, e, i, j) == At(n, e', i, j)
    ensures CornerPhase(n, e) == CornerPhase(n, e')
  {
    var r, r' := CornerPhase(n, e), CornerPhase(n, e');
    CornerRule(n, e);
    CornerRule(n, e');
    forall k | 0 <= k < Size(n) ensures r[k] == r'[k] {
      IndexOf(n, k);
      var i, j := Col(n, k), Row(n, k);
      assert r[k] == At(n, r, i, j) && r'[k] == At(n, r', i, j);
      if !IsCorner(n, i, j) {
        assert At(n, r, i, j) == At(n, e, i, j);
      }
    }
  }
}
