/** The three pressure-projection kernels, shared word for word by both
    revisions of the solver (shaders.js and src/rendering/shaders.js):
    project1 stores the divergence in the y channel of the scratch field and
    clears its pressure (x channel), project2 is one Jacobi sweep of the
    pressure Poisson equation on the x channel, and project3 subtracts the
    pressure gradient from the velocity. The pressure sweep reads the
    scratch field it writes; as for every kernel, its invocations read the
    field as it was when the dispatch started. */
module Projection {
  import opened Grid
  import opened Arith

  // ------------------------------------------------------------------ project1

  /** -0.5 / N times the central-difference divergence of the velocities
      l, r, bt, tp to the left, right, bottom and top of a cell. */
  function DivergenceOf(n: nat, l: Cell, r: Cell, bt: Cell, tp: Cell): real
    requires n > 0
  {
    (-0.5 / n as real) * (r.x - l.x + tp.y - bt.y)
  }

  /** The divergence term at interior cell k. */
  function Divergence(n: nat, uv: seq<Cell>, k: nat): real
    requires n > 0 && |uv| == Size(n) && k < Size(n) && InteriorAt(n, k)
  {
    Neighbours(n, k);
    var w := Width(n);
    DivergenceOf(n, uv[k - 1], uv[k + 1], uv[k - w], uv[k + w])
  }

  /** `project1`: every interior cell of the scratch field gets pressure 0
      and the divergence of the velocity; other cells are untouched. */
  function Project1Pass(n: nat, uv: seq<Cell>, p: seq<Cell>): (r: seq<Cell>)
    requires n > 0 && |uv| == Size(n) && |p| == Size(n)
    ensures |r| == Size(n)
  {
    seq(Size(n), k requires 0 <= k < Size(n) =>
      if InteriorAt(n, k) then p[k].(x := 0.0, y := Divergence(n, uv, k)) else p[k])
  }

  method Project1(n: nat, uv: array<Cell>, pDiv: array<Cell>)
    requires Dispatchable(n) && uv.Length == Size(n) && pDiv.Length == Size(n) && uv != pDiv
    modifies pDiv
    ensures pDiv[..] == Project1Pass(n, uv[..], old(pDiv[..]))
  {
    var k := 0;
    while k < pDiv.Length
      invariant 0 <= k <= pDiv.Length
      invariant forall m :: 0 <= m < k ==> pDiv[m] == Project1Pass(n, uv[..], old(pDiv[..]))[m]
      invariant forall m :: k <= m < pDiv.Length ==> pDiv[m] == old(pDiv[m])
    {
      if InteriorAt(n, k) {
        pDiv[k] := pDiv[k].(x := 0.0, y := Divergence(n, uv[..], k));
      }
      k := k + 1;
    }
  }

  /** project1 writes only the x and y channels of interior cells: pressure
      becomes 0, z and w survive, and the ring is untouched. */
  lemma Project1Frame(n: nat, uv: seq<Cell>, p: seq<Cell>)
    requires n > 0 && |uv| == Size(n) && |p| == Size(n)
    ensures forall k :: 0 <= k < Size(n) ==>
      var r := Project1Pass(n, uv, p)[k];
      r.z == p[k].z && r.w == p[k].w && (InteriorAt(n, k) ==> r.x == 0.0) && (!InteriorAt(n, k) ==> r == p[k])
  {
  }

  /** The velocity field u = a * i, v = b * j has divergence -(a + b) / N at
      every interior cell: the central differences span two cells and the
      kernel's factor is -0.5 / N. */
  lemma DivergenceOfLinearFlow(n: nat, uv: seq<Cell>, a: real, b: real, k: nat)
    requires n > 0 && |uv| == Size(n) && k < Size(n) && InteriorAt(n, k)
    requires forall m :: 0 <= m < Size(n) ==> uv[m].x == Mul(a, Col(n, m) as real) && uv[m].y == Mul(b, Row(n, m) as real)
    ensures Project1Pass(n, uv, uv)[k].y == -(a + b) / n as real
  {
    LinearTaps(n, uv, a, b, k);
    var w := Width(n);
    LinearDivergence(n, uv[k - 1], uv[k + 1], uv[k - w], uv[k + w], a, b, Col(n, k) as real, Row(n, k) as real);
  }

  lemma LinearTaps(n: nat, uv: seq<Cell>, a: real, b: real, k: nat)
    requires |uv| == Size(n) && k < Size(n) && InteriorAt(n, k)
    requires forall m :: 0 <= m < Size(n) ==> uv[m].x == Mul(a, Col(n, m) as real) && uv[m].y == Mul(b, Row(n, m) as real)
    ensures k >= Width(n) && k + Width(n) < Size(n)
    ensures uv[k + 1].x == Mul(a, Col(n, k) as real + 1.0) && uv[k - 1].x == Mul(a, Col(n, k) as real - 1.0)
    ensures uv[k + Width(n)].y == Mul(b, Row(n, k) as real + 1.0) && uv[k - Width(n)].y == Mul(b, Row(n, k) as real - 1.0)
  {
    NeighbourCoords(n, k);
  }

  lemma LinearDivergence(n: nat, l: Cell, r: Cell, bt: Cell, tp: Cell, a: real, b: real, i: real, j: real)
    requires n > 0
    requires r.x == Mul(a, i + 1.0) && l.x == Mul(a, i - 1.0)
    requires tp.y == Mul(b, j + 1.0) && bt.y == Mul(b, j - 1.0)
    ensures DivergenceOf(n, l, r, bt, tp) == -(a + b) / n as real
  {
    CentralDifference(a, i);
    CentralDifference(b, j);
    HalfOfTwice(n as real, r.x - l.x + tp.y - bt.y, a + b);
  }

  /** A uniform velocity field has no divergence. */
  lemma UniformFlowDivergenceFree(n: nat, uv: seq<Cell>, p: seq<Cell>, u: Cell, k: nat)
    requires n > 0 && |uv| == Size(n) && |p| == Size(n) && k < Size(n) && InteriorAt(n, k)
    requires forall m :: 0 <= m < Size(n) ==> uv[m] == u
    ensures Project1Pass(n, uv, p)[k] == p[k].(x := 0.0, y := 0.0)
  {
    Neighbours(n, k);
  }

  // ------------------------------------------------------------------ project2

  /** One Jacobi update of the pressure at interior cell k: the divergence
      (y channel) plus the four neighbouring pressures (x channel), over 4. */
  function PressureAt(n: nat, p: seq<Cell>, k: nat): real
    requires |p| == Size(n) && k < Size(n) && InteriorAt(n, k)
  {
    Neighbours(n, k);
    var w := Width(n);
    (p[k].y + p[k - 1].x + p[k + 1].x + p[k - w].x + p[k + w].x) * 0.25
  }

  /** `project2`: the pressure of every interior cell replaced by its Jacobi
      update, all read from the field before the sweep. */
  function Project2Pass(n: nat, p: seq<Cell>): (r: seq<Cell>)
    requires |p| == Size(n)
    ensures |r| == Size(n)
  {
    seq(Size(n), k requires 0 <= k < Size(n) =>
      if InteriorAt(n, k) then p[k].(x := PressureAt(n, p, k)) else p[k])
  }

  method Project2(n: nat, pDiv: array<Cell>)
    requires Dispatchable(n) && pDiv.Length == Size(n)
    modifies pDiv
    ensures pDiv[..] == Project2Pass(n, old(pDiv[..]))
  {
    var s := pDiv[..];
    var k := 0;
    while k < pDiv.Length
      invariant 0 <= k <= pDiv.Length
      invariant forall m :: 0 <= m < k ==> pDiv[m] == Project2Pass(n, s)[m]
      invariant forall m :: k <= m < pDiv.Length ==> pDiv[m] == s[m]
    {
      if InteriorAt(n, k) {
        pDiv[k] := s[k].(x := PressureAt(n, s, k));
      }
      k := k + 1;
    }
  }

  /** The residual of the discrete Poisson equation 4 p - (sum of the four
      neighbouring pressures) = div at interior cell k. */
  function Residual(n: nat, p: seq<Cell>, k: nat): real
    requires |p| == Size(n) && k < Size(n) && InteriorAt(n, k)
  {
    Neighbours(n, k);
    var w := Width(n);
    p[k].y + p[k - 1].x + p[k + 1].x + p[k - w].x + p[k + w].x - 4.0 * p[k].x
  }

  /** A sweep leaves an interior cell unchanged exactly when the Poisson
      equation already holds there; it never touches y, z or w. */
  lemma PressureFixedPoint(n: nat, p: seq<Cell>, k: nat)
    requires |p| == Size(n) && k < Size(n) && InteriorAt(n, k)
    ensures Project2Pass(n, p)[k] == p[k] <==> Residual(n, p, k) == 0.0
    ensures Project2Pass(n, p)[k].x == p[k].x + 0.25 * Residual(n, p, k)
    ensures Project2Pass(n, p)[k].(x := p[k].x) == p[k]
  {
    Neighbours(n, k);
  }

  /** A field that solves the Poisson equation at every interior cell is a
      fixed point of the whole sweep; in particular a constant pressure with
      no divergence. */
  lemma PressureSolutionStable(n: nat, p: seq<Cell>)
    requires |p| == Size(n)
    requires forall k :: 0 <= k < Size(n) && InteriorAt(n, k) ==> Residual(n, p, k) == 0.0
    ensures Project2Pass(n, p) == p
  {
    forall k | 0 <= k < Size(n)
      ensures Project2Pass(n, p)[k] == p[k]
    {
      if InteriorAt(n, k) {
        PressureFixedPoint(n, p, k);
      }
    }
  }

  lemma ConstantPressureSolves(n: nat, p: seq<Cell>, c: real, k: nat)
    requires |p| == Size(n) && k < Size(n) && InteriorAt(n, k)
    requires forall m :: 0 <= m < Size(n) ==> p[m].x == c
    requires p[k].y == 0.0
    ensures Residual(n, p, k) == 0.0
  {
    Neighbours(n, k);
  }

  // ------------------------------------------------------------------ project3

  /** The velocity at interior cell k after subtracting N times the
      pressure difference across it on each axis. */
  function GradientStep(n: nat, uv: seq<Cell>, p: seq<Cell>, k: nat): Cell
    requires |uv| == Size(n) && |p| == Size(n) && k < Size(n) && InteriorAt(n, k)
  {
    Neighbours(n, k);
    var w := Width(n);
    GradientOf(n, uv[k], p[k - 1], p[k + 1], p[k - w], p[k + w])
  }

  /** Velocity c corrected by the pressures l, r, bt, tp around its cell. */
  function GradientOf(n: nat, c: Cell, l: Cell, r: Cell, bt: Cell, tp: Cell): Cell
  {
    var coeff := -(n as real);
    c.(x := c.x + coeff * (r.x - l.x), y := c.y + coeff * (tp.x - bt.x))
  }

  /** `project3`: the gradient step at every interior cell. */
  function Project3Pass(n: nat, uv: seq<Cell>, p: seq<Cell>): (r: seq<Cell>)
    requires |uv| == Size(n) && |p| == Size(n)
    ensures |r| == Size(n)
  {
    seq(Size(n), k requires 0 <= k < Size(n) =>
      if InteriorAt(n, k) then GradientStep(n, uv, p, k) else uv[k])
  }

  method Project3(n: nat, uv: array<Cell>, pDiv: array<Cell>)
    requires Dispatchable(n) && uv.Length == Size(n) && pDiv.Length == Size(n) && uv != pDiv
    modifies uv
    ensures uv[..] == Project3Pass(n, old(uv[..]), pDiv[..])
  {
    var s := uv[..];
    var k := 0;
    while k < uv.Length
      invariant 0 <= k <= uv.Length
      invariant forall m :: 0 <= m < k ==> uv[m] == Project3Pass(n, s, pDiv[..])[m]
      invariant forall m :: k <= m < uv.Length ==> uv[m] == s[m]
    {
      if InteriorAt(n, k) {
        uv[k] := GradientStep(n, s, pDiv[..], k);
      }
      k := k + 1;
    }
  }

  /** A constant pressure has no gradient: project3 then leaves the
      velocity exactly as it was. */
  lemma ConstantPressureNoCorrection(n: nat, uv: seq<Cell>, p: seq<Cell>, c: real)
    requires |uv| == Size(n) && |p| == Size(n)
    requires forall m :: 0 <= m < Size(n) ==> p[m].x == c
    ensures Project3Pass(n, uv, p) == uv
  {
    forall k | 0 <= k < Size(n) && InteriorAt(n, k)
      ensures GradientStep(n, uv, p, k) == uv[k]
    {
      Neighbours(n, k);
      var w := Width(n);
      LevelPressure(n, uv[k], p[k - 1], p[k + 1], p[k - w], p[k + w]);
    }
  }

  lemma LevelPressure(n: nat, c: Cell, l: Cell, r: Cell, bt: Cell, tp: Cell)
    requires r.x == l.x && tp.x == bt.x
    ensures GradientOf(n, c, l, r, bt, tp) == c
  {
    NoDifference(-(n as real), r.x, l.x);
    NoDifference(-(n as real), tp.x, bt.x);
  }

  /** project3 changes only the x and y channels of interior cells. */
  lemma Project3Frame(n: nat, uv: seq<Cell>, p: seq<Cell>)
    requires |uv| == Size(n) && |p| == Size(n)
    ensures forall k :: 0 <= k < Size(n) ==>
      var r := Project3Pass(n, uv, p)[k];
      r.z == uv[k].z && r.w == uv[k].w && (!InteriorAt(n, k) ==> r == uv[k])
  {
  }

  /** A pressure field p = a * i subtracts 2 a N from u and leaves v
      alone. */
  lemma GradientOfLinearPressure(n: nat, uv: seq<Cell>, p: seq<Cell>, a: real, k: nat)
    requires |uv| == Size(n) && |p| == Size(n) && k < Size(n) && InteriorAt(n, k)
    requires forall m :: 0 <= m < Size(n) ==> p[m].x == Mul(a, Col(n, m) as real)
    ensures Project3Pass(n, uv, p)[k].x == uv[k].x - 2.0 * Mul(a, n as real)
    ensures Project3Pass(n, uv, p)[k].y == uv[k].y
  {
    LinearPressureTaps(n, p, a, k);
    var w := Width(n);
    LinearGradient(n, uv[k], p[k - 1], p[k + 1], p[k - w], p[k + w], a, Col(n, k) as real);
  }

  lemma LinearPressureTaps(n: nat, p: seq<Cell>, a: real, k: nat)
    requires |p| == Size(n) && k < Size(n) && InteriorAt(n, k)
    requires forall m :: 0 <= m < Size(n) ==> p[m].x == Mul(a, Col(n, m) as real)
    ensures k >= Width(n) && k + Width(n) < Size(n)
    ensures p[k + 1].x == Mul(a, Col(n, k) as real + 1.0) && p[k - 1].x == Mul(a, Col(n, k) as real - 1.0)
    ensures p[k + Width(n)].x == p[k - Width(n)].x
  {
    NeighbourCoords(n, k);
  }

  lemma LinearGradient(n: nat, c: Cell, l: Cell, r: Cell, bt: Cell, tp: Cell, a: real, i: real)
    requires r.x == Mul(a, i + 1.0) && l.x == Mul(a, i - 1.0) && tp.x == bt.x
    ensures GradientOf(n, c, l, r, bt, tp).x == c.x - 2.0 * Mul(a, n as real)
    ensures GradientOf(n, c, l, r, bt, tp).y == c.y
  {
    CentralDifference(a, i);
    TwiceScaled(n as real, r.x - l.x, a);
    NoDifference(-(n as real), tp.x, bt.x);
  }
}
