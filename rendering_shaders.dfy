/** The compute kernels of the later solver revision
    (src/rendering/shaders.js): a Gaussian splat instead of a hard brush, a
    free-slip boundary keyed on b = 1 (horizontal velocity) and b = 2
    (vertical velocity), Stam's diffusion coefficient dt * diff * N^2, an
    advection that may read velocity from a grid of another resolution and
    multiplies density by a decay factor, and curl and gravity kernels that
    guard against threads outside the interior. No obstacle mask. As for the
    root kernels, every invocation of a dispatch reads the buffers as they
    were when the dispatch started, except that the boundary corners are
    taken from the ring after the edges are written: on the GPU the corner
    and edge invocations of one dispatch race, and this is one of the
    orders they may run in. */
module RenderingShaders {
  import opened Grid
  import opened Sampling
  import opened Arith
  import Root = Shaders

  // ---------------------------------------------------------------- addDensity

  /** Interior cell after `addDensity`: the input plus the source colour
      weighted by the Gaussian falloff of the squared distance between the
      mouse and the cell. The falloff exp(-d^2 / (2 sigma^2)) is supplied by
      the caller. */
  function SplatAt(n: nat, mx: real, my: real, color: Cell, falloff: real -> real,
                   sIn: seq<Cell>, k: nat): Cell
    requires |sIn| == Size(n) && k < Size(n)
  {
    var dx, dy := mx - Col(n, k) as real, my - Row(n, k) as real;
    Add(sIn[k], Scale(falloff(dx * dx + dy * dy), color))
  }

  function SplatPass(n: nat, mx: real, my: real, color: Cell, falloff: real -> real,
                     sIn: seq<Cell>, sOut: seq<Cell>): (r: seq<Cell>)
    requires |sIn| == Size(n) && |sOut| == Size(n)
    ensures |r| == Size(n)
  {
    seq(Size(n), k requires 0 <= k < Size(n) =>
      if InteriorAt(n, k) then SplatAt(n, mx, my, color, falloff, sIn, k) else sOut[k])
  }

  method AddDensity(n: nat, mx: real, my: real, color: Cell, falloff: real -> real,
                    stateOut: array<Cell>, stateIn: array<Cell>)
    requires Dispatchable(n) && stateOut.Length == Size(n) && stateIn.Length == Size(n)
    requires stateOut != stateIn
    modifies stateOut
    ensures stateOut[..] == SplatPass(n, mx, my, color, falloff, stateIn[..], old(stateOut[..]))
  {
    var k := 0;
    while k < stateOut.Length
      invariant 0 <= k <= stateOut.Length
      invariant forall m :: 0 <= m < k ==> stateOut[m] == SplatPass(n, mx, my, color, falloff, stateIn[..], old(stateOut[..]))[m]
      invariant forall m :: k <= m < stateOut.Length ==> stateOut[m] == old(stateOut[m])
    {
      if InteriorAt(n, k) {
        stateOut[k] := SplatAt(n, mx, my, color, falloff, stateIn[..], k);
      }
      k := k + 1;
    }
  }

  /** With a falloff in [0, 1] and a colour with no negative channel, every
      channel of a splatted cell lies between the input and the input plus
      the full colour. */
  lemma SplatBetween(n: nat, mx: real, my: real, color: Cell, falloff: real -> real,
                     sIn: seq<Cell>, sOut: seq<Cell>, k: nat)
    requires |sIn| == Size(n) && |sOut| == Size(n) && k < Size(n) && InteriorAt(n, k)
    requires forall d :: 0.0 <= falloff(d) <= 1.0
    requires color.x >= 0.0 && color.y >= 0.0 && color.z >= 0.0 && color.w >= 0.0
    ensures var r, c := SplatPass(n, mx, my, color, falloff, sIn, sOut)[k], sIn[k];
      && c.x <= r.x <= c.x + color.x && c.y <= r.y <= c.y + color.y
      && c.z <= r.z <= c.z + color.z && c.w <= r.w <= c.w + color.w
  {
    var dx, dy := mx - Col(n, k) as real, my - Row(n, k) as real;
    var g := falloff(dx * dx + dy * dy);
    var c := sIn[k];
    ShareBounded(c.x, g, color.x);
    ShareBounded(c.y, g, color.y);
    ShareBounded(c.z, g, color.z);
    ShareBounded(c.w, g, color.w);
  }

  // --------------------------------------------------------------- setBoundary

  /** First phase of the free-slip `setBoundary`: the left and right walls
      copy the adjacent interior cell with x negated when b = 1, the bottom
      and top walls copy it with y negated when b = 2, any other b copies;
      corners and interior cells are untouched. */
  function FreeSlipEdgeAt(n: nat, b: nat, s: seq<Cell>, k: nat): Cell
    requires n > 0 && |s| == Size(n) && k < Size(n)
  {
    IndexOf(n, k);
    var i, j := Col(n, k), Row(n, k);
    if IsCorner(n, i, j) then s[k]
    else if i == 0 then (if b == 1 then NegX(At(n, s, 1, j)) else At(n, s, 1, j))
    else if i == n + 1 then (if b == 1 then NegX(At(n, s, n, j)) else At(n, s, n, j))
    else if j == 0 then (if b == 2 then NegY(At(n, s, i, 1)) else At(n, s, i, 1))
    else if j == n + 1 then (if b == 2 then NegY(At(n, s, i, n)) else At(n, s, i, n))
    else s[k]
  }

  function FreeSlipEdges(n: nat, b: nat, s: seq<Cell>): (e: seq<Cell>)
    requires n > 0 && |s| == Size(n)
    ensures |e| == Size(n)
  {
    seq(Size(n), k requires 0 <= k < Size(n) => FreeSlipEdgeAt(n, b, s, k))
  }

  function FreeSlipPass(n: nat, b: nat, s: seq<Cell>): (r: seq<Cell>)
    requires n > 0 && |s| == Size(n)
    ensures |r| == Size(n)
  {
    CornerPhase(n, FreeSlipEdges(n, b, s))
  }

  method SetBoundary(n: nat, b: nat, arr: array<Cell>)
    requires n > 0 && arr.Length == Size(n)
    modifies arr
    ensures arr[..] == FreeSlipPass(n, b, old(arr[..]))
  {
    var s := arr[..];
    var k := 0;
    while k < arr.Length
      invariant 0 <= k <= arr.Length
      invariant forall m :: 0 <= m < k ==> arr[m] == FreeSlipEdgeAt(n, b, s, m)
      invariant forall m :: k <= m < arr.Length ==> arr[m] == s[m]
    {
      arr[k] := FreeSlipEdgeAt(n, b, s, k);
      k := k + 1;
    }
    ghost var e := arr[..];
    assert e == FreeSlipEdges(n, b, s);
    CoordsOf(n, 0, 0); CoordsOf(n, 0, n + 1); CoordsOf(n, n + 1, 0); CoordsOf(n, n + 1, n + 1);
    CoordsOf(n, 1, 0); CoordsOf(n, 0, 1); CoordsOf(n, 1, n + 1); CoordsOf(n, 0, n);
    CoordsOf(n, n, 0); CoordsOf(n, n + 1, 1); CoordsOf(n, n, n + 1); CoordsOf(n, n + 1, n);
    NotCorner(n, 1, 0); NotCorner(n, 0, 1);
    NotCorner(n, 1, n + 1); NotCorner(n, 0, n);
    NotCorner(n, n, 0); NotCorner(n, n + 1, 1);
    NotCorner(n, n, n + 1); NotCorner(n, n + 1, n);
    arr[IX(n, 0, 0)] := Avg(arr[IX(n, 1, 0)], arr[IX(n, 0, 1)]);
    arr[IX(n, 0, n + 1)] := Avg(arr[IX(n, 1, n + 1)], arr[IX(n, 0, n)]);
    arr[IX(n, n + 1, 0)] := Avg(arr[IX(n, n, 0)], arr[IX(n, n + 1, 1)]);
    arr[IX(n, n + 1, n + 1)] := Avg(arr[IX(n, n, n + 1)], arr[IX(n, n + 1, n)]);
    assert arr[..] == CornerPhase(n, e);
  }

  /** The ring after the free-slip pass: the left and right walls reflect
      x only for b = 1, the bottom and top walls reflect y only for b = 2,
      every other case is a plain copy of the adjacent interior cell. */
  lemma FreeSlipWalls(n: nat, b: nat, s: seq<Cell>, t: nat)
    requires n > 0 && |s| == Size(n) && 1 <= t <= n
    ensures var r := FreeSlipPass(n, b, s);
      && At(n, r, 0, t) == (if b == 1 then NegX(At(n, s, 1, t)) else At(n, s, 1, t))
      && At(n, r, n + 1, t) == (if b == 1 then NegX(At(n, s, n, t)) else At(n, s, n, t))
      && At(n, r, t, 0) == (if b == 2 then NegY(At(n, s, t, 1)) else At(n, s, t, 1))
      && At(n, r, t, n + 1) == (if b == 2 then NegY(At(n, s, t, n)) else At(n, s, t, n))
  {
    CornerRule(n, FreeSlipEdges(n, b, s));
    CoordsOf(n, 0, t); CoordsOf(n, n + 1, t); CoordsOf(n, t, 0); CoordsOf(n, t, n + 1);
  }

  /** Interior cells are untouched and every corner is the average of its
      two axis-adjacent ring cells of the result. */
  lemma FreeSlipInteriorAndCorners(n: nat, b: nat, s: seq<Cell>)
    requires n > 0 && |s| == Size(n)
    ensures forall i: nat, j: nat | Interior(n, i, j) :: At(n, FreeSlipPass(n, b, s), i, j) == At(n, s, i, j)
    ensures var r := FreeSlipPass(n, b, s);
      && At(n, r, 0, 0) == Avg(At(n, r, 1, 0), At(n, r, 0, 1))
      && At(n, r, 0, n + 1) == Avg(At(n, r, 1, n + 1), At(n, r, 0, n))
      && At(n, r, n + 1, 0) == Avg(At(n, r, n, 0), At(n, r, n + 1, 1))
      && At(n, r, n + 1, n + 1) == Avg(At(n, r, n, n + 1), At(n, r, n + 1, n))
  {
    var e := FreeSlipEdges(n, b, s);
    CornerRule(n, e);
    forall i: nat, j: nat | Interior(n, i, j)
      ensures At(n, FreeSlipPass(n, b, s), i, j) == At(n, s, i, j)
    {
      CoordsOf(n, i, j);
      assert At(n, e, i, j) == FreeSlipEdgeAt(n, b, s, IX(n, i, j));
    }
  }

  /** For density (b = 0) on a grid with no obstacle, the free-slip pass and
      the obstacle-aware pass of shaders.js compute the same field. */
  lemma DensityBoundariesAgree(n: nat, s: seq<Cell>, obs: seq<real>)
    requires n > 0 && |s| == Size(n) && |obs| == Size(n)
    requires forall m :: 0 <= m < Size(n) ==> !Root.Solid(obs[m])
    ensures FreeSlipPass(n, 0, s) == Root.BoundaryPass(n, 0, s, obs)
  {
    assert FreeSlipEdges(n, 0, s) == Root.EdgePhase(n, 0, s, obs);
  }

  /** With b = 1 for the whole velocity field, as the solver passes it, the
      top and bottom walls copy the vertical velocity of the cell inside:
      the wall and its neighbour cancel only when that velocity is already
      zero, so flow through the top and bottom walls is not stopped. */
  lemma VelocityBoundaryLeaks(n: nat, s: seq<Cell>, t: nat)
    requires n > 0 && |s| == Size(n) && 1 <= t <= n
    ensures var r := FreeSlipPass(n, 1, s);
      && (At(n, r, t, 0).y + At(n, s, t, 1).y == 0.0 <==> At(n, s, t, 1).y == 0.0)
      && (At(n, r, t, n + 1).y + At(n, s, t, n).y == 0.0 <==> At(n, s, t, n).y == 0.0)
  {
    FreeSlipWalls(n, 1, s, t);
  }

  /** The reflecting rule a velocity field needs from a single pass: x
      negated at the left and right walls, y at the bottom and top walls. */
  function ReflectEdgeAt(n: nat, s: seq<Cell>, k: nat): Cell
    requires n > 0 && |s| == Size(n) && k < Size(n)
  {
    IndexOf(n, k);
    var i, j := Col(n, k), Row(n, k);
    if IsCorner(n, i, j) then s[k]
    else if i == 0 then NegX(At(n, s, 1, j))
    else if i == n + 1 then NegX(At(n, s, n, j))
    else if j == 0 then NegY(At(n, s, i, 1))
    else if j == n + 1 then NegY(At(n, s, i, n))
    else s[k]
  }

  function ReflectEdges(n: nat, s: seq<Cell>): (e: seq<Cell>)
    requires n > 0 && |s| == Size(n)
    ensures |e| == Size(n)
  {
    seq(Size(n), k requires 0 <= k < Size(n) => ReflectEdgeAt(n, s, k))
  }

  /** The corrected velocity boundary: reflecting edges, then the corners. */
  function ReflectPass(n: nat, s: seq<Cell>): (r: seq<Cell>)
    requires n > 0 && |s| == Size(n)
    ensures |r| == Size(n)
  {
    CornerPhase(n, ReflectEdges(n, s))
  }

  /** After the reflecting pass the normal velocity of every wall cell
      cancels that of the cell inside, and the tangential one is copied. */
  lemma ReflectWalls(n: nat, s: seq<Cell>, t: nat)
    requires n > 0 && |s| == Size(n) && 1 <= t <= n
    ensures var r := ReflectPass(n, s);
      && At(n, r, 0, t).x + At(n, s, 1, t).x == 0.0 && At(n, r, 0, t).y == At(n, s, 1, t).y
      && At(n, r, n + 1, t).x + At(n, s, n, t).x == 0.0 && At(n, r, n + 1, t).y == At(n, s, n, t).y
      && At(n, r, t, 0).y + At(n, s, t, 1).y == 0.0 && At(n, r, t, 0).x == At(n, s, t, 1).x
      && At(n, r, t, n + 1).y + At(n, s, t, n).y == 0.0 && At(n, r, t, n + 1).x == At(n, s, t, n).x
  {
    CornerRule(n, ReflectEdges(n, s));
    CoordsOf(n, 0, t); CoordsOf(n, n + 1, t); CoordsOf(n, t, 0); CoordsOf(n, t, n + 1);
  }

  /** On a grid with no obstacle the reflecting pass is the velocity pass
      (b = 1) of the obstacle-aware kernel of shaders.js. */
  lemma VelocityBoundariesAgree(n: nat, s: seq<Cell>, obs: seq<real>)
    requires n > 0 && |s| == Size(n) && |obs| == Size(n)
    requires forall m :: 0 <= m < Size(n) ==> !Root.Solid(obs[m])
    ensures ReflectPass(n, s) == Root.BoundaryPass(n, 1, s, obs)
  {
    assert ReflectEdges(n, s) == Root.EdgePhase(n, 1, s, obs);
  }

  // ------------------------------------------------------------------- diffuse

  /** Stam's coefficient a = dt * diff * N * N. */
  function StamRate(dt: real, diff: real, n: nat): (a: real)
    ensures dt >= 0.0 && diff >= 0.0 ==> a >= 0.0
    ensures dt == 0.0 || diff == 0.0 || n == 0 ==> a == 0.0
  {
    var a := dt * diff * (n as real) * (n as real);
    if dt >= 0.0 && diff >= 0.0 then
      MulNonneg(dt, diff);
      MulNonneg(dt * diff, n as real);
      MulNonneg(dt * diff * (n as real), n as real);
      a
    else a
  }

  /** One Jacobi step at interior cell k:
      (x0 + a * (sum of the four neighbours of x)) / (1 + 4a). */
  function DiffuseAt(n: nat, a: real, x: seq<Cell>, x0: seq<Cell>, k: nat): Cell
    requires |x| == Size(n) && |x0| == Size(n) && k < Size(n) && InteriorAt(n, k) && a >= 0.0
  {
    Neighbours(n, k);
    var w := Width(n);
    RelaxCell(a, x0[k], x[k - 1], x[k + 1], x[k - w], x[k + w])
  }

  function DiffusePass(n: nat, a: real, x: seq<Cell>, x0: seq<Cell>): (r: seq<Cell>)
    requires |x| == Size(n) && |x0| == Size(n) && a >= 0.0
    ensures |r| == Size(n)
  {
    seq(Size(n), k requires 0 <= k < Size(n) =>
      if InteriorAt(n, k) then DiffuseAt(n, a, x, x0, k) else x[k])
  }

  method Diffuse(n: nat, dt: real, diff: real, x: array<Cell>, x0: array<Cell>)
    requires Dispatchable(n) && dt >= 0.0 && diff >= 0.0
    requires x.Length == Size(n) && x0.Length == Size(n) && x != x0
    modifies x
    ensures x[..] == DiffusePass(n, StamRate(dt, diff, n), old(x[..]), x0[..])
  {
    var a := StamRate(dt, diff, n);
    var s := x[..];
    var k := 0;
    while k < x.Length
      invariant 0 <= k <= x.Length
      invariant forall m :: 0 <= m < k ==> x[m] == DiffusePass(n, a, s, x0[..])[m]
      invariant forall m :: k <= m < x.Length ==> x[m] == s[m]
    {
      if InteriorAt(n, k) {
        x[k] := DiffuseAt(n, a, s, x0[..], k);
      }
      k := k + 1;
    }
  }

  /** With diff = 0 a sweep copies x0 into the interior exactly. */
  lemma DiffuseWithoutDiffusion(n: nat, x: seq<Cell>, x0: seq<Cell>, k: nat)
    requires |x| == Size(n) && |x0| == Size(n) && k < Size(n) && InteriorAt(n, k)
    ensures DiffusePass(n, 0.0, x, x0)[k] == x0[k]
  {
    Neighbours(n, k);
    var w := Width(n);
    RelaxCellStill(x0[k], x[k - 1], x[k + 1], x[k - w], x[k + w]);
  }

  /** Discrete maximum principle for the Stam sweep. */
  lemma DiffuseBounded(n: nat, a: real, x: seq<Cell>, x0: seq<Cell>, lo: real, hi: real, k: nat)
    requires |x| == Size(n) && |x0| == Size(n) && a >= 0.0 && k < Size(n)
    requires forall m :: 0 <= m < Size(n) ==> Bounded(x[m], lo, hi) && Bounded(x0[m], lo, hi)
    ensures Bounded(DiffusePass(n, a, x, x0)[k], lo, hi)
  {
    if InteriorAt(n, k) {
      Neighbours(n, k);
      var w := Width(n);
      RelaxCellBounded(a, x0[k], x[k - 1], x[k + 1], x[k - w], x[k + w], lo, hi);
    }
  }

  /** Without obstacles the obstacle-aware sweep of shaders.js is this
      sweep: the two revisions differ only in how they compute a. */
  lemma DiffusionSweepsAgree(n: nat, a: real, x: seq<Cell>, x0: seq<Cell>, obs: seq<real>)
    requires |x| == Size(n) && |x0| == Size(n) && |obs| == Size(n) && a >= 0.0
    requires forall m :: 0 <= m < Size(n) ==> !Root.Solid(obs[m])
    ensures Root.DiffusePass(n, a, x, x0, obs) == DiffusePass(n, a, x, x0)
  {
    forall k | 0 <= k < Size(n) && InteriorAt(n, k)
      ensures Root.DiffuseAt(n, a, x, x0, obs, k) == DiffuseAt(n, a, x, x0, k)
    {
      Neighbours(n, k);
      var w := Width(n);
      assert Root.SolidCount(obs[k - 1], obs[k + 1], obs[k - w], obs[k + w]) == 0;
    }
  }

  // -------------------------------------------------------------------- advect

  /** WGSL's `u32` of a float: truncation toward zero, and 0 for a
      negative value (the clamp at 2^32 - 1 is not modelled). */
  function U32(x: real): (r: nat)
    ensures x >= 0.0 ==> r as real <= x < r as real + 1.0
    ensures x < 1.0 ==> r == 0
  {
    if x < 0.0 then 0 else x.Floor
  }

  /** The kernel takes the velocity grid for a different one when the
      diffuse slot holds `vel_N > 0` with `vel_N != N`. */
  predicate Scaled(n: nat, velN: real) { velN > 0.0 && velN != n as real }

  /** A storage-buffer read; past the end it yields zero, one of the
      values robust buffer access allows. */
  function Load(uv: seq<Cell>, m: nat): (c: Cell)
    ensures m < |uv| ==> c == uv[m]
    ensures m >= |uv| ==> c == Zero
  {
    if m < |uv| then uv[m] else Zero
  }

  /** `1 + (p - 1) / (N - 1) * (vel_N - 1)`: the position p of [1, N]
      carried to the same place between 1 and vel_N. */
  function ScaledPosition(n: nat, velN: real, p: nat): (pv: real)
    requires n > 1 && 1 <= p <= n
    ensures velN >= 1.0 ==> 1.0 <= pv <= velN
    ensures velN < 1.0 ==> velN <= pv <= 1.0
    ensures pv == 1.0 <==> p == 1 || velN == 1.0
  {
    1.0 + Rescale(p as real, n as real, velN - 1.0)
  }

  /** One axis of the cross-resolution lookup: i0 = `u32(floor(pos))` of
      the mapped position, i1 = `min(i0 + 1, u32(vel_N + 1))`, and the
      weights (1 - t, t) of t = pos - i0. Both taps lie inside a grid
      `u32(vel_N + 2)` cells wide; below vel_N = 1 that grid is two cells
      wide and only the first position reaches cell 1. */
  function ScaledAxis(n: nat, velN: real, p: nat): (a: Axis)
    requires n > 1 && velN > 0.0 && 1 <= p <= n
    ensures ValidAxis(a) && 0 <= a.i0 <= a.i1 < U32(velN + 2.0)
    ensures velN >= 1.0 ==> 1 <= a.i0 && a.i1 == a.i0 + 1
    ensures velN < 1.0 ==> a.i1 == 1 && a.i0 == (if p == 1 then 1 else 0)
    ensures a.i0 as real + a.s1 == ScaledPosition(n, velN, p)
  {
    var pv := ScaledPosition(n, velN, p);
    var i0 := U32(pv.Floor as real);
    var cap := U32(velN + 1.0);
    assert i0 == pv.Floor;
    assert cap + 1 == U32(velN + 2.0);
    var i1 := if i0 + 1 < cap then i0 + 1 else cap;
    var t := pv - i0 as real;
    Axis(i0, i1, 1.0 - t, t)
  }

  /** `mix` of two cells, channel by channel. */
  function Mix(a: Cell, b: Cell, t: real): Cell
  {
    Cell(MixR(a.x, b.x, t), MixR(a.y, b.y, t), MixR(a.z, b.z, t), MixR(a.w, b.w, t))
  }

  /** The velocity the kernel traces back with at interior cell k. When the
      grids differ, the bilinear mix of the four cells around the mapped
      position of a grid `u32(vel_N + 2)` cells wide laid over the same
      buffer; otherwise the co-located cell. */
  function VelocityAt(n: nat, velN: real, uv: seq<Cell>, k: nat): Cell
    requires n > 1 && |uv| == Size(n) && k < Size(n) && InteriorAt(n, k)
  {
    if Scaled(n, velN) then
      var ax, ay := ScaledAxis(n, velN, Col(n, k)), ScaledAxis(n, velN, Row(n, k));
      var w := U32(velN + 2.0);
      Mix(Mix(Load(uv, ay.i0 * w + ax.i0), Load(uv, ay.i0 * w + ax.i1), ax.s1),
          Mix(Load(uv, ay.i1 * w + ax.i0), Load(uv, ay.i1 * w + ax.i1), ax.s1), ay.s1)
    else uv[k]
  }

  /** A tap (i, j) of a grid w <= N + 2 cells wide lies inside the buffer. */
  lemma TapInBuffer(n: nat, w: nat, i: nat, j: nat)
    requires w <= Width(n) && i < w && j < w
    ensures j * w + i < Size(n)
  {
    MulLeq(j, w - 1, w);
    MulLeq(w, Width(n), w);
    MulLeq(Width(n), Width(n), w);
  }

  /** A uniform velocity field reads the same through either lookup, as
      long as the scaled grid fits in the buffer (vel_N < N + 1). */
  lemma UniformVelocityLookup(n: nat, velN: real, uv: seq<Cell>, u: Cell, k: nat)
    requires n > 1 && |uv| == Size(n) && k < Size(n) && InteriorAt(n, k)
    requires velN < (n + 1) as real
    requires forall m :: 0 <= m < |uv| ==> uv[m] == u
    ensures VelocityAt(n, velN, uv, k) == u
  {
    if Scaled(n, velN) {
      var ax, ay := ScaledAxis(n, velN, Col(n, k)), ScaledAxis(n, velN, Row(n, k));
      var w := U32(velN + 2.0);
      TapInBuffer(n, w, ax.i0, ay.i0); TapInBuffer(n, w, ax.i1, ay.i0);
      TapInBuffer(n, w, ax.i0, ay.i1); TapInBuffer(n, w, ax.i1, ay.i1);
      MixSame(u.x, ax.s1); MixSame(u.y, ax.s1); MixSame(u.z, ax.s1); MixSame(u.w, ax.s1);
      assert Mix(u, u, ax.s1) == u;
      MixSame(u.x, ay.s1); MixSame(u.y, ay.s1); MixSame(u.z, ay.s1); MixSame(u.w, ay.s1);
    }
  }

  /** With 0 < vel_N < 1 the lookup lays a grid two cells wide over the
      buffer: every interior cell past the first row and column reads its
      velocity from the cells 0 .. 3, which lie on the bottom ring row,
      whatever the interior velocity is. */
  lemma FractionalGridReadsRing(n: nat, velN: real, uv: seq<Cell>, k: nat)
    requires n > 1 && 0.0 < velN < 1.0 && |uv| == Size(n) && k < Size(n) && InteriorAt(n, k)
    requires Col(n, k) > 1 && Row(n, k) > 1
    ensures var tx, ty := ScaledPosition(n, velN, Col(n, k)), ScaledPosition(n, velN, Row(n, k));
      VelocityAt(n, velN, uv, k) == Mix(Mix(uv[0], uv[1], tx), Mix(uv[2], uv[3], tx), ty)
    ensures forall m :: 0 <= m < 4 ==> Row(n, m) == 0
  {
    var ax, ay := ScaledAxis(n, velN, Col(n, k)), ScaledAxis(n, velN, Row(n, k));
    assert U32(velN + 2.0) == 2;
    TapInBuffer(n, 2, 1, 1);
  }

  /** Stam's nested bilinear form over the taps a = (i0, j0), b = (i0, j1),
      c = (i1, j0), d = (i1, j1). */
  function StamCell(sx: Axis, sy: Axis, a: Cell, b: Cell, c: Cell, d: Cell): Cell
  {
    Cell(Lerp2(sx.s0, sx.s1, sy.s0, sy.s1, a.x, b.x, c.x, d.x),
         Lerp2(sx.s0, sx.s1, sy.s0, sy.s1, a.y, b.y, c.y, d.y),
         Lerp2(sx.s0, sx.s1, sy.s0, sy.s1, a.z, b.z, c.z, d.z),
         Lerp2(sx.s0, sx.s1, sy.s0, sy.s1, a.w, b.w, c.w, d.w))
  }

  /** Unweighted-by-obstacles bilinear sample of d0 at the stencil
      (sx.i0..sx.i1) x (sy.i0..sy.i1). */
  function StamSample(n: nat, d0: seq<Cell>, sx: Axis, sy: Axis): Cell
    requires |d0| == Size(n)
    requires 0 <= sx.i0 < Width(n) && 0 <= sx.i1 < Width(n) && 0 <= sy.i0 < Width(n) && 0 <= sy.i1 < Width(n)
  {
    StamCell(sx, sy, At(n, d0, sx.i0, sy.i0), At(n, d0, sx.i0, sy.i1),
                     At(n, d0, sx.i1, sy.i0), At(n, d0, sx.i1, sy.i1))
  }

  /** `advect` at interior cell k: trace back by dt0 times the looked-up
      velocity, sample d0 bilinearly, and multiply by `decay` (the kernel's
      viscosity slot) only when b = 0. */
  function AdvectAt(n: nat, velN: real, dt0: real, decay: real, b: nat,
                    d0: seq<Cell>, uv: seq<Cell>, k: nat): Cell
    requires n > 1 && |d0| == Size(n) && |uv| == Size(n) && k < Size(n) && InteriorAt(n, k)
  {
    var vel := VelocityAt(n, velN, uv, k);
    var r := StamSample(n, d0, Backtrace(n, Col(n, k) as real, vel.x, dt0),
                               Backtrace(n, Row(n, k) as real, vel.y, dt0));
    if b == 0 then Scale(decay, r) else r
  }

  function AdvectPass(n: nat, velN: real, dt0: real, decay: real, b: nat,
                      d: seq<Cell>, d0: seq<Cell>, uv: seq<Cell>): (r: seq<Cell>)
    requires n > 1 && |d| == Size(n) && |d0| == Size(n) && |uv| == Size(n)
    ensures |r| == Size(n)
  {
    seq(Size(n), k requires 0 <= k < Size(n) =>
      if InteriorAt(n, k) then AdvectAt(n, velN, dt0, decay, b, d0, uv, k) else d[k])
  }

  /** The kernel's dt0 = dt * N. */
  method Advect(n: nat, velN: real, dt: real, decay: real, b: nat,
                d: array<Cell>, d0: array<Cell>, uv: array<Cell>)
    requires Dispatchable(n) && d.Length == Size(n) && d0.Length == Size(n)
    requires uv.Length == Size(n)
    requires d != d0 && d != uv
    modifies d
    ensures d[..] == AdvectPass(n, velN, dt * n as real, decay, b, old(d[..]), d0[..], uv[..])
  {
    var dt0 := dt * n as real;
    var k := 0;
    while k < d.Length
      invariant 0 <= k <= d.Length
      invariant forall m :: 0 <= m < k ==> d[m] == AdvectPass(n, velN, dt0, decay, b, old(d[..]), d0[..], uv[..])[m]
      invariant forall m :: k <= m < d.Length ==> d[m] == old(d[m])
    {
      if InteriorAt(n, k) {
        d[k] := AdvectAt(n, velN, dt0, decay, b, d0[..], uv[..], k);
      }
      k := k + 1;
    }
  }

  /** With zero velocity at a cell of the same-resolution grid the cell keeps
      its previous value, multiplied by the decay exactly when b = 0. */
  lemma AdvectStill(n: nat, velN: real, dt0: real, decay: real, b: nat,
                    d: seq<Cell>, d0: seq<Cell>, uv: seq<Cell>, k: nat)
    requires n > 1 && !Scaled(n, velN) && |d| == Size(n) && |d0| == Size(n) && |uv| == Size(n)
    requires k < Size(n) && InteriorAt(n, k) && uv[k].x == 0.0 && uv[k].y == 0.0
    ensures AdvectPass(n, velN, dt0, decay, b, d, d0, uv)[k] == if b == 0 then Scale(decay, d0[k]) else d0[k]
  {
    var i, j := Col(n, k), Row(n, k);
    IndexOf(n, k);
    StillBacktrace(n, i, dt0);
    StillBacktrace(n, j, dt0);
    var sx, sy := Axis(i, i + 1, 1.0, 0.0), Axis(j, j + 1, 1.0, 0.0);
    CoordsOf(n, i, j);
    assert StamSample(n, d0, sx, sy) == d0[k];
  }

  /** Velocity (b != 0) is never decayed; density (b = 0) is the undecayed
      sample times the decay factor. */
  lemma DecayOnlyDensity(n: nat, velN: real, dt0: real, decay: real, b: nat,
                         d: seq<Cell>, d0: seq<Cell>, uv: seq<Cell>, k: nat)
    requires n > 1 && |d| == Size(n) && |d0| == Size(n) && |uv| == Size(n) && k < Size(n) && InteriorAt(n, k)
    ensures b != 0 ==> AdvectPass(n, velN, dt0, decay, b, d, d0, uv)[k] == AdvectPass(n, velN, dt0, 1.0, 1, d, d0, uv)[k]
    ensures b == 0 ==> AdvectPass(n, velN, dt0, decay, b, d, d0, uv)[k] == Scale(decay, AdvectPass(n, velN, dt0, decay, 1, d, d0, uv)[k])
  {
  }

  /** A decay factor of 0 clears every interior density cell, whatever the
      flow. */
  lemma ZeroDecayClearsDensity(n: nat, velN: real, dt0: real, d: seq<Cell>, d0: seq<Cell>, uv: seq<Cell>, k: nat)
    requires n > 1 && |d| == Size(n) && |d0| == Size(n) && |uv| == Size(n) && k < Size(n) && InteriorAt(n, k)
    ensures AdvectPass(n, velN, dt0, 0.0, 0, d, d0, uv)[k] == Zero
  {
  }

  /** Advection with weights that sum to one never leaves the range of d0;
      with a decay in [0, 1] neither does damped density when the range
      contains 0. */
  lemma AdvectBounded(n: nat, velN: real, dt0: real, decay: real, b: nat,
                      d: seq<Cell>, d0: seq<Cell>, uv: seq<Cell>, lo: real, hi: real, k: nat)
    requires n > 1 && |d| == Size(n) && |d0| == Size(n) && |uv| == Size(n) && k < Size(n) && InteriorAt(n, k)
    requires forall m :: 0 <= m < Size(n) ==> Bounded(d0[m], lo, hi)
    requires b == 0 ==> 0.0 <= decay <= 1.0 && lo <= 0.0 <= hi
    ensures Bounded(AdvectPass(n, velN, dt0, decay, b, d, d0, uv)[k], lo, hi)
  {
    var vel := VelocityAt(n, velN, uv, k);
    var sx := Backtrace(n, Col(n, k) as real, vel.x, dt0);
    var sy := Backtrace(n, Row(n, k) as real, vel.y, dt0);
    StamSampleBounded(n, d0, sx, sy, lo, hi);
    if b == 0 {
      DampCellBounded(decay, StamSample(n, d0, sx, sy), lo, hi);
    }
  }

  lemma DampCellBounded(f: real, c: Cell, lo: real, hi: real)
    requires 0.0 <= f <= 1.0 && lo <= 0.0 <= hi && Bounded(c, lo, hi)
    ensures Bounded(Scale(f, c), lo, hi)
  {
    DampBounded(f, c.x, lo, hi);
    DampBounded(f, c.y, lo, hi);
    DampBounded(f, c.z, lo, hi);
    DampBounded(f, c.w, lo, hi);
  }

  lemma StamSampleBounded(n: nat, d0: seq<Cell>, sx: Axis, sy: Axis, lo: real, hi: real)
    requires |d0| == Size(n) && ValidAxis(sx) && ValidAxis(sy)
    requires 0 <= sx.i0 < Width(n) && 0 <= sx.i1 < Width(n) && 0 <= sy.i0 < Width(n) && 0 <= sy.i1 < Width(n)
    requires forall m :: 0 <= m < Size(n) ==> Bounded(d0[m], lo, hi)
    ensures Bounded(StamSample(n, d0, sx, sy), lo, hi)
  {
    CoordsOf(n, sx.i0, sy.i0); CoordsOf(n, sx.i1, sy.i0);
    CoordsOf(n, sx.i0, sy.i1); CoordsOf(n, sx.i1, sy.i1);
    StamCellBounded(sx, sy, At(n, d0, sx.i0, sy.i0), At(n, d0, sx.i0, sy.i1),
                            At(n, d0, sx.i1, sy.i0), At(n, d0, sx.i1, sy.i1), lo, hi);
  }

  lemma StamCellBounded(sx: Axis, sy: Axis, a: Cell, b: Cell, c: Cell, d: Cell, lo: real, hi: real)
    requires ValidAxis(sx) && ValidAxis(sy)
    requires Bounded(a, lo, hi) && Bounded(b, lo, hi) && Bounded(c, lo, hi) && Bounded(d, lo, hi)
    ensures Bounded(StamCell(sx, sy, a, b, c, d), lo, hi)
  {
    Lerp2Bounded(sx.s0, sx.s1, sy.s0, sy.s1, a.x, b.x, c.x, d.x, lo, hi);
    Lerp2Bounded(sx.s0, sx.s1, sy.s0, sy.s1, a.y, b.y, c.y, d.y, lo, hi);
    Lerp2Bounded(sx.s0, sx.s1, sy.s0, sy.s1, a.z, b.z, c.z, d.z, lo, hi);
    Lerp2Bounded(sx.s0, sx.s1, sy.s0, sy.s1, a.w, b.w, c.w, d.w, lo, hi);
  }

  /** Stam's nested form is the renormalised blend of shaders.js when no
      tap is an obstacle: on a same-resolution grid with no obstacle, the
      velocity advection (b != 0) of both revisions agrees. */
  lemma AdvectionsAgree(n: nat, velN: real, dt0: real, b: nat,
                        d0: seq<Cell>, uv: seq<Cell>, obs: seq<real>, k: nat)
    requires n > 1 && !Scaled(n, velN) && b != 0
    requires |d0| == Size(n) && |uv| == Size(n) && |obs| == Size(n) && k < Size(n) && InteriorAt(n, k)
    requires forall m :: 0 <= m < Size(n) ==> !Root.Solid(obs[m])
    ensures forall decay :: Root.AdvectAt(n, dt0, d0, uv, obs, k) == AdvectAt(n, velN, dt0, decay, b, d0, uv, k)
  {
    var sx := Backtrace(n, Col(n, k) as real, uv[k].x, dt0);
    var sy := Backtrace(n, Row(n, k) as real, uv[k].y, dt0);
    BlendIsStam(n, d0, obs, sx, sy);
  }

  lemma BlendIsStam(n: nat, d0: seq<Cell>, obs: seq<real>, sx: Axis, sy: Axis)
    requires |d0| == Size(n) && |obs| == Size(n) && ValidAxis(sx) && ValidAxis(sy)
    requires 0 <= sx.i0 < Width(n) && 0 <= sx.i1 < Width(n) && 0 <= sy.i0 < Width(n) && 0 <= sy.i1 < Width(n)
    requires forall m :: 0 <= m < Size(n) ==> !Root.Solid(obs[m])
    ensures Root.Sample(n, d0, obs, sx, sy) == StamSample(n, d0, sx, sy)
  {
    CoordsOf(n, sx.i0, sy.i0); CoordsOf(n, sx.i1, sy.i0);
    CoordsOf(n, sx.i0, sy.i1); CoordsOf(n, sx.i1, sy.i1);
    var w := Weights(sx, sy);
    assert Root.Sample(n, d0, obs, sx, sy)
        == Root.Blend(w.0, w.1, w.2, w.3, At(n, d0, sx.i0, sy.i0), At(n, d0, sx.i1, sy.i0),
                      At(n, d0, sx.i0, sy.i1), At(n, d0, sx.i1, sy.i1));
    BlendIsStamCell(sx, sy, At(n, d0, sx.i0, sy.i0), At(n, d0, sx.i0, sy.i1),
                            At(n, d0, sx.i1, sy.i0), At(n, d0, sx.i1, sy.i1));
  }

  /** The renormalised blend over the product weights, with every weight
      kept, is Stam's nested form. */
  lemma BlendIsStamCell(sx: Axis, sy: Axis, a: Cell, b: Cell, c: Cell, d: Cell)
    requires ValidAxis(sx) && ValidAxis(sy)
    ensures var w := Weights(sx, sy);
      Root.Blend(w.0, w.1, w.2, w.3, a, c, b, d) == StamCell(sx, sy, a, b, c, d)
  {
    var w := Weights(sx, sy);
    assert w.0 == sx.s0 * sy.s0 && w.1 == sx.s1 * sy.s0;
    assert w.2 == sx.s0 * sy.s1 && w.3 == sx.s1 * sy.s1;
    BlendChannel(sx, sy, a.x, b.x, c.x, d.x);
    BlendChannel(sx, sy, a.y, b.y, c.y, d.y);
    BlendChannel(sx, sy, a.z, b.z, c.z, d.z);
    BlendChannel(sx, sy, a.w, b.w, c.w, d.w);
  }

  lemma BlendChannel(sx: Axis, sy: Axis, a: real, b: real, c: real, d: real)
    requires ValidAxis(sx) && ValidAxis(sy)
    ensures Mean4(sx.s0 * sy.s0, sx.s1 * sy.s0, sx.s0 * sy.s1, sx.s1 * sy.s1, a, c, b, d)
         == Lerp2(sx.s0, sx.s1, sy.s0, sy.s1, a, b, c, d)
  {
    MeanIsLerp2(sx.s0, sx.s1, sy.s0, sy.s1, a, b, c, d);
  }

  // ----------------------------------------------------------------- vorticity

  /** Curl at interior cell k by central differences divided by 2h, h = 1/N. */
  function CurlAt(n: nat, v: seq<Cell>, k: nat): real
    requires n > 0 && |v| == Size(n) && k < Size(n) && InteriorAt(n, k)
  {
    Neighbours(n, k);
    var w := Width(n);
    CurlOf(n, v[k - 1], v[k + 1], v[k - w], v[k + w])
  }

  function CurlOf(n: nat, l: Cell, r: Cell, bt: Cell, tp: Cell): real
    requires n > 0
  {
    var h := 1.0 / n as real;
    var dudy := (tp.x - bt.x) / (2.0 * h);
    var dvdx := (r.y - l.y) / (2.0 * h);
    dvdx - dudy
  }

  /** `vorticity`: the curl into the x channel of every interior cell of the
      curl field (the kernel's guard skips every other thread). */
  function CurlPass(n: nat, v: seq<Cell>, vort: seq<Cell>): (r: seq<Cell>)
    requires n > 0 && |v| == Size(n) && |vort| == Size(n)
    ensures |r| == Size(n)
  {
    seq(Size(n), k requires 0 <= k < Size(n) =>
      if InteriorAt(n, k) then vort[k].(x := CurlAt(n, v, k)) else vort[k])
  }

  method Vorticity(n: nat, vort: array<Cell>, uv: array<Cell>)
    requires n > 0 && vort.Length == Size(n) && uv.Length == Size(n) && vort != uv
    modifies vort
    ensures vort[..] == CurlPass(n, uv[..], old(vort[..]))
  {
    var k := 0;
    while k < vort.Length
      invariant 0 <= k <= vort.Length
      invariant forall m :: 0 <= m < k ==> vort[m] == CurlPass(n, uv[..], old(vort[..]))[m]
      invariant forall m :: k <= m < vort.Length ==> vort[m] == old(vort[m])
    {
      if InteriorAt(n, k) {
        vort[k] := vort[k].(x := CurlAt(n, uv[..], k));
      }
      k := k + 1;
    }
  }

  /** This revision's curl is N times that of shaders.js, which omits the
      1/h factor. */
  lemma CurlScaledByN(n: nat, v: seq<Cell>, k: nat)
    requires n > 0 && |v| == Size(n) && k < Size(n) && InteriorAt(n, k)
    ensures CurlAt(n, v, k) == (n as real) * Root.CurlAt(n, v, k)
  {
    Neighbours(n, k);
    var w := Width(n);
    CurlOfScaled(n, v[k - 1], v[k + 1], v[k - w], v[k + w]);
  }

  lemma CurlOfScaled(n: nat, l: Cell, r: Cell, bt: Cell, tp: Cell)
    requires n > 0
    ensures CurlOf(n, l, r, bt, tp) == (n as real) * Root.CurlOf(l, r, bt, tp)
  {
    HalfStepQuotient(n as real, r.y - l.y, tp.x - bt.x);
  }

  // ------------------------------------------------------------------- gravity

  /** `gravity`: the y velocity of every interior cell lowered by
      g * dt * 0.3, where g sits in the viscosity slot. */
  function GravityPass(n: nat, g: real, dt: real, uv: seq<Cell>): (r: seq<Cell>)
    requires |uv| == Size(n)
    ensures |r| == Size(n)
  {
    seq(Size(n), k requires 0 <= k < Size(n) =>
      if InteriorAt(n, k) then uv[k].(y := uv[k].y - g * dt * 0.3) else uv[k])
  }

  method Gravity(n: nat, g: real, dt: real, uv: array<Cell>)
    requires n > 0 && uv.Length == Size(n)
    modifies uv
    ensures uv[..] == GravityPass(n, g, dt, old(uv[..]))
  {
    var k := 0;
    while k < uv.Length
      invariant 0 <= k <= uv.Length
      invariant forall m :: 0 <= m < k ==> uv[m] == GravityPass(n, g, dt, old(uv[..]))[m]
      invariant forall m :: k <= m < uv.Length ==> uv[m] == old(uv[m])
    {
      if InteriorAt(n, k) {
        uv[k] := uv[k].(y := uv[k].y - g * dt * 0.3);
      }
      k := k + 1;
    }
  }

  /** Two gravity passes are one pass with the strengths added; zero
      strength changes nothing. */
  lemma GravityComposes(n: nat, g1: real, g2: real, dt: real, uv: seq<Cell>)
    requires |uv| == Size(n)
    ensures GravityPass(n, g2, dt, GravityPass(n, g1, dt, uv)) == GravityPass(n, g1 + g2, dt, uv)
    ensures GravityPass(n, 0.0, dt, uv) == uv
  {
    forall k | 0 <= k < Size(n) && InteriorAt(n, k)
      ensures GravityPass(n, g2, dt, GravityPass(n, g1, dt, uv))[k] == GravityPass(n, g1 + g2, dt, uv)[k]
    {
      DecrementsAdd(uv[k].y, g1, g2, dt);
    }
  }
}
