/** The compute kernels of the root solver (shaders.js). Each kernel is a
    per-cell function `...At`, a whole-dispatch function `...Pass` giving the
    field after the dispatch, and a method that runs the dispatch as a loop
    over the flat buffer. All invocations of one dispatch read the buffers as
    they were when the dispatch started, with one exception: the boundary
    kernel's corner invocations race with its edge invocations on the GPU,
    and the model takes the order in which the corners read the ring after
    the edges are written. */
module Shaders {
  import opened Grid
  import opened Sampling
  import opened Arith

  /** A cell is solid when the x channel of its obstacle entry exceeds 0.5. */
  predicate Solid(o: real) { o > 0.5 }

  /** The obstacle mask marks cell (i, j) solid. */
  predicate SolidAt(n: nat, obs: seq<real>, i: nat, j: nat)
    requires |obs| == Size(n) && i < Width(n) && j < Width(n)
  {
    CoordsOf(n, i, j);
    Solid(obs[IX(n, i, j)])
  }

  /** `length(mouse - (i, j)) < radius`, without the square root: a length is
      never negative, so it is below radius iff radius is positive and the
      squared length is below radius squared. */
  predicate WithinRadius(mx: real, my: real, i: nat, j: nat, radius: real) {
    var dx, dy := mx - i as real, my - j as real;
    radius > 0.0 && dx * dx + dy * dy < radius * radius
  }

  // ---------------------------------------------------------------- addDensity

  /** Interior cell after `addDensity`: the input copied, plus the source
      colour when the cell is not an obstacle (x channel below 0.5) and lies
      within the brush radius of the mouse. */
  function InjectAt(n: nat, mx: real, my: real, color: Cell, radius: real,
                    sIn: seq<Cell>, obs: seq<real>, k: nat): Cell
    requires |sIn| == Size(n) && |obs| == Size(n) && k < Size(n)
  {
    if obs[k] < 0.5 && WithinRadius(mx, my, Col(n, k), Row(n, k), radius)
    then Add(sIn[k], color) else sIn[k]
  }

  function InjectPass(n: nat, mx: real, my: real, color: Cell, radius: real,
                      sIn: seq<Cell>, sOut: seq<Cell>, obs: seq<real>): (r: seq<Cell>)
    requires |sIn| == Size(n) && |sOut| == Size(n) && |obs| == Size(n)
    ensures |r| == Size(n)
  {
    seq(Size(n), k requires 0 <= k < Size(n) =>
      if InteriorAt(n, k) then InjectAt(n, mx, my, color, radius, sIn, obs, k) else sOut[k])
  }

  method AddDensity(n: nat, mx: real, my: real, color: Cell, radius: real,
                    stateOut: array<Cell>, stateIn: array<Cell>, obstacles: array<real>)
    requires Dispatchable(n)
    requires stateOut.Length == Size(n) && stateIn.Length == Size(n) && obstacles.Length == Size(n)
    requires stateOut != stateIn
    modifies stateOut
    ensures stateOut[..] == InjectPass(n, mx, my, color, radius, stateIn[..], old(stateOut[..]), obstacles[..])
  {
    ghost var p := InjectPass(n, mx, my, color, radius, stateIn[..], stateOut[..], obstacles[..]);
    var k := 0;
    while k < stateOut.Length
      invariant 0 <= k <= stateOut.Length
      invariant forall m :: 0 <= m < k ==> stateOut[m] == p[m]
      invariant forall m :: k <= m < stateOut.Length ==> stateOut[m] == old(stateOut[m])
    {
      if InteriorAt(n, k) {
        stateOut[k] := InjectAt(n, mx, my, color, radius, stateIn[..], obstacles[..], k);
      }
      k := k + 1;
    }
  }

  /** With a non-zero colour, an interior cell receives the colour exactly
      when it is fluid and inside the brush; otherwise it is a copy. */
  lemma InjectExactlyWithin(n: nat, mx: real, my: real, color: Cell, radius: real,
                            sIn: seq<Cell>, sOut: seq<Cell>, obs: seq<real>, k: nat)
    requires |sIn| == Size(n) && |sOut| == Size(n) && |obs| == Size(n)
    requires k < Size(n) && InteriorAt(n, k) && color != Zero
    ensures var r := InjectPass(n, mx, my, color, radius, sIn, sOut, obs);
      && (r[k] == Add(sIn[k], color) <==> obs[k] < 0.5 && WithinRadius(mx, my, Col(n, k), Row(n, k), radius))
      && (r[k] == sIn[k] <==> !(obs[k] < 0.5 && WithinRadius(mx, my, Col(n, k), Row(n, k), radius)))
  {
    var c, r := sIn[k], Add(sIn[k], color);
    assert color == Cell(r.x - c.x, r.y - c.y, r.z - c.z, r.w - c.w);
  }

  // --------------------------------------------------------------- setBoundary

  /** Ring cell copied from its interior neighbour, the wall-normal component
      negated for velocity fields (b != 0). */
  function WallX(b: nat, c: Cell): Cell { if b == 0 then c else NegX(c) }

  function WallY(b: nat, c: Cell): Cell { if b == 0 then c else NegY(c) }

  /** First phase of `setBoundary`: corners untouched, solid non-corner cells
      zeroed, fluid ring cells copied (reflected) from the adjacent interior
      cell, fluid interior cells untouched. */
  function EdgeAt(n: nat, b: nat, s: seq<Cell>, obs: seq<real>, k: nat): Cell
    requires n > 0 && |s| == Size(n) && |obs| == Size(n) && k < Size(n)
  {
    IndexOf(n, k);
    var i, j := Col(n, k), Row(n, k);
    if IsCorner(n, i, j) then s[k]
    else if Solid(obs[k]) then Zero
    else if i == 0 then WallX(b, At(n, s, 1, j))
    else if i == n + 1 then WallX(b, At(n, s, n, j))
    else if j == 0 then WallY(b, At(n, s, i, 1))
    else if j == n + 1 then WallY(b, At(n, s, i, n))
    else s[k]
  }

  function EdgePhase(n: nat, b: nat, s: seq<Cell>, obs: seq<real>): (e: seq<Cell>)
    requires n > 0 && |s| == Size(n) && |obs| == Size(n)
    ensures |e| == Size(n)
  {
    seq(Size(n), k requires 0 <= k < Size(n) => EdgeAt(n, b, s, obs, k))
  }

  function BoundaryPass(n: nat, b: nat, s: seq<Cell>, obs: seq<real>): (r: seq<Cell>)
    requires n > 0 && |s| == Size(n) && |obs| == Size(n)
    ensures |r| == Size(n)
  {
    CornerPhase(n, EdgePhase(n, b, s, obs))
  }

  method SetBoundary(n: nat, b: nat, arr: array<Cell>, obstacles: array<real>)
    requires n > 0 && arr.Length == Size(n) && obstacles.Length == Size(n)
    modifies arr
    ensures arr[..] == BoundaryPass(n, b, old(arr[..]), obstacles[..])
  {
    var s := arr[..];
    var k := 0;
    while k < arr.Length
      invariant 0 <= k <= arr.Length
      invariant forall m :: 0 <= m < k ==> arr[m] == EdgeAt(n, b, s, obstacles[..], m)
      invariant forall m :: k <= m < arr.Length ==> arr[m] == s[m]
    {
      arr[k] := EdgeAt(n, b, s, obstacles[..], k);
      k := k + 1;
    }
    ghost var e := arr[..];
    assert e == EdgePhase(n, b, s, obstacles[..]);
    CoordsOf(n, 0, 0); CoordsOf(n, 0, n + 1); CoordsOf(n, n + 1, 0); CoordsOf(n, n + 1, n + 1);
    CoordsOf(n, 1, 0); CoordsOf(n, 0, 1); CoordsOf(n, 1, n + 1); CoordsOf(n, 0, n);
    CoordsOf(n, n, 0); CoordsOf(n, n + 1, 1); CoordsOf(n, n, n + 1); CoordsOf(n, n + 1, n);
    NotCorner(n, 1, 0); NotCorner(n, 0, 1);
    NotCorner(n, 1, n + 1); NotCorner(n, 0, n);
    NotCorner(n, n, 0); NotCorner(n, n + 1, 1);
    NotCorner(n, n, n + 1); NotCorner(n, n + 1, n);
    var w := Width(n);
    arr[IX(n, 0, 0)] := Avg(arr[IX(n, 1, 0)], arr[IX(n, 0, 1)]);
    arr[IX(n, 0, n + 1)] := Avg(arr[IX(n, 1, n + 1)], arr[IX(n, 0, n)]);
    arr[IX(n, n + 1, 0)] := Avg(arr[IX(n, n, 0)], arr[IX(n, n + 1, 1)]);
    arr[IX(n, n + 1, n + 1)] := Avg(arr[IX(n, n, n + 1)], arr[IX(n, n + 1, n)]);
    assert arr[..] == CornerPhase(n, e);
  }

  /** The fluid ring cells of the boundary result: copies of the adjacent
      interior cell, with x negated on the left and right walls and y negated
      on the bottom and top walls when b != 0. */
  lemma BoundaryWalls(n: nat, b: nat, s: seq<Cell>, obs: seq<real>, t: nat)
    requires n > 0 && |s| == Size(n) && |obs| == Size(n) && 1 <= t <= n
    ensures var r := BoundaryPass(n, b, s, obs);
      && (!SolidAt(n, obs, 0, t) ==> At(n, r, 0, t) == WallX(b, At(n, s, 1, t)))
      && (!SolidAt(n, obs, n + 1, t) ==> At(n, r, n + 1, t) == WallX(b, At(n, s, n, t)))
      && (!SolidAt(n, obs, t, 0) ==> At(n, r, t, 0) == WallY(b, At(n, s, t, 1)))
      && (!SolidAt(n, obs, t, n + 1) ==> At(n, r, t, n + 1) == WallY(b, At(n, s, t, n)))
  {
    var e := EdgePhase(n, b, s, obs);
    CornerRule(n, e);
    CoordsOf(n, 0, t); CoordsOf(n, n + 1, t); CoordsOf(n, t, 0); CoordsOf(n, t, n + 1);
  }

  /** Every solid non-corner cell reads zero after the boundary pass, and
      every fluid interior cell keeps its value. */
  lemma BoundaryCells(n: nat, b: nat, s: seq<Cell>, obs: seq<real>, i: nat, j: nat)
    requires n > 0 && |s| == Size(n) && |obs| == Size(n)
    requires i < Width(n) && j < Width(n) && !IsCorner(n, i, j)
    ensures SolidAt(n, obs, i, j) ==> At(n, BoundaryPass(n, b, s, obs), i, j) == Zero
    ensures Interior(n, i, j) && !SolidAt(n, obs, i, j) ==> At(n, BoundaryPass(n, b, s, obs), i, j) == At(n, s, i, j)
  {
    CornerRule(n, EdgePhase(n, b, s, obs));
    CoordsOf(n, i, j);
  }

  /** Every corner of the boundary result is the average of its two
      axis-adjacent ring cells of that same result. */
  lemma BoundaryCorners(n: nat, b: nat, s: seq<Cell>, obs: seq<real>)
    requires n > 0 && |s| == Size(n) && |obs| == Size(n)
    ensures var r := BoundaryPass(n, b, s, obs);
      && At(n, r, 0, 0) == Avg(At(n, r, 1, 0), At(n, r, 0, 1))
      && At(n, r, 0, n + 1) == Avg(At(n, r, 1, n + 1), At(n, r, 0, n))
      && At(n, r, n + 1, 0) == Avg(At(n, r, n, 0), At(n, r, n + 1, 1))
      && At(n, r, n + 1, n + 1) == Avg(At(n, r, n, n + 1), At(n, r, n + 1, n))
  {
    CornerRule(n, EdgePhase(n, b, s, obs));
  }

  /** No interior cell is solid. */
  predicate FluidInterior(n: nat, obs: seq<real>)
    requires |obs| == Size(n)
  {
    forall k :: 0 <= k < Size(n) && InteriorAt(n, k) ==> !Solid(obs[k])
  }

  /** With no solid interior cell, applying the boundary pass twice gives the
      same field as applying it once. */
  lemma {:induction false} BoundaryIdempotent(n: nat, b: nat, s: seq<Cell>, obs: seq<real>)
    requires n > 0 && |s| == Size(n) && |obs| == Size(n) && FluidInterior(n, obs)
    ensures BoundaryPass(n, b, BoundaryPass(n, b, s, obs), obs) == BoundaryPass(n, b, s, obs)
  {
    var e1 := EdgePhase(n, b, s, obs);
    var r1 := CornerPhase(n, e1);
    var e2 := EdgePhase(n, b, r1, obs);
    CornerRule(n, e1);
    forall i: nat, j: nat | i < Width(n) && j < Width(n) && !IsCorner(n, i, j)
      ensures At(n, e2, i, j) == At(n, e1, i, j)
    {
      CoordsOf(n, i, j);
      var k := IX(n, i, j);
      assert At(n, e2, i, j) == EdgeAt(n, b, r1, obs, k);
      assert At(n, e1, i, j) == EdgeAt(n, b, s, obs, k);
      if !Solid(obs[k]) {
        if i == 0 || i == n + 1 || j == 0 || j == n + 1 {
          var (ai, aj) := if i == 0 then (1, j) else if i == n + 1 then (n, j)
                          else if j == 0 then (i, 1) else (i, n);
          CoordsOf(n, ai, aj);
          assert InteriorAt(n, IX(n, ai, aj));
          assert At(n, r1, ai, aj) == At(n, e1, ai, aj);
          assert At(n, e1, ai, aj) == EdgeAt(n, b, s, obs, IX(n, ai, aj));
        } else {
          assert InteriorAt(n, k);
        }
      }
    }
    CornerPhaseCongruence(n, e2, e1);
  }

  // ------------------------------------------------------------------- diffuse

  /** The diffusion coefficient a = dt * diff * N * 0.1 of the root kernel. */
  function DiffusionRate(dt: real, diff: real, n: nat): (a: real)
    ensures dt >= 0.0 && diff >= 0.0 ==> a >= 0.0
    ensures dt == 0.0 || diff == 0.0 || n == 0 ==> a == 0.0
  {
    var a := dt * diff * (n as real) * 0.1;
    if dt >= 0.0 && diff >= 0.0 then
      MulNonneg(dt, diff);
      MulNonneg(dt * diff, n as real);
      a
    else a
  }

  function SolidCount(a: real, b: real, c: real, d: real): (r: nat)
    ensures r <= 4
  {
    (if Solid(a) then 1 else 0) + (if Solid(b) then 1 else 0) +
    (if Solid(c) then 1 else 0) + (if Solid(d) then 1 else 0)
  }

  /** The coefficient scaled by the fraction of fluid neighbours. */
  function Adjusted(a: real, count: nat): (r: real)
    requires a >= 0.0 && count <= 4
    ensures 0.0 <= r <= a
    ensures count == 4 ==> r == a
  {
    MulMono(a, count as real, 4.0);
    MulNonneg(a, count as real);
    var p := a * (count as real);
    assert p / 4.0 <= a;
    p / 4.0
  }

  /** One Jacobi step of `diffuse` at interior cell k: solid cells become zero;
      a solid neighbour is replaced by the cell's own previous value and
      lowers the neighbour count, which scales the coefficient; a cell with
      no fluid neighbour keeps its previous value. */
  function DiffuseAt(n: nat, a: real, x: seq<Cell>, x0: seq<Cell>, obs: seq<real>, k: nat): Cell
    requires |x| == Size(n) && |x0| == Size(n) && |obs| == Size(n)
    requires k < Size(n) && InteriorAt(n, k) && a >= 0.0
  {
    Neighbours(n, k);
    var w := Width(n);
    var c := x0[k];
    if Solid(obs[k]) then Zero
    else
      var l := if Solid(obs[k - 1]) then c else x[k - 1];
      var r := if Solid(obs[k + 1]) then c else x[k + 1];
      var bt := if Solid(obs[k - w]) then c else x[k - w];
      var tp := if Solid(obs[k + w]) then c else x[k + w];
      var count := 4 - SolidCount(obs[k - 1], obs[k + 1], obs[k - w], obs[k + w]);
      if count > 0 then RelaxCell(Adjusted(a, count), c, l, r, bt, tp) else c
  }

  function DiffusePass(n: nat, a: real, x: seq<Cell>, x0: seq<Cell>, obs: seq<real>): (r: seq<Cell>)
    requires |x| == Size(n) && |x0| == Size(n) && |obs| == Size(n) && a >= 0.0
    ensures |r| == Size(n)
  {
    seq(Size(n), k requires 0 <= k < Size(n) =>
      if InteriorAt(n, k) then DiffuseAt(n, a, x, x0, obs, k) else x[k])
  }

  method Diffuse(n: nat, dt: real, diff: real, x: array<Cell>, x0: array<Cell>, obstacles: array<real>)
    requires Dispatchable(n) && dt >= 0.0 && diff >= 0.0
    requires x.Length == Size(n) && x0.Length == Size(n) && obstacles.Length == Size(n)
    requires x != x0
    modifies x
    ensures x[..] == DiffusePass(n, DiffusionRate(dt, diff, n), old(x[..]), x0[..], obstacles[..])
  {
    var a := DiffusionRate(dt, diff, n);
    var s := x[..];
    var k := 0;
    while k < x.Length
      invariant 0 <= k <= x.Length
      invariant forall m :: 0 <= m < k ==> x[m] == DiffusePass(n, a, s, x0[..], obstacles[..])[m]
      invariant forall m :: k <= m < x.Length ==> x[m] == s[m]
    {
      if InteriorAt(n, k) {
        x[k] := DiffuseAt(n, a, s, x0[..], obstacles[..], k);
      }
      k := k + 1;
    }
  }

  /** With a zero coefficient a sweep copies the previous field into every
      fluid interior cell and zeroes every solid one; the current contents of
      the interior never matter. */
  lemma DiffuseWithoutDiffusion(n: nat, x: seq<Cell>, x0: seq<Cell>, obs: seq<real>, k: nat)
    requires |x| == Size(n) && |x0| == Size(n) && |obs| == Size(n)
    requires k < Size(n) && InteriorAt(n, k)
    ensures DiffusePass(n, 0.0, x, x0, obs)[k] == if Solid(obs[k]) then Zero else x0[k]
  {
    Neighbours(n, k);
    var c := x0[k];
    if !Solid(obs[k]) {
      var w := Width(n);
      var count := 4 - SolidCount(obs[k - 1], obs[k + 1], obs[k - w], obs[k + w]);
      if count > 0 {
        var l := if Solid(obs[k - 1]) then c else x[k - 1];
        var r := if Solid(obs[k + 1]) then c else x[k + 1];
        var bt := if Solid(obs[k - w]) then c else x[k - w];
        var tp := if Solid(obs[k + w]) then c else x[k + w];
        RelaxCellStill(c, l, r, bt, tp);
      }
    }
  }

  /** A fluid cell all of whose neighbours are solid keeps its previous value
      whatever the coefficient. */
  lemma DiffuseEnclosedCell(n: nat, a: real, x: seq<Cell>, x0: seq<Cell>, obs: seq<real>, k: nat)
    requires |x| == Size(n) && |x0| == Size(n) && |obs| == Size(n) && a >= 0.0
    requires k < Size(n) && InteriorAt(n, k) && !Solid(obs[k])
    requires SolidAt(n, obs, Col(n, k) - 1, Row(n, k)) && SolidAt(n, obs, Col(n, k) + 1, Row(n, k))
    requires SolidAt(n, obs, Col(n, k), Row(n, k) - 1) && SolidAt(n, obs, Col(n, k), Row(n, k) + 1)
    ensures DiffusePass(n, a, x, x0, obs)[k] == x0[k]
  {
    Neighbours(n, k);
  }

  /** Discrete maximum principle: if every cell of both fields lies in
      [lo, hi] and lo <= 0 <= hi, so does every cell of the sweep's result. */
  lemma DiffuseBounded(n: nat, a: real, x: seq<Cell>, x0: seq<Cell>, obs: seq<real>, lo: real, hi: real, k: nat)
    requires |x| == Size(n) && |x0| == Size(n) && |obs| == Size(n) && a >= 0.0
    requires lo <= 0.0 <= hi && k < Size(n)
    requires forall m :: 0 <= m < Size(n) ==> Bounded(x[m], lo, hi) && Bounded(x0[m], lo, hi)
    ensures Bounded(DiffusePass(n, a, x, x0, obs)[k], lo, hi)
  {
    if InteriorAt(n, k) && !Solid(obs[k]) {
      Neighbours(n, k);
      var w := Width(n);
      var c := x0[k];
      var count := 4 - SolidCount(obs[k - 1], obs[k + 1], obs[k - w], obs[k + w]);
      if count > 0 {
        var l := if Solid(obs[k - 1]) then c else x[k - 1];
        var r := if Solid(obs[k + 1]) then c else x[k + 1];
        var bt := if Solid(obs[k - w]) then c else x[k - w];
        var tp := if Solid(obs[k + w]) then c else x[k + w];
        assert Bounded(l, lo, hi) && Bounded(r, lo, hi) && Bounded(bt, lo, hi) && Bounded(tp, lo, hi);
        RelaxCellBounded(Adjusted(a, count), c, l, r, bt, tp, lo, hi);
      }
    }
  }

  // -------------------------------------------------------------------- advect

  /** A bilinear sample tap: an obstacle cell contributes neither value nor
      weight. */
  function TapWeight(obs: seq<real>, idx: nat, w: real): real
    requires idx < |obs|
  {
    if Solid(obs[idx]) then 0.0 else w
  }

  function TapValue(d0: seq<Cell>, obs: seq<real>, idx: nat): Cell
    requires idx < |obs| && |d0| == |obs|
  {
    if Solid(obs[idx]) then Zero else d0[idx]
  }

  /** Weighted sum of four taps divided by the total weight; zero when no
      weight is left. */
  function Blend(w00: real, w10: real, w01: real, w11: real, v00: Cell, v10: Cell, v01: Cell, v11: Cell): Cell
  {
    Cell(Mean4(w00, w10, w01, w11, v00.x, v10.x, v01.x, v11.x),
         Mean4(w00, w10, w01, w11, v00.y, v10.y, v01.y, v11.y),
         Mean4(w00, w10, w01, w11, v00.z, v10.z, v01.z, v11.z),
         Mean4(w00, w10, w01, w11, v00.w, v10.w, v01.w, v11.w))
  }

  /** Renormalised bilinear interpolation of d0 over the fluid taps of the
      2x2 stencil (sx.i0..sx.i1) x (sy.i0..sy.i1). */
  function Sample(n: nat, d0: seq<Cell>, obs: seq<real>, sx: Axis, sy: Axis): Cell
    requires |d0| == Size(n) && |obs| == Size(n) && ValidAxis(sx) && ValidAxis(sy)
    requires 0 <= sx.i0 < Width(n) && 0 <= sx.i1 < Width(n) && 0 <= sy.i0 < Width(n) && 0 <= sy.i1 < Width(n)
  {
    CoordsOf(n, sx.i0, sy.i0); CoordsOf(n, sx.i1, sy.i0);
    CoordsOf(n, sx.i0, sy.i1); CoordsOf(n, sx.i1, sy.i1);
    var i00, i10 := IX(n, sx.i0, sy.i0), IX(n, sx.i1, sy.i0);
    var i01, i11 := IX(n, sx.i0, sy.i1), IX(n, sx.i1, sy.i1);
    var w := Weights(sx, sy);
    Blend(TapWeight(obs, i00, w.0), TapWeight(obs, i10, w.1), TapWeight(obs, i01, w.2), TapWeight(obs, i11, w.3),
          TapValue(d0, obs, i00), TapValue(d0, obs, i10), TapValue(d0, obs, i01), TapValue(d0, obs, i11))
  }

  /** `advect` at interior cell k: solid cells become zero; otherwise trace
      back by dt0 times the cell's velocity and sample d0 there. */
  function AdvectAt(n: nat, dt0: real, d0: seq<Cell>, uv: seq<Cell>, obs: seq<real>, k: nat): Cell
    requires n > 0 && |d0| == Size(n) && |uv| == Size(n) && |obs| == Size(n)
    requires k < Size(n)
  {
    if Solid(obs[k]) then Zero
    else
      Sample(n, d0, obs, Backtrace(n, Col(n, k) as real, uv[k].x, dt0),
                         Backtrace(n, Row(n, k) as real, uv[k].y, dt0))
  }

  function AdvectPass(n: nat, dt0: real, d: seq<Cell>, d0: seq<Cell>, uv: seq<Cell>, obs: seq<real>): (r: seq<Cell>)
    requires n > 0 && |d| == Size(n) && |d0| == Size(n) && |uv| == Size(n) && |obs| == Size(n)
    ensures |r| == Size(n)
  {
    seq(Size(n), k requires 0 <= k < Size(n) =>
      if InteriorAt(n, k) then AdvectAt(n, dt0, d0, uv, obs, k) else d[k])
  }

  /** The kernel's dt0 = dt * N. */
  method Advect(n: nat, dt: real, d: array<Cell>, d0: array<Cell>, uv: array<Cell>, obstacles: array<real>)
    requires Dispatchable(n)
    requires d.Length == Size(n) && d0.Length == Size(n) && uv.Length == Size(n) && obstacles.Length == Size(n)
    requires d != d0 && d != uv
    modifies d
    ensures d[..] == AdvectPass(n, dt * n as real, old(d[..]), d0[..], uv[..], obstacles[..])
  {
    var dt0 := dt * n as real;
    var k := 0;
    while k < d.Length
      invariant 0 <= k <= d.Length
      invariant forall m :: 0 <= m < k ==> d[m] == AdvectPass(n, dt0, old(d[..]), d0[..], uv[..], obstacles[..])[m]
      invariant forall m :: k <= m < d.Length ==> d[m] == old(d[m])
    {
      if InteriorAt(n, k) {
        d[k] := AdvectAt(n, dt0, d0[..], uv[..], obstacles[..], k);
      }
      k := k + 1;
    }
  }

  /** All weight on the first tap: the blend is that tap's value. */
  lemma BlendSingle(v00: Cell, v10: Cell, v01: Cell, v11: Cell)
    ensures Blend(1.0, 0.0, 0.0, 0.0, v00, v10, v01, v11) == v00
  {
  }

  /** A fluid interior cell with zero velocity keeps its previous value. */
  lemma AdvectStill(n: nat, dt0: real, d: seq<Cell>, d0: seq<Cell>, uv: seq<Cell>, obs: seq<real>, k: nat)
    requires n > 0 && |d| == Size(n) && |d0| == Size(n) && |uv| == Size(n) && |obs| == Size(n)
    requires k < Size(n) && InteriorAt(n, k) && !Solid(obs[k])
    requires uv[k].x == 0.0 && uv[k].y == 0.0
    ensures AdvectPass(n, dt0, d, d0, uv, obs)[k] == d0[k]
  {
    var i, j := Col(n, k), Row(n, k);
    IndexOf(n, k);
    StillBacktrace(n, i, dt0);
    StillBacktrace(n, j, dt0);
    var sx, sy := Axis(i, i + 1, 1.0, 0.0), Axis(j, j + 1, 1.0, 0.0);
    CoordsOf(n, i, j); CoordsOf(n, i + 1, j); CoordsOf(n, i, j + 1); CoordsOf(n, i + 1, j + 1);
    var i10, i01, i11 := IX(n, i + 1, j), IX(n, i, j + 1), IX(n, i + 1, j + 1);
    assert Weights(sx, sy) == (1.0, 0.0, 0.0, 0.0);
    assert TapWeight(obs, k, 1.0) == 1.0;
    BlendSingle(d0[k], TapValue(d0, obs, i10), TapValue(d0, obs, i01), TapValue(d0, obs, i11));
    assert Sample(n, d0, obs, sx, sy) == d0[k];
  }

  /** A blend of values within [lo, hi] with non-negative weights lies in
      [lo, hi] (zero, the result when no weight is left, included). */
  lemma BlendBounded(w00: real, w10: real, w01: real, w11: real, v00: Cell, v10: Cell, v01: Cell, v11: Cell,
                     lo: real, hi: real)
    requires 0.0 <= w00 && 0.0 <= w10 && 0.0 <= w01 && 0.0 <= w11 && lo <= 0.0 <= hi
    requires Bounded(v00, lo, hi) && Bounded(v10, lo, hi) && Bounded(v01, lo, hi) && Bounded(v11, lo, hi)
    ensures Bounded(Blend(w00, w10, w01, w11, v00, v10, v01, v11), lo, hi)
  {
    Mean4Bounded(w00, w10, w01, w11, v00.x, v10.x, v01.x, v11.x, lo, hi);
    Mean4Bounded(w00, w10, w01, w11, v00.y, v10.y, v01.y, v11.y, lo, hi);
    Mean4Bounded(w00, w10, w01, w11, v00.z, v10.z, v01.z, v11.z, lo, hi);
    Mean4Bounded(w00, w10, w01, w11, v00.w, v10.w, v01.w, v11.w, lo, hi);
  }

  /** Advection never creates new extremes: if every cell of d0 lies in
      [lo, hi] and lo <= 0 <= hi, so does every advected cell. */
  lemma AdvectBounded(n: nat, dt0: real, d: seq<Cell>, d0: seq<Cell>, uv: seq<Cell>, obs: seq<real>,
                      lo: real, hi: real, k: nat)
    requires n > 0 && |d| == Size(n) && |d0| == Size(n) && |uv| == Size(n) && |obs| == Size(n)
    requires lo <= 0.0 <= hi && k < Size(n) && InteriorAt(n, k)
    requires forall m :: 0 <= m < Size(n) ==> Bounded(d0[m], lo, hi)
    ensures Bounded(AdvectPass(n, dt0, d, d0, uv, obs)[k], lo, hi)
  {
    if !Solid(obs[k]) {
      var sx := Backtrace(n, Col(n, k) as real, uv[k].x, dt0);
      var sy := Backtrace(n, Row(n, k) as real, uv[k].y, dt0);
      SampleBounded(n, d0, obs, sx, sy, lo, hi);
    }
  }

  lemma SampleBounded(n: nat, d0: seq<Cell>, obs: seq<real>, sx: Axis, sy: Axis, lo: real, hi: real)
    requires |d0| == Size(n) && |obs| == Size(n) && lo <= 0.0 <= hi && ValidAxis(sx) && ValidAxis(sy)
    requires 0 <= sx.i0 < Width(n) && 0 <= sx.i1 < Width(n) && 0 <= sy.i0 < Width(n) && 0 <= sy.i1 < Width(n)
    requires forall m :: 0 <= m < Size(n) ==> Bounded(d0[m], lo, hi)
    ensures Bounded(Sample(n, d0, obs, sx, sy), lo, hi)
  {
    CoordsOf(n, sx.i0, sy.i0); CoordsOf(n, sx.i1, sy.i0);
    CoordsOf(n, sx.i0, sy.i1); CoordsOf(n, sx.i1, sy.i1);
    var i00, i10 := IX(n, sx.i0, sy.i0), IX(n, sx.i1, sy.i0);
    var i01, i11 := IX(n, sx.i0, sy.i1), IX(n, sx.i1, sy.i1);
    var w := Weights(sx, sy);
    BlendBounded(TapWeight(obs, i00, w.0), TapWeight(obs, i10, w.1), TapWeight(obs, i01, w.2), TapWeight(obs, i11, w.3),
                 TapValue(d0, obs, i00), TapValue(d0, obs, i10), TapValue(d0, obs, i01), TapValue(d0, obs, i11),
                 lo, hi);
  }

  // ---------------------------------------------------------------------- fade

  /** `fade`: every cell of the grid, ring included, scaled by the factor
      carried in the diffusion uniform. */
  function FadePass(s: seq<Cell>, f: real): (r: seq<Cell>)
    ensures |r| == |s|
  {
    seq(|s|, k requires 0 <= k < |s| => Scale(f, s[k]))
  }

  method Fade(n: nat, factor: real, density: array<Cell>)
    requires density.Length == Size(n)
    modifies density
    ensures density[..] == FadePass(old(density[..]), factor)
  {
    var k := 0;
    while k < density.Length
      invariant 0 <= k <= density.Length
      invariant forall m :: 0 <= m < k ==> density[m] == Scale(factor, old(density[m]))
      invariant forall m :: k <= m < density.Length ==> density[m] == old(density[m])
    {
      density[k] := Scale(factor, density[k]);
      k := k + 1;
    }
  }

  function Norm2(c: Cell): real { Mul(c.x, c.x) + Mul(c.y, c.y) + Mul(c.z, c.z) + Mul(c.w, c.w) }

  /** Squared norm of every cell. */
  function Norms(s: seq<Cell>): (r: seq<real>)
    ensures |r| == |s|
  {
    seq(|s|, k requires 0 <= k < |s| => Norm2(s[k]))
  }

  /** Sum of squared channels over the field. */
  function Energy(s: seq<Cell>): real { Sum(Norms(s)) }

  /** Fading by f scales the field's energy by f * f. */
  lemma FadeEnergy(s: seq<Cell>, f: real)
    ensures Energy(FadePass(s, f)) == f * f * Energy(s)
  {
    forall k | 0 <= k < |s|
      ensures Norms(FadePass(s, f))[k] == ScaleAll(f * f, Norms(s))[k]
    {
      ScaleNorm2(f, s[k]);
    }
    assert Norms(FadePass(s, f)) == ScaleAll(f * f, Norms(s));
    SumScale(f * f, Norms(s));
  }

  lemma ScaleNorm2(f: real, c: Cell)
    ensures Norm2(Scale(f, c)) == Mul(f * f, Norm2(c))
  {
    SquaresScale(f, c.x, c.y, c.z, c.w);
  }

  /** Consecutive fades compose multiplicatively. */
  lemma FadeTwice(s: seq<Cell>, f: real, g: real)
    ensures FadePass(FadePass(s, f), g) == FadePass(s, g * f)
  {
    assert forall k :: 0 <= k < |s| ==> Scale(g, Scale(f, s[k])) == Scale(g * f, s[k]);
  }

  // ----------------------------------------------------------------- vorticity

  /** Curl of the velocity at interior cell k by central differences, each
      taken as half the neighbour difference (no 1/h factor). */
  function CurlAt(n: nat, v: seq<Cell>, k: nat): real
    requires |v| == Size(n) && k < Size(n) && InteriorAt(n, k)
  {
    Neighbours(n, k);
    var w := Width(n);
    CurlOf(v[k - 1], v[k + 1], v[k - w], v[k + w])
  }

  /** dv/dx - du/dy from the left, right, bottom and top neighbours. */
  function CurlOf(l: Cell, r: Cell, bt: Cell, tp: Cell): real
  {
    var dudy := (tp.x - bt.x) * 0.5;
    var dvdx := (r.y - l.y) * 0.5;
    dvdx - dudy
  }

  /** `vorticity`: the curl written into the x channel of each interior cell
      of the curl field; everything else unchanged. */
  function CurlPass(n: nat, v: seq<Cell>, curl: seq<Cell>): (r: seq<Cell>)
    requires |v| == Size(n) && |curl| == Size(n)
    ensures |r| == Size(n)
  {
    seq(Size(n), k requires 0 <= k < Size(n) =>
      if InteriorAt(n, k) then curl[k].(x := CurlAt(n, v, k)) else curl[k])
  }

  method Vorticity(n: nat, velocity: array<Cell>, curl: array<Cell>)
    requires n > 0 && velocity.Length == Size(n) && curl.Length == Size(n) && velocity != curl
    modifies curl
    ensures curl[..] == CurlPass(n, velocity[..], old(curl[..]))
  {
    var k := 0;
    while k < curl.Length
      invariant 0 <= k <= curl.Length
      invariant forall m :: 0 <= m < k ==> curl[m] == CurlPass(n, velocity[..], old(curl[..]))[m]
      invariant forall m :: k <= m < curl.Length ==> curl[m] == old(curl[m])
    {
      if InteriorAt(n, k) {
        curl[k] := curl[k].(x := CurlAt(n, velocity[..], k));
      }
      k := k + 1;
    }
  }

  /** A uniform flow (all four neighbours moving with the same velocity) has
      zero curl, and a solid-body rotation about the cell, u = -c*dy and
      v = c*dx, has curl 2c (twice its angular velocity). */
  lemma CurlOfSimpleFlows(n: nat, v: seq<Cell>, k: nat, c: real)
    requires |v| == Size(n) && k < Size(n) && InteriorAt(n, k)
    ensures var i, j := Col(n, k), Row(n, k);
      ((At(n, v, i + 1, j).y == At(n, v, i - 1, j).y && At(n, v, i, j + 1).x == At(n, v, i, j - 1).x)
         ==> CurlAt(n, v, k) == 0.0) &&
      ((At(n, v, i + 1, j).y == c && At(n, v, i - 1, j).y == -c && At(n, v, i, j + 1).x == -c && At(n, v, i, j - 1).x == c)
         ==> CurlAt(n, v, k) == 2.0 * c)
  {
    Neighbours(n, k);
    var i, j := Col(n, k), Row(n, k);
    CoordsOf(n, i + 1, j); CoordsOf(n, i - 1, j); CoordsOf(n, i, j + 1); CoordsOf(n, i, j - 1);
  }

  // --------------------------------------------------------------- setObstacle

  /** `setObstacle`: the mask value of each interior cell within the brush
      radius becomes `value`. */
  function ObstaclePass(n: nat, mx: real, my: real, value: real, radius: real, obs: seq<real>): (r: seq<real>)
    requires |obs| == Size(n)
    ensures |r| == Size(n)
  {
    seq(Size(n), k requires 0 <= k < Size(n) =>
      if InteriorAt(n, k) && WithinRadius(mx, my, Col(n, k), Row(n, k), radius) then value else obs[k])
  }

  method SetObstacle(n: nat, mx: real, my: real, value: real, radius: real, obstacles: array<real>)
    requires Dispatchable(n) && obstacles.Length == Size(n)
    modifies obstacles
    ensures obstacles[..] == ObstaclePass(n, mx, my, value, radius, old(obstacles[..]))
  {
    var k := 0;
    while k < obstacles.Length
      invariant 0 <= k <= obstacles.Length
      invariant forall m :: 0 <= m < k ==> obstacles[m] == ObstaclePass(n, mx, my, value, radius, old(obstacles[..]))[m]
      invariant forall m :: k <= m < obstacles.Length ==> obstacles[m] == old(obstacles[m])
    {
      if InteriorAt(n, k) && WithinRadius(mx, my, Col(n, k), Row(n, k), radius) {
        obstacles[k] := value;
      }
      k := k + 1;
    }
  }

  /** Painting the same brush twice is painting it once, and a mask whose
      entries are all 0 or 1 stays so when painted with 0 or 1. */
  lemma ObstaclePaint(n: nat, mx: real, my: real, value: real, radius: real, obs: seq<real>)
    requires |obs| == Size(n)
    ensures var r := ObstaclePass(n, mx, my, value, radius, obs);
      ObstaclePass(n, mx, my, value, radius, r) == r
    ensures (value == 0.0 || value == 1.0) && (forall k :: 0 <= k < Size(n) ==> obs[k] == 0.0 || obs[k] == 1.0) ==>
      forall k :: 0 <= k < Size(n) ==> ObstaclePass(n, mx, my, value, radius, obs)[k] in {0.0, 1.0}
  {
  }
}
