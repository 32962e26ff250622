/** The semi-Lagrangian backtrace shared by both advect kernels: step back
    dt0 * velocity from the cell centre, clamp into [0.5, N + 0.5], and split
    the clamped position into an integer cell and bilinear weights. */
module Sampling {
  import opened Arith

  /** One axis of a bilinear sample: the two cells i0, i1 = i0 + 1 and their
      weights s0 (for i0) and s1 (for i1). */
  datatype Axis = Axis(i0: int, i1: int, s0: real, s1: real)

  function Clamp(v: real, lo: real, hi: real): (r: real)
    requires lo <= hi
    ensures lo <= r <= hi
    ensures lo <= v <= hi ==> r == v
  {
    if v < lo then lo else if v > hi then hi else v
  }

  /** Backtrace along one axis from cell coordinate `pos` with velocity
      component `vel`: i0 is the floor of the clamped position (for a
      position of at least 0.5 the kernels' `floor` and `u32` truncation
      agree), s1 its fractional part. */
  function Backtrace(n: nat, pos: real, vel: real, dt0: real): (a: Axis)
    requires n > 0
    ensures 0 <= a.i0 <= n && a.i1 == a.i0 + 1 <= n + 1
    ensures ValidAxis(a) && a.s0 <= 1.0 && a.s1 < 1.0
    ensures a.i0 as real + a.s1 == Clamp(pos - dt0 * vel, 0.5, n as real + 0.5)
  {
    var x := Clamp(pos - dt0 * vel, 0.5, n as real + 0.5);
    var i0 := x.Floor;
    Axis(i0, i0 + 1, 1.0 - (x - i0 as real), x - i0 as real)
  }

  /** With zero velocity a cell coordinate inside [1, N] traces back onto
      itself with all the weight on i0. */
  lemma StillBacktrace(n: nat, pos: nat, dt0: real)
    requires 1 <= pos <= n
    ensures Backtrace(n, pos as real, 0.0, dt0) == Axis(pos, pos + 1, 1.0, 0.0)
  {
    var x := Clamp(pos as real - dt0 * 0.0, 0.5, n as real + 0.5);
    assert x == pos as real;
    assert x.Floor == pos;
  }

  /** An axis whose two weights are non-negative and sum to one. */
  predicate ValidAxis(a: Axis) { 0.0 <= a.s0 && 0.0 <= a.s1 && a.s0 + a.s1 == 1.0 }

  /** The four bilinear weights s_a * t_b of the taps (i0, j0), (i1, j0),
      (i0, j1), (i1, j1): non-negative and summing to one. */
  function Weights(sx: Axis, sy: Axis): (w: (real, real, real, real))
    requires ValidAxis(sx) && ValidAxis(sy)
    ensures 0.0 <= w.0 && 0.0 <= w.1 && 0.0 <= w.2 && 0.0 <= w.3
    ensures w.0 + w.1 + w.2 + w.3 == 1.0
  {
    MulNonneg(sx.s0, sy.s0);
    MulNonneg(sx.s1, sy.s0);
    MulNonneg(sx.s0, sy.s1);
    MulNonneg(sx.s1, sy.s1);
    Distrib2(sy.s0, sx.s0, sx.s1);
    Distrib2(sy.s1, sx.s0, sx.s1);
    (sx.s0 * sy.s0, sx.s1 * sy.s0, sx.s0 * sy.s1, sx.s1 * sy.s1)
  }
}
