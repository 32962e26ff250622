/** The solver driver of the first revision (the FluidSimulation class of
    fluidSimulation.js). It runs the same vel_step and dens_step as the
    later driver, but every pass binds the buffers it is given as
    arguments, the number of relaxation sweeps shrinks with the grid, and
    the density step can fade the dye before diffusing it. Like the later
    driver it is modelled at the level of the commands it gives the queue
    and the Stam-level calls it makes. */
module RootSimulation {
  import opened BindGroups
  import opened Gpu
  import opened Grid
  import Config
  import Root = Shaders
  import Solver

  // ------------------------------------------------------------ iterations

  /** The integer square root. */
  function Isqrt(m: nat): (r: nat)
    ensures r * r <= m < (r + 1) * (r + 1)
  {
    if m == 0 then 0
    else
      var q := Isqrt(m / 4);
      IsqrtStep(m, q);
      if (2 * q + 1) * (2 * q + 1) <= m then 2 * q + 1 else 2 * q
  }

  /** Doubling the root of m / 4 brackets the root of m within two. */
  lemma IsqrtStep(m: nat, q: nat)
    requires q * q <= m / 4 < (q + 1) * (q + 1)
    ensures (2 * q) * (2 * q) <= m < (2 * q + 2) * (2 * q + 2)
  {
    assert (2 * q) * (2 * q) == 4 * (q * q);
    assert (2 * q + 2) * (2 * q + 2) == 4 * ((q + 1) * (q + 1));
    assert m / 4 + 1 <= (q + 1) * (q + 1);
  }

  /** A larger root has a square at least the next square up. */
  lemma SquareGrows(a: nat, b: nat)
    requires a < b
    ensures (a + 1) * (a + 1) <= b * b
  {
    var d := b - (a + 1);
    assert b * b == (a + 1) * (a + 1) + d * (2 * (a + 1) + d);
  }

  /** Squares order their roots: a root of a below the next root of b. */
  lemma RootsOrdered(x: nat, y: nat, a: nat, b: nat)
    requires x * x <= a <= b < (y + 1) * (y + 1)
    ensures x <= y
  {
    if x > y {
      SquareGrows(y, x);
    }
  }

  /** The integer square root is the only root bracketing m. */
  lemma IsqrtUnique(m: nat, r: nat)
    requires r * r <= m < (r + 1) * (r + 1)
    ensures Isqrt(m) == r
  {
    RootsOrdered(Isqrt(m), r, m, m);
    RootsOrdered(r, Isqrt(m), m, m);
  }

  /** The integer square root never decreases. */
  lemma IsqrtMonotone(a: nat, b: nat)
    requires a <= b
    ensures Isqrt(a) <= Isqrt(b)
  {
    RootsOrdered(Isqrt(a), Isqrt(b), a, b);
  }

  lemma MulCancelLt(x: nat, y: nat, c: nat)
    requires c > 0 && x * c < y * c
    ensures x < y
  {
  }

  /** A multiple of n below a bounds the quotient. */
  lemma DivLowerBound(a: nat, n: nat, q: nat)
    requires n > 0 && q * n <= a
    ensures q <= a / n
  {
    assert a == (a / n) * n + a % n;
    assert q * n < (a / n + 1) * n;
    MulCancelLt(q, a / n + 1, n);
  }

  /** Integer division by a larger divisor gives no more. */
  lemma DivAntitone(a: nat, n1: nat, n2: nat)
    requires 0 < n1 <= n2
    ensures a / n2 <= a / n1
  {
    var q := a / n2;
    MulLeq(n1, n2, q);
    assert q * n2 <= a;
    DivLowerBound(a, n1, q);
  }

  /** `max(2, floor(SOLVER_ITERATIONS * sqrt(64 / N)))`: floor(s sqrt(64 / n))
      is the integer square root of floor(64 s^2 / n). */
  function IterationCount(s: nat, n: nat): (k: nat)
    requires n > 0
    ensures k >= 2
    ensures k > 2 ==> k * k <= 64 * s * s / n < (k + 1) * (k + 1)
  {
    var r := Isqrt(64 * s * s / n);
    if r < 2 then 2 else r
  }

  /** With the shipped N = 64 the configured 10 sweeps are kept. */
  lemma IterationCountDefaults()
    ensures IterationCount(Config.Defaults.solverIterations, Config.Defaults.n) == 10
  {
    var s, n := Config.Defaults.solverIterations, Config.Defaults.n;
    assert 64 * s * s / n == 100;
    IsqrtUnique(100, 10);
  }

  /** A finer grid never gets more sweeps. */
  lemma IterationsShrinkWithGrid(s: nat, n1: nat, n2: nat)
    requires 0 < n1 <= n2
    ensures IterationCount(s, n2) <= IterationCount(s, n1)
  {
    DivAntitone(64 * s * s, n1, n2);
    IsqrtMonotone(64 * s * s / n2, 64 * s * s / n1);
  }

  // -------------------------------------------------------------- encoders

  /** addSource binds output and input as given. */
  function AddEnc(out: Role, input: Role): seq<Encoded>
  {
    [Encoded(AddSourceKernel, [out, input])]
  }

  function BoundaryEnc(buffer: Role): Encoded
  {
    Encoded(BoundaryKernel, [buffer])
  }

  function DiffuseEnc(out: Role, input: Role, k: nat): seq<Encoded>
  {
    Sweeps(Encoded(DiffuseKernel, [out, input]), BoundaryEnc(out), k)
  }

  function AdvectEnc(out: Role, input: Role, vel: Role): seq<Encoded>
  {
    [Encoded(AdvectKernel, [out, input, vel]), BoundaryEnc(out)]
  }

  function ProjectEnc(vel: Role, pressure: Role, k: nat): seq<Encoded>
  {
    ProjectEncoded(Encoded(Project1Kernel, [vel, pressure]), Encoded(Project2Kernel, [vel, pressure]),
                   Encoded(Project3Kernel, [vel, pressure]), BoundaryEnc(pressure), BoundaryEnc(vel), k)
  }

  function FadeEnc(buffer: Role): seq<Encoded>
  {
    [Encoded(FadeKernel, [buffer])]
  }

  /** For the arguments the later driver passes, its table lookups bind
      exactly what the first revision binds from the arguments: the
      partner of the output as input, and for a velocity output the
      partner as the field it is moved along. */
  lemma DiffuseBindsAlike(out: Role, k: nat)
    ensures Solver.DiffuseEnc(out, k) == DiffuseEnc(out, Solver.Partner(out), k)
  {
  }

  lemma AddBindsAlike(out: Role)
    ensures Solver.IsDensity(out) ==> Solver.AddEnc(out, true) == AddEnc(out, Solver.Partner(out))
    ensures Solver.IsVelocity(out) ==> Solver.AddEnc(out, false) == AddEnc(out, Solver.Partner(out))
  {
  }

  lemma AdvectBindsAlike(out: Role, vel: Role)
    ensures Solver.IsDensity(out) && Solver.IsVelocity(vel) ==>
      Solver.AdvectEnc(out, vel) == AdvectEnc(out, Solver.Partner(out), vel)
    ensures Solver.IsVelocity(out) ==>
      Solver.AdvectEnc(out, vel) == AdvectEnc(out, Solver.Partner(out), Solver.Partner(out))
  {
  }

  lemma ProjectBindsAlike(vel: Role, k: nat)
    ensures Solver.IsVelocity(vel) ==>
      Solver.ProjectEnc(vel, Solver.Partner(vel), k) == ProjectEnc(vel, Solver.Partner(vel), k)
  {
  }

  // ---------------------------------------------------------------- sources

  /** The dye of frame `step`, given s20 = sin(step / 20), c25 =
      cos(step / 25) and s30 = sin(step / 30): each channel 0.5 + 0.5 times
      its wave, alpha 1, COLOR_RADIUS. */
  function DyeSource(cfg: Config.Settings, s20: real, c25: real, s30: real): (src: Source)
    ensures src.value.3 == 1.0 && src.radius == cfg.colorRadius
    ensures -1.0 <= s20 <= 1.0 && -1.0 <= c25 <= 1.0 && -1.0 <= s30 <= 1.0 ==>
      0.0 <= src.value.0 <= 1.0 && 0.0 <= src.value.1 <= 1.0 && 0.0 <= src.value.2 <= 1.0
  {
    Source((0.5 + 0.5 * s20, 0.5 + 0.5 * c25, 0.5 + 0.5 * s30, 1.0), cfg.colorRadius)
  }

  /** The force: the raw pointer displacement with y turned upward, and
      VELOCITY_RADIUS. */
  function ForceSource(cfg: Config.Settings, p: Config.Pointer): (src: Source)
    ensures src.value.0 == p.x - p.x0 && src.value.1 == p.y0 - p.y
    ensures src.value.2 == 0.0 && src.value.3 == 0.0 && src.radius == cfg.velocityRadius
    ensures !Solver.Moved(p) ==> src.value.0 == 0.0 && src.value.1 == 0.0
  {
    Source((p.x - p.x0, -1.0 * (p.y - p.y0), 0.0, 0.0), cfg.velocityRadius)
  }

  /** The uniforms fade writes: GRID_SIZE twice, FADE in the diffuse slot,
      N, and zero everywhere else. */
  function FadeUniforms(cfg: Config.Settings): (u: Uniforms)
  {
    UniformValues(0.0, 0.0, cfg.gridSize as real, cfg.gridSize as real, cfg.fade, 0.0, cfg.n as real, 0.0, 0.0)
  }

  // ------------------------------------------------------- the Stam calls

  /** dens_step as updateDensity runs it from densityStep `d`: when the
      pointer moved, add the dye into a; when FADE < 1, fade the buffer
      densityStep then names; diffuse from it into the other; advect
      along velocity[vs % 2]. */
  function DensityCalls(d: nat, vs: nat, moved: bool, fade: bool): (cs: seq<Call>)
  {
    var a, o, vel := DensityBuffer((d + 1) % 2), DensityBuffer(d % 2), VelocityBuffer(vs % 2);
    if moved && fade then [AddSourceCall(a, o), FadeCall(o), DiffuseCall(o, a), AdvectCall(a, o, vel)]
    else if moved then [AddSourceCall(a, o), DiffuseCall(o, a), AdvectCall(a, o, vel)]
    else if fade then [FadeCall(a), DiffuseCall(a, o), AdvectCall(o, a, vel)]
    else [DiffuseCall(a, o), AdvectCall(o, a, vel)]
  }

  /** As written, fade scales the buffer diffuse is about to write, not
      the one it reads: the faded field is overwritten, the step is not a
      pipeline, and with the shipped zero diffusion the diffuse result at
      every interior fluid cell is the same with or without the fade. */
  lemma FadeIsOverwritten(d: nat, vs: nat, moved: bool, n: nat, f: real, x: seq<Cell>, x0: seq<Cell>,
                          obs: seq<real>, k: nat)
    requires |x| == Size(n) && |x0| == Size(n) && |obs| == Size(n) && k < Size(n) && InteriorAt(n, k)
    ensures var cs := DensityCalls(d, vs, moved, true);
      var i := if moved then 1 else 0;
      && cs[i].stage == FadeStage && cs[i + 1].stage == DiffuseStage
      && cs[i + 1].out == cs[i].out && cs[i + 1].src != cs[i].out
      && !Pipeline(cs)
    ensures Root.DiffusePass(n, 0.0, Root.FadePass(x, f), x0, obs)[k] == Root.DiffusePass(n, 0.0, x, x0, obs)[k]
  {
    var cs := DensityCalls(d, vs, moved, true);
    var i := if moved then 1 else 0;
    assert cs[i + 1].src != cs[i].out;
    Root.DiffuseWithoutDiffusion(n, Root.FadePass(x, f), x0, obs, k);
    Root.DiffuseWithoutDiffusion(n, x, x0, obs, k);
  }

  /** dens_step fading the buffer diffuse reads instead. */
  function FixedDensityCalls(d: nat, vs: nat, moved: bool, fade: bool): (cs: seq<Call>)
  {
    var a, o, vel := DensityBuffer((d + 1) % 2), DensityBuffer(d % 2), VelocityBuffer(vs % 2);
    if moved && fade then [AddSourceCall(a, o), FadeCall(a), DiffuseCall(o, a), AdvectCall(a, o, vel)]
    else if moved then [AddSourceCall(a, o), DiffuseCall(o, a), AdvectCall(a, o, vel)]
    else if fade then [FadeCall(o), DiffuseCall(a, o), AdvectCall(o, a, vel)]
    else [DiffuseCall(a, o), AdvectCall(o, a, vel)]
  }

  /** The corrected step is a pipeline from where the previous step left
      the dye to density[densityStep], and with zero diffusion the fade now
      reaches the diffuse result: every interior fluid cell is the faded
      input. */
  lemma {:induction false} FixedFadeReachesDiffusion(d: nat, vs: nat, moved: bool, fade: bool, n: nat, f: real,
                                                     x: seq<Cell>, x0: seq<Cell>, obs: seq<real>, k: nat)
    requires |x| == Size(n) && |x0| == Size(n) && |obs| == Size(n) && k < Size(n) && InteriorAt(n, k)
    requires !Root.Solid(obs[k])
    ensures var cs := FixedDensityCalls(d, vs, moved, fade);
      && Pipeline(cs)
      && cs[0].src == DensityBuffer(d % 2)
      && cs[|cs| - 1].out == DensityBuffer(Solver.DensityStepAfter(d, moved))
    ensures Root.DiffusePass(n, 0.0, x, Root.FadePass(x0, f), obs)[k] == Scale(f, x0[k])
  {
    var cs := FixedDensityCalls(d, vs, moved, fade);
    assert forall i :: 0 < i < |cs| ==> cs[i].src == cs[i - 1].out;
    Root.DiffuseWithoutDiffusion(n, x, Root.FadePass(x0, f), obs, k);
  }

  /** As written, this revision's project also runs all its passes under
      the b = 1 of its last setBoundary, and its boundary kernel negates
      the wall-normal channel for any b other than 0: every pressure
      boundary pass stores the negated interior pressure (the .x channel)
      on the fluid cells of the left and right walls. */
  lemma PressureBoundaryNegated(vel: Role, pressure: Role, k: nat, u: Uniforms, m: nat,
                                n: nat, p: seq<Cell>, obs: seq<real>, t: nat)
    requires u.b == 1.0 && 1 <= m < 2 * k + 2 && m % 2 == 1
    requires n > 0 && |p| == Size(n) && |obs| == Size(n) && 1 <= t <= n
    ensures ProjectEnc(vel, pressure, k)[m] == BoundaryEnc(pressure)
    ensures var r := Root.BoundaryPass(n, Solver.RuleOf(u.b), p, obs);
      && (!Root.SolidAt(n, obs, 0, t) ==> At(n, r, 0, t).x == -At(n, p, 1, t).x)
      && (!Root.SolidAt(n, obs, n + 1, t) ==> At(n, r, n + 1, t).x == -At(n, p, n, t).x)
  {
    ProjectEncodedAt(Encoded(Project1Kernel, [vel, pressure]), Encoded(Project2Kernel, [vel, pressure]),
                     Encoded(Project3Kernel, [vel, pressure]), BoundaryEnc(pressure), BoundaryEnc(vel), k);
    Root.BoundaryWalls(n, 1, p, obs, t);
  }

  /** The pressure half of this revision's project as a submission of its
      own: divergence, its boundary, and the sweeps with theirs. */
  function PressureEnc(vel: Role, pressure: Role, k: nat): seq<Encoded>
  {
    [Encoded(Project1Kernel, [vel, pressure]), BoundaryEnc(pressure)]
      + Sweeps(Encoded(Project2Kernel, [vel, pressure]), BoundaryEnc(pressure), k)
  }

  /** Submitting the pressure half under b = 0 and the gradient half after
      it keeps every pass of project in order, and then every pressure
      boundary pass copies the adjacent interior pressure onto each fluid
      cell of all four walls. */
  lemma FixedPressureBoundaryCopies(vel: Role, pressure: Role, k: nat, u: Uniforms, m: nat,
                                    n: nat, p: seq<Cell>, obs: seq<real>, t: nat)
    requires u.b == 0.0 && 1 <= m < 2 * k + 2 && m % 2 == 1
    requires n > 0 && |p| == Size(n) && |obs| == Size(n) && 1 <= t <= n
    ensures ProjectEnc(vel, pressure, k)
      == PressureEnc(vel, pressure, k) + [Encoded(Project3Kernel, [vel, pressure]), BoundaryEnc(vel)]
    ensures m < |PressureEnc(vel, pressure, k)| && PressureEnc(vel, pressure, k)[m] == BoundaryEnc(pressure)
    ensures var r := Root.BoundaryPass(n, Solver.RuleOf(u.b), p, obs);
      && (!Root.SolidAt(n, obs, 0, t) ==> At(n, r, 0, t) == At(n, p, 1, t))
      && (!Root.SolidAt(n, obs, n + 1, t) ==> At(n, r, n + 1, t) == At(n, p, n, t))
      && (!Root.SolidAt(n, obs, t, 0) ==> At(n, r, t, 0) == At(n, p, t, 1))
      && (!Root.SolidAt(n, obs, t, n + 1) ==> At(n, r, t, n + 1) == At(n, p, t, n))
  {
    var p2, bp := Encoded(Project2Kernel, [vel, pressure]), BoundaryEnc(pressure);
    SweepsAt(p2, bp, k);
    var e := PressureEnc(vel, pressure, k);
    if m > 1 {
      assert e[m] == Sweeps(p2, bp, k)[m - 2];
    }
    Root.BoundaryWalls(n, 0, p, obs, t);
  }

  /** What updateDensity submits: the source pass under the entry
      uniforms, the fade under its own, diffusion (at least two sweeps)
      and advection under setUniforms(0). */
  function DensityStream(cfg: Config.Settings, k: nat, d: nat, vs: nat, moved: bool, u0: Uniforms, u1: Uniforms): seq<Command>
  {
    var a, o, vel := DensityBuffer((d + 1) % 2), DensityBuffer(d % 2), VelocityBuffer(vs % 2);
    var fade := cfg.fade < 1.0;
    if moved && fade then
      [Submission(AddEnc(a, o), u0), Submission(FadeEnc(o), FadeUniforms(cfg)),
       Submission(DiffuseEnc(o, a, k), u1), Submission(AdvectEnc(a, o, vel), u1)]
    else if moved then
      [Submission(AddEnc(a, o), u0), Submission(DiffuseEnc(o, a, k), u1), Submission(AdvectEnc(a, o, vel), u1)]
    else if fade then
      [Submission(FadeEnc(a), FadeUniforms(cfg)), Submission(DiffuseEnc(a, o, k), u1), Submission(AdvectEnc(o, a, vel), u1)]
    else
      [Submission(DiffuseEnc(a, o, k), u1), Submission(AdvectEnc(o, a, vel), u1)]
  }

  /** What updateVelocity submits: the force under the entry uniforms,
      everything else under setUniforms(1). */
  function VelocityStream(k: nat, v: nat, u0: Uniforms, u1: Uniforms): seq<Command>
  {
    var a, o := VelocityBuffer((v + 1) % 2), VelocityBuffer(v % 2);
    [Submission(AddEnc(a, o), u0), Submission(DiffuseEnc(o, a, k), u1), Submission(ProjectEnc(a, o, k), u1),
     Submission(AdvectEnc(o, a, a), u1), Submission(ProjectEnc(o, a, k), u1)]
  }

  /** getDrawBuffer: the current density buffer in density mode, the
      current velocity buffer in velocity mode, nothing otherwise. */
  function FieldToDraw(cfg: Config.Settings, drawState: nat, d: nat, v: nat): Option<Role>
  {
    if drawState == cfg.drawDensity then Some(DensityBuffer(d % 2))
    else if drawState == cfg.drawVelocity then Some(VelocityBuffer(v % 2))
    else None
  }

  /** After a frame's updates the drawn buffer is the one the last call of
      the matching step wrote. */
  lemma DrawsLatestField(cfg: Config.Settings, d: nat, v: nat, moved: bool, fade: bool, drawState: nat)
    ensures var dn, vn := DensityCalls(d, v, moved, fade), Solver.VelocityCalls(v);
      var buffer := FieldToDraw(cfg, drawState, Solver.DensityStepAfter(d, moved), Solver.VelocityStepAfter(v));
      && (drawState == cfg.drawDensity ==> buffer == Some(dn[|dn| - 1].out))
      && (drawState != cfg.drawDensity && drawState == cfg.drawVelocity ==> buffer == Some(vn[|vn| - 1].out))
      && (drawState != cfg.drawDensity && drawState != cfg.drawVelocity ==> buffer.None?)
  {
  }

  // ------------------------------------------------------------ the driver

  class FluidSimulation {
    const cfg: Config.Settings
    const width: Solver.Extent
    const height: Solver.Extent
    const state: Config.SimState
    const device: Device
    /** The Stam-level calls made so far. */
    var calls: seq<Call>

    constructor(cfg: Config.Settings, width: Solver.Extent, height: Solver.Extent, state: Config.SimState, device: Device)
      ensures this.cfg == cfg && this.width == width && this.height == height
      ensures this.state == state && this.device == device && calls == []
    {
      this.cfg := cfg;
      this.width := width;
      this.height := height;
      this.state := state;
      this.device := device;
      calls := [];
    }

    /** N is positive, so the sweep count is defined. */
    predicate Valid() { cfg.n > 0 }

    function Iterations(): nat
      requires Valid()
    {
      IterationCount(cfg.solverIterations, cfg.n)
    }

    function U(b: real): Uniforms
      reads state`mouse, state`diffuseState
    {
      UniformsFor(cfg.n, cfg.gridSize, cfg.updateInterval, width, height, state.mouse, state.diffuseState, b)
    }

    /** The uniforms setUniforms(b) writes once diffuseState is ds. */
    function UFor(ds: real, b: real): (u: Uniforms)
      reads state`mouse
      ensures u.diffuse == ds && u.b == b && u.n == cfg.n as real
    {
      UniformsFor(cfg.n, cfg.gridSize, cfg.updateInterval, width, height, state.mouse, ds, b)
    }

    method SetUniforms(b: real)
      modifies device
      ensures device.uniforms == U(b)
      ensures device.stream == old(device.stream)
      ensures device.densitySource == old(device.densitySource) && device.velocitySource == old(device.velocitySource)
    {
      device.WriteUniforms(U(b));
    }

    /** The source buffer is bound as well; which one is not recorded in
        the pass. */
    method AddSource(out: Role, input: Role)
      modifies this, device
      ensures device.stream == old(device.stream) + [Submission(AddEnc(out, input), old(device.uniforms))]
      ensures calls == old(calls) + [AddSourceCall(out, input)]
      ensures device.uniforms == old(device.uniforms)
      ensures device.densitySource == old(device.densitySource) && device.velocitySource == old(device.velocitySource)
    {
      device.Submit(AddEnc(out, input));
      calls := calls + [AddSourceCall(out, input)];
    }

    method SetBoundary(enc: seq<Encoded>, b: real, buffer: Role) returns (enc': seq<Encoded>)
      modifies device
      ensures enc' == enc + [BoundaryEnc(buffer)]
      ensures device.uniforms == U(b)
      ensures device.stream == old(device.stream)
      ensures device.densitySource == old(device.densitySource) && device.velocitySource == old(device.velocitySource)
    {
      SetUniforms(b);
      enc' := enc + [BoundaryEnc(buffer)];
    }

    method Diffuse(b: real, out: Role, input: Role, diffusion: real)
      requires Valid()
      modifies this, device
      ensures device.stream == old(device.stream) + [Submission(DiffuseEnc(out, input, Iterations()), U(b))]
      ensures device.uniforms == U(b)
      ensures calls == old(calls) + [DiffuseCall(out, input)]
      ensures device.densitySource == old(device.densitySource) && device.velocitySource == old(device.velocitySource)
    {
      var iterations := IterationCount(cfg.solverIterations, cfg.n);
      var sweep, boundary := Encoded(DiffuseKernel, [out, input]), BoundaryEnc(out);
      var enc: seq<Encoded> := [];
      var i := 0;
      while i < iterations
        invariant 0 <= i <= iterations
        invariant enc == Sweeps(sweep, boundary, i)
        invariant i > 0 ==> device.uniforms == U(b)
        invariant device.stream == old(device.stream) && calls == old(calls)
        invariant device.densitySource == old(device.densitySource) && device.velocitySource == old(device.velocitySource)
      {
        SweepsStep([], sweep, boundary, i);
        enc := enc + [sweep];
        enc := SetBoundary(enc, b, out);
        i := i + 1;
      }
      device.Submit(enc);
      calls := calls + [DiffuseCall(out, input)];
    }

    method Advect(b: real, out: Role, input: Role, vel: Role)
      modifies this, device
      ensures device.stream == old(device.stream) + [Submission(AdvectEnc(out, input, vel), U(b))]
      ensures device.uniforms == U(b)
      ensures calls == old(calls) + [AdvectCall(out, input, vel)]
      ensures device.densitySource == old(device.densitySource) && device.velocitySource == old(device.velocitySource)
    {
      var enc := [Encoded(AdvectKernel, [out, input, vel])];
      enc := SetBoundary(enc, b, out);
      assert enc == AdvectEnc(out, input, vel);
      device.Submit(enc);
      calls := calls + [AdvectCall(out, input, vel)];
    }

    /** Like the later driver, one encoder for the whole projection. */
    method Project(vel: Role, pressure: Role)
      requires Valid()
      modifies this, device
      ensures device.stream == old(device.stream) + [Submission(ProjectEnc(vel, pressure, Iterations()), U(1.0))]
      ensures device.uniforms == U(1.0)
      ensures calls == old(calls) + [ProjectCall(vel, pressure)]
      ensures device.densitySource == old(device.densitySource) && device.velocitySource == old(device.velocitySource)
    {
      var iterations := IterationCount(cfg.solverIterations, cfg.n);
      var p1, p2, p3 := Encoded(Project1Kernel, [vel, pressure]), Encoded(Project2Kernel, [vel, pressure]),
                        Encoded(Project3Kernel, [vel, pressure]);
      var bp := BoundaryEnc(pressure);
      var enc := [p1];
      enc := SetBoundary(enc, 0.0, pressure);
      var i := 0;
      while i < iterations
        invariant 0 <= i <= iterations
        invariant enc == [p1, bp] + Sweeps(p2, bp, i)
        invariant device.stream == old(device.stream) && calls == old(calls)
        invariant device.densitySource == old(device.densitySource) && device.velocitySource == old(device.velocitySource)
      {
        SweepsStep([p1, bp], p2, bp, i);
        enc := enc + [p2];
        enc := SetBoundary(enc, 0.0, pressure);
        i := i + 1;
      }
      AppendTwo(enc, p3, BoundaryEnc(vel));
      enc := enc + [p3];
      enc := SetBoundary(enc, 1.0, vel);
      device.Submit(enc);
      calls := calls + [ProjectCall(vel, pressure)];
    }

    /** The same call sequence as the later driver's updateVelocity. */
    method UpdateVelocity()
      requires Valid()
      modifies this, device, state`velocityStep, state`diffuseState
      ensures state.velocityStep == Solver.VelocityStepAfter(old(state.velocityStep))
      ensures state.diffuseState == cfg.viscosity
      ensures device.velocitySource == ForceSource(cfg, state.mouse)
      ensures device.densitySource == old(device.densitySource)
      ensures calls == old(calls) + Solver.VelocityCalls(old(state.velocityStep))
      ensures device.stream == old(device.stream) + VelocityStream(Iterations(), old(state.velocityStep), old(device.uniforms), U(1.0))
      ensures device.uniforms == U(1.0)
    {
      // a and o are the buffers velocity[step % 2] and
      // velocity[(step + 1) % 2] name after the odd and the even flips
      var a, o := VelocityBuffer(Solver.Flip(state.velocityStep)), VelocityBuffer(state.velocityStep % 2);
      ghost var u0, k := device.uniforms, Iterations();
      state.diffuseState := cfg.viscosity;
      state.velocityStep := Solver.Flip(state.velocityStep);
      device.WriteVelocitySource(ForceSource(cfg, state.mouse));
      AddSource(a, o);
      state.velocityStep := Solver.Flip(state.velocityStep);
      Diffuse(1.0, o, a, cfg.viscosity);
      state.velocityStep := Solver.Flip(state.velocityStep);
      Project(a, o);
      state.velocityStep := Solver.Flip(state.velocityStep);
      Advect(1.0, o, a, a);
      Project(o, a);
      ghost var u1 := U(1.0);
      AppendFive(old(calls), AddSourceCall(a, o), DiffuseCall(o, a), ProjectCall(a, o), AdvectCall(o, a, a), ProjectCall(o, a));
      AppendFive(old(device.stream), Submission(AddEnc(a, o), u0), Submission(DiffuseEnc(o, a, k), u1),
                 Submission(ProjectEnc(a, o, k), u1), Submission(AdvectEnc(o, a, a), u1), Submission(ProjectEnc(o, a, k), u1));
    }

    /** Writes FADE into the diffuse slot and scales `buffer` by it. */
    method Fade(buffer: Role)
      modifies this, device
      ensures device.uniforms == FadeUniforms(cfg) && device.uniforms.diffuse == cfg.fade
      ensures device.stream == old(device.stream) + [Submission(FadeEnc(buffer), FadeUniforms(cfg))]
      ensures calls == old(calls) + [FadeCall(buffer)]
      ensures device.densitySource == old(device.densitySource) && device.velocitySource == old(device.velocitySource)
    {
      device.WriteUniforms(FadeUniforms(cfg));
      device.Submit(FadeEnc(buffer));
      calls := calls + [FadeCall(buffer)];
    }

    /** `s20`, `c25`, `s30` are sin(step / 20), cos(step / 25) and
        sin(step / 30). */
    method UpdateDensity(s20: real, c25: real, s30: real)
      requires Valid()
      modifies this, device, state`densityStep, state`diffuseState
      ensures state.diffuseState == cfg.diffuse
      ensures state.densityStep == Solver.DensityStepAfter(old(state.densityStep), Solver.Moved(state.mouse))
      ensures device.densitySource == if Solver.Moved(state.mouse) then DyeSource(cfg, s20, c25, s30) else old(device.densitySource)
      ensures device.velocitySource == old(device.velocitySource)
      ensures calls == old(calls) + DensityCalls(old(state.densityStep), state.velocityStep, Solver.Moved(state.mouse), cfg.fade < 1.0)
      ensures device.stream == old(device.stream)
        + DensityStream(cfg, Iterations(), old(state.densityStep), state.velocityStep, Solver.Moved(state.mouse), old(device.uniforms), U(0.0))
      ensures device.uniforms == U(0.0)
    {
      var a, o, vel := DensityBuffer(Solver.Flip(state.densityStep)), DensityBuffer(state.densityStep % 2), VelocityBuffer(state.velocityStep % 2);
      ghost var u0, k, moved, fade := device.uniforms, Iterations(), Solver.Moved(state.mouse), cfg.fade < 1.0;
      state.diffuseState := cfg.diffuse;
      state.densityStep := Solver.Flip(state.densityStep);
      // x names density[densityStep % 2] before diffusion, y the other
      var x, y := a, o;
      if Solver.Moved(state.mouse) {
        device.WriteDensitySource(DyeSource(cfg, s20, c25, s30));
        AddSource(a, o);
        state.densityStep := Solver.Flip(state.densityStep);
        x, y := o, a;
      }
      if cfg.fade < 1.0 {
        Fade(x);
      }
      Diffuse(0.0, x, y, cfg.diffuse);
      state.densityStep := Solver.Flip(state.densityStep);
      Advect(0.0, y, x, vel);
      ghost var u1, uf := U(0.0), FadeUniforms(cfg);
      if moved && fade {
        AppendFour(old(calls), AddSourceCall(a, o), FadeCall(o), DiffuseCall(o, a), AdvectCall(a, o, vel));
        AppendFour(old(device.stream), Submission(AddEnc(a, o), u0), Submission(FadeEnc(o), uf),
                   Submission(DiffuseEnc(o, a, k), u1), Submission(AdvectEnc(a, o, vel), u1));
      } else if moved {
        AppendThree(old(calls), AddSourceCall(a, o), DiffuseCall(o, a), AdvectCall(a, o, vel));
        AppendThree(old(device.stream), Submission(AddEnc(a, o), u0), Submission(DiffuseEnc(o, a, k), u1),
                    Submission(AdvectEnc(a, o, vel), u1));
      } else if fade {
        AppendThree(old(calls), FadeCall(a), DiffuseCall(a, o), AdvectCall(o, a, vel));
        AppendThree(old(device.stream), Submission(FadeEnc(a), uf), Submission(DiffuseEnc(a, o, k), u1),
                    Submission(AdvectEnc(o, a, vel), u1));
      } else {
        AppendTwo(old(calls), DiffuseCall(a, o), AdvectCall(o, a, vel));
        AppendTwo(old(device.stream), Submission(DiffuseEnc(a, o, k), u1), Submission(AdvectEnc(o, a, vel), u1));
      }
    }

    method GetDrawBuffer() returns (buffer: Option<Role>)
      ensures buffer == FieldToDraw(cfg, state.drawState, state.densityStep, state.velocityStep)
    {
      if state.drawState == cfg.drawDensity {
        return Some(DensityBuffer(state.densityStep % 2));
      }
      if state.drawState == cfg.drawVelocity {
        return Some(VelocityBuffer(state.velocityStep % 2));
      }
      return None;
    }

    method Clear()
      modifies device, state`densityStep, state`velocityStep, state`step
      ensures device.stream == old(device.stream) + [ZeroFill(Density0), ZeroFill(Density1), ZeroFill(Velocity0), ZeroFill(Velocity1)]
      ensures state.densityStep == 0 && state.velocityStep == 0 && state.step == 0
      ensures device.uniforms == old(device.uniforms)
    {
      device.Clear(Density0);
      device.Clear(Density1);
      device.Clear(Velocity0);
      device.Clear(Velocity1);
      state.densityStep := 0;
      state.velocityStep := 0;
      state.step := 0;
    }

    /** One frame: setUniforms(0), the density and velocity steps unless
        paused, the draw, and the frame counter. */
    method Run(s20: real, c25: real, s30: real)
      requires Valid()
      modifies this, device, state`densityStep, state`velocityStep, state`diffuseState, state`step
      ensures state.step == old(state.step) + 1
      ensures old(state.pause) ==>
        && calls == old(calls)
        && state.densityStep == old(state.densityStep) && state.velocityStep == old(state.velocityStep)
        && state.diffuseState == old(state.diffuseState)
        && device.uniforms == UFor(old(state.diffuseState), 0.0)
        && device.stream == old(device.stream)
             + [Drawn(FieldToDraw(cfg, state.drawState, state.densityStep, state.velocityStep), state.textureDraw)]
      ensures !old(state.pause) ==>
        && calls == old(calls)
             + DensityCalls(old(state.densityStep), old(state.velocityStep), Solver.Moved(state.mouse), cfg.fade < 1.0)
             + Solver.VelocityCalls(old(state.velocityStep))
        && state.densityStep == Solver.DensityStepAfter(old(state.densityStep), Solver.Moved(state.mouse))
        && state.velocityStep == Solver.VelocityStepAfter(old(state.velocityStep))
        && state.diffuseState == cfg.viscosity
        && device.uniforms == UFor(cfg.viscosity, 1.0)
        && device.stream == old(device.stream)
             + DensityStream(cfg, Iterations(), old(state.densityStep), old(state.velocityStep), Solver.Moved(state.mouse),
                             UFor(old(state.diffuseState), 0.0), UFor(cfg.diffuse, 0.0))
             + VelocityStream(Iterations(), old(state.velocityStep), UFor(cfg.diffuse, 0.0), UFor(cfg.viscosity, 1.0))
             + [Drawn(FieldToDraw(cfg, state.drawState, state.densityStep, state.velocityStep), state.textureDraw)]
    {
      SetUniforms(0.0);
      if !state.pause {
        UpdateDensity(s20, c25, s30);
        UpdateVelocity();
      }
      var buffer := GetDrawBuffer();
      device.Draw(buffer, state.textureDraw);
      state.step := state.step + 1;
    }
  }
}
