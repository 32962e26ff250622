/** The solver driver of the later revision (src/core/solver.js): the
    FluidSolver class that turns Stam's vel_step and dens_step into compute
    passes over two ping-pong pairs of field buffers. Every pass takes its
    buffers from the precomputed bind-group table, chosen by comparing the
    output buffer (and for advection the velocity buffer) with the four
    field buffers; the input arguments themselves are never bound. The
    driver is modelled at the level of the commands it gives the queue and
    the Stam-level calls it makes; what a pass does to a buffer is the
    business of the kernel models. */
module Solver {
  import opened BindGroups
  import opened Gpu
  import opened Grid
  import Config
  import RenderingShaders

  /** The CONFIG values of the later revision's config module that the
      driver reads (that module's other entries are not read here). */
  datatype SolverSettings = SolverSettings(
    n: nat,
    gridSize: nat,
    updateInterval: real,
    viscosity: real,
    diffuse: real,
    colorRadius: real,
    velocityRadius: real,
    forceMultiplier: real,
    solverIterations: nat,
    densityDecay: real)

  /** CONFIG as src/core/config.js sets it. */
  const SrcDefaults: SolverSettings :=
    SolverSettings(64, 66, 16.0, 0.0, 0.0, 2.0, 2.0, 0.15, 10, 0.99)

  /** A canvas extent in pixels. */
  type Extent = r: real | r > 0.0 witness 1.0

  // ------------------------------------------------------- buffer selection

  /** The other buffer of a ping-pong pair. */
  function Partner(r: Role): Role
  {
    match r
    case Density0 => Density1
    case Density1 => Density0
    case Velocity0 => Velocity1
    case Velocity1 => Velocity0
  }

  predicate IsDensity(r: Role) { r == Density0 || r == Density1 }

  predicate IsVelocity(r: Role) { r == Velocity0 || r == Velocity1 }

  /** The field buffers a group binds to its kernel's storage slots, in
      binding order. */
  function Bound(op: Op, i: nat): (fs: seq<Role>)
    requires i < Count(op) && op != CreateTexture && op != DrawBuffer
    ensures |fs| == (if op == Boundary then 1 else if op in {AdvectDensity, AdvectVelocity} then 3 else 2)
  {
    var e := Entries(op, i);
    if op == Boundary then [e[1].role]
    else if op == AdvectDensity || op == AdvectVelocity then [e[1].role, e[2].role, e[3].role]
    else [e[1].role, e[2].role]
  }

  /** The group addSource binds: addDensity when the source buffer is the
      density source, else addVelocity; index 0 when the output is the
      pair's first buffer. */
  function AddGroup(out: Role, density: bool): (g: (Op, nat))
    ensures g.0 in {AddDensity, AddVelocity} && g.1 < Count(g.0)
    ensures (density && IsDensity(out)) || (!density && IsVelocity(out)) ==>
      Bound(g.0, g.1) == [out, Partner(out)]
  {
    if density then (AddDensity, if out == Density0 then 0 else 1)
    else (AddVelocity, if out == Velocity0 then 0 else 1)
  }

  /** setBoundary's group index: the position of the buffer in the order
      density 0, density 1, velocity 0, velocity 1. */
  function BoundaryIndex(buffer: Role): (i: nat)
    ensures i < 4 && FieldAt(i) == buffer && Bound(Boundary, i) == [buffer]
  {
    match buffer
    case Density0 => 0
    case Density1 => 1
    case Velocity0 => 2
    case Velocity1 => 3
  }

  /** diffuse's group, chosen by the output buffer. */
  function DiffuseGroup(out: Role): (g: (Op, nat))
    ensures g.0 in {DiffuseDensity, DiffuseVelocity} && g.1 < Count(g.0)
    ensures Bound(g.0, g.1) == [out, Partner(out)]
  {
    if out == Density0 then (DiffuseDensity, 0)
    else if out == Density1 then (DiffuseDensity, 1)
    else if out == Velocity0 then (DiffuseVelocity, 0)
    else (DiffuseVelocity, 1)
  }

  /** advect's group: advectDensity[out * 2 + vel] for a density output,
      advectVelocity[out] otherwise. A velocity output is advected along
      its own partner, whatever velocity argument is passed. */
  function AdvectGroup(out: Role, vel: Role): (g: (Op, nat))
    ensures g.0 in {AdvectDensity, AdvectVelocity} && g.1 < Count(g.0)
    ensures IsDensity(out) && IsVelocity(vel) ==> Bound(g.0, g.1) == [out, Partner(out), vel]
    ensures IsVelocity(out) ==> Bound(g.0, g.1) == [out, Partner(out), Partner(out)]
  {
    if out == Density0 || out == Density1 then
      (AdvectDensity, (if out == Density0 then 0 else 1) * 2 + (if vel == Velocity0 then 0 else 1))
    else
      (AdvectVelocity, if out == Velocity0 then 0 else 1)
  }

  /** project's group index, chosen by the velocity buffer alone: the
      pressure scratch is always the velocity buffer's partner. */
  function ProjectIndex(vel: Role): (i: nat)
    ensures i < 2 && (IsVelocity(vel) ==> VelocityBuffer(i) == vel)
    ensures Bound(Project1, i) == Bound(Project2, i) == Bound(Project3, i)
                               == [VelocityBuffer(i), Partner(VelocityBuffer(i))]
  {
    if vel == Velocity0 then 0 else 1
  }

  /** The diffuse group the driver selects writes exactly the output
      buffer and reads exactly its partner. */
  lemma DiffuseGroupAccess(out: Role)
    ensures var g := DiffuseGroup(out);
      Writes(g.0, g.1) == {out} && Reads(g.0, g.1) == {Partner(out)}
  {
    SourceAndDiffuseGroups(if out == Density0 || out == Velocity0 then 0 else 1);
  }

  /** So does the addSource group, when the source buffer matches the
      output's kind. */
  lemma AddGroupAccess(out: Role, density: bool)
    requires if density then IsDensity(out) else IsVelocity(out)
    ensures var g := AddGroup(out, density);
      Writes(g.0, g.1) == {out} && Reads(g.0, g.1) == {Partner(out)}
  {
    SourceAndDiffuseGroups(if out == Density0 || out == Velocity0 then 0 else 1);
  }

  /** The advect group writes the output and reads its partner and, for
      density, the velocity buffer passed. */
  lemma AdvectGroupAccess(out: Role, vel: Role)
    ensures IsDensity(out) && IsVelocity(vel) ==>
      var g := AdvectGroup(out, vel);
      Writes(g.0, g.1) == {out} && Reads(g.0, g.1) == {Partner(out), vel}
    ensures IsVelocity(out) ==>
      var g := AdvectGroup(out, vel);
      Writes(g.0, g.1) == {out} && Reads(g.0, g.1) == {Partner(out)}
  {
    var g := AdvectGroup(out, vel);
    if IsDensity(out) {
      AdvectDensityGroups(g.1);
    } else if IsVelocity(out) {
      AdvectVelocityGroups(g.1);
    }
  }

  /** The projection groups for a velocity buffer write the pressure
      scratch (its partner) in the first two kernels and the velocity in
      the third. */
  lemma ProjectGroupAccess(vel: Role)
    requires IsVelocity(vel)
    ensures var i := ProjectIndex(vel);
      && Writes(Project1, i) == Writes(Project2, i) == {Partner(vel)}
      && Reads(Project1, i) == Reads(Project2, i) == {vel}
      && Writes(Project3, i) == {vel} && Reads(Project3, i) == {Partner(vel)}
  {
    ProjectGroups(ProjectIndex(vel));
  }

  // -------------------------------------------------------------- encoders

  function KernelOf(op: Op): Kernel
    requires op != CreateTexture && op != DrawBuffer
  {
    match op
    case AddDensity | AddVelocity => AddSourceKernel
    case Boundary => BoundaryKernel
    case DiffuseDensity | DiffuseVelocity => DiffuseKernel
    case AdvectDensity | AdvectVelocity => AdvectKernel
    case Project1 => Project1Kernel
    case Project2 => Project2Kernel
    case Project3 => Project3Kernel
  }

  /** A pass with group `i` of `op`. */
  function Enc(op: Op, i: nat): Encoded
    requires i < Count(op) && op != CreateTexture && op != DrawBuffer
  {
    Encoded(KernelOf(op), Bound(op, i))
  }

  function BoundaryEnc(buffer: Role): Encoded
  {
    Enc(Boundary, BoundaryIndex(buffer))
  }

  /** addSource's encoder: one pass. */
  function AddEnc(out: Role, density: bool): seq<Encoded>
  {
    var g := AddGroup(out, density);
    [Enc(g.0, g.1)]
  }

  /** diffuse's encoder: `k` relaxation sweeps, each followed by the
      boundary pass on the output. */
  function DiffuseEnc(out: Role, k: nat): seq<Encoded>
  {
    var g := DiffuseGroup(out);
    Sweeps(Enc(g.0, g.1), BoundaryEnc(out), k)
  }

  /** advect's encoder: the advection pass and the boundary pass on the
      output. */
  function AdvectEnc(out: Role, vel: Role): seq<Encoded>
  {
    var g := AdvectGroup(out, vel);
    [Enc(g.0, g.1), BoundaryEnc(out)]
  }

  /** project's single encoder. */
  function ProjectEnc(vel: Role, pressure: Role, k: nat): seq<Encoded>
  {
    var i := ProjectIndex(vel);
    ProjectEncoded(Enc(Project1, i), Enc(Project2, i), Enc(Project3, i), BoundaryEnc(pressure), BoundaryEnc(vel), k)
  }

  /** The pressure half of project: divergence, its boundary, and the
      pressure sweeps with theirs. */
  function PressureEnc(vel: Role, pressure: Role, k: nat): seq<Encoded>
  {
    var i := ProjectIndex(vel);
    [Enc(Project1, i), BoundaryEnc(pressure)] + Sweeps(Enc(Project2, i), BoundaryEnc(pressure), k)
  }

  /** The velocity half of project: gradient subtraction and the velocity
      boundary. */
  function GradientEnc(vel: Role): seq<Encoded>
  {
    [Enc(Project3, ProjectIndex(vel)), BoundaryEnc(vel)]
  }

  /** Splitting project in two submissions keeps its passes and their
      order; only the uniforms the pressure half runs with change. */
  lemma ProjectSplitKeepsPasses(vel: Role, pressure: Role, k: nat)
    ensures PressureEnc(vel, pressure, k) + GradientEnc(vel) == ProjectEnc(vel, pressure, k)
    ensures |PressureEnc(vel, pressure, k)| == 2 * k + 2
  {
  }

  // ------------------------------------------------------- the Stam calls

  /** The Stam-level call each driver method makes, read off the buffers
      its group binds. */
  function AddCallOf(out: Role, density: bool): (c: Call)
    ensures (density && IsDensity(out)) || (!density && IsVelocity(out)) ==> c == AddSourceCall(out, Partner(out))
  {
    var g := AddGroup(out, density);
    var fs := Bound(g.0, g.1);
    AddSourceCall(fs[0], fs[1])
  }

  function DiffuseCallOf(out: Role): (c: Call)
    ensures c == DiffuseCall(out, Partner(out))
  {
    var g := DiffuseGroup(out);
    var fs := Bound(g.0, g.1);
    DiffuseCall(fs[0], fs[1])
  }

  function AdvectCallOf(out: Role, vel: Role): (c: Call)
    ensures IsDensity(out) && IsVelocity(vel) ==> c == AdvectCall(out, Partner(out), vel)
    ensures IsVelocity(out) ==> c == AdvectCall(out, Partner(out), Partner(out))
  {
    var g := AdvectGroup(out, vel);
    var fs := Bound(g.0, g.1);
    AdvectCall(fs[0], fs[1], fs[2])
  }

  function ProjectCallOf(vel: Role): (c: Call)
    ensures IsVelocity(vel) ==> c == ProjectCall(vel, Partner(vel))
  {
    var i := ProjectIndex(vel);
    ProjectCall(VelocityBuffer(i), Partner(VelocityBuffer(i)))
  }

  /** The flip of a step counter, `(step + 1) % 2`, with the facts about
      it the drivers' buffer selection needs. */
  function Flip(step: nat): (f: nat)
    ensures f < 2 && f % 2 == f && f != step % 2 && (f + 1) % 2 == step % 2
  {
    (step + 1) % 2
  }

  /** vel_step as updateVelocity runs it from velocityStep `v`: add the
      force into a, diffuse into o, project a, advect into o along a,
      project o, where a and o are velocity[(v + 1) % 2] and
      velocity[v % 2]. */
  function VelocityCalls(v: nat): (cs: seq<Call>)
  {
    var a, o := VelocityBuffer((v + 1) % 2), VelocityBuffer(v % 2);
    [AddSourceCall(a, o), DiffuseCall(o, a), ProjectCall(a, o), AdvectCall(o, a, a), ProjectCall(o, a)]
  }

  /** The step counter after a call to updateVelocity: four flips. */
  function VelocityStepAfter(v: nat): nat { v % 2 }

  /** Where density stands after updateDensity: three flips when the
      pointer moved, two when it did not. */
  function DensityStepAfter(d: nat, moved: bool): nat { if moved then (d + 1) % 2 else d % 2 }

  /** dens_step as updateDensity runs it from densityStep `d`, advecting
      along velocity[vs % 2]. */
  function DensityCalls(d: nat, vs: nat, moved: bool): (cs: seq<Call>)
  {
    var a, o, vel := DensityBuffer((d + 1) % 2), DensityBuffer(d % 2), VelocityBuffer(vs % 2);
    if moved then [AddSourceCall(a, o), DiffuseCall(o, a), AdvectCall(a, o, vel)]
    else [DiffuseCall(a, o), AdvectCall(o, a, vel)]
  }

  /** Every call of both steps is separated: no stage writes the buffer it
      reads the field from, and no projection uses its own output as
      scratch. */
  lemma StepsSeparated(v: nat, d: nat, vs: nat, moved: bool)
    ensures forall c | c in VelocityCalls(v) :: Separated(c)
    ensures forall c | c in DensityCalls(d, vs, moved) :: Separated(c)
  {
  }

  /** dens_step is a pipeline: it starts from the buffer the previous
      density step left the field in, each stage consumes the previous
      stage's output, the field ends in density[densityStep], and it is
      moved along velocity[velocityStep]. */
  lemma {:induction false} DensityPipeline(d: nat, vs: nat, moved: bool)
    ensures var cs := DensityCalls(d, vs, moved);
      && Pipeline(cs)
      && cs[0].src == DensityBuffer(d % 2)
      && cs[|cs| - 1].out == DensityBuffer(DensityStepAfter(d, moved))
      && cs[|cs| - 1].vel == Some(VelocityBuffer(vs % 2))
  {
    var cs := DensityCalls(d, vs, moved);
    assert forall i :: 0 < i < |cs| ==> cs[i].src == cs[i - 1].out;
  }

  /** The velocity step ends where it started and leaves the field in
      velocity[velocityStep], the buffer the next density step advects
      along. */
  lemma VelocityEndsAtStep(v: nat)
    ensures var cs := VelocityCalls(v);
      && cs[0].src == VelocityBuffer(v % 2)
      && cs[|cs| - 1].out == VelocityBuffer(VelocityStepAfter(v))
      && VelocityStepAfter(VelocityStepAfter(v)) == VelocityStepAfter(v)
  {
  }

  /** As written, updateVelocity projects the buffer the force was added
      to, not the one diffusion wrote: after the third flip the project
      call reads velocity[(v + 1) % 2] while diffuse wrote velocity[v % 2],
      so the diffused field is dropped and the step is not a pipeline. */
  lemma VelocityProjectSkipsDiffusion(v: nat)
    ensures var cs := VelocityCalls(v);
      && cs[2].src == cs[0].out
      && cs[2].src != cs[1].out
      && !Pipeline(cs)
  {
    var cs := VelocityCalls(v);
    assert cs[2].src != cs[1].out;
  }

  /** vel_step without the flip after diffusion: diffuse into o, then
      project o, advect into a along o, project a. */
  function FixedVelocityCalls(v: nat): (cs: seq<Call>)
  {
    var a, o := VelocityBuffer((v + 1) % 2), VelocityBuffer(v % 2);
    [AddSourceCall(a, o), DiffuseCall(o, a), ProjectCall(o, a), AdvectCall(a, o, o), ProjectCall(a, o)]
  }

  /** The corrected step is a separated pipeline that starts from where
      the previous step left the field and ends in velocity[velocityStep]
      after three flips. */
  lemma {:induction false} FixedVelocityPipeline(v: nat)
    ensures var cs := FixedVelocityCalls(v);
      && Pipeline(cs)
      && (forall c | c in cs :: Separated(c))
      && cs[0].src == VelocityBuffer(v % 2)
      && cs[|cs| - 1].out == VelocityBuffer((v + 1) % 2)
      && cs[3].vel == Some(cs[2].out)
  {
    var cs := FixedVelocityCalls(v);
    assert forall i :: 0 < i < |cs| ==> cs[i].src == cs[i - 1].out;
  }

  /** Two frames chain: the density step of the next frame starts from
      where this frame's density step ended and advects along the
      velocity this frame's velocity step produced. */
  lemma FramesChain(d: nat, v: nat, moved: bool, moved': bool)
    ensures var dn, vn := DensityCalls(d, v, moved), VelocityCalls(v);
      var d', v' := DensityStepAfter(d, moved), VelocityStepAfter(v);
      var next := DensityCalls(d', v', moved');
      && next[0].src == dn[|dn| - 1].out
      && next[|next| - 1].vel == Some(vn[|vn| - 1].out)
  {
    DensityPipeline(d, v, moved);
    DensityPipeline(DensityStepAfter(d, moved), VelocityStepAfter(v), moved');
    VelocityEndsAtStep(v);
  }

  // --------------------------------------------------------- command streams

  /** What updateVelocity submits: the source pass with the uniforms
      current on entry, everything else with setUniforms(1). */
  function VelocityStream(k: nat, v: nat, u0: Uniforms, u1: Uniforms): seq<Command>
  {
    var a, o := VelocityBuffer((v + 1) % 2), VelocityBuffer(v % 2);
    var ud := if k > 0 then u1 else u0;
    [Submission(AddEnc(a, false), u0), Submission(DiffuseEnc(o, k), ud), Submission(ProjectEnc(a, o, k), u1),
     Submission(AdvectEnc(o, a), u1), Submission(ProjectEnc(o, a, k), u1)]
  }

  /** What updateDensity submits: the source pass (when the pointer moved)
      with the uniforms current on entry, diffusion and advection with
      setUniforms(0) (or the entry uniforms for an empty diffusion). */
  function DensityStream(k: nat, d: nat, vs: nat, moved: bool, u0: Uniforms, u1: Uniforms): seq<Command>
  {
    var a, o, vel := DensityBuffer((d + 1) % 2), DensityBuffer(d % 2), VelocityBuffer(vs % 2);
    var ud := if k > 0 then u1 else u0;
    if moved then [Submission(AddEnc(a, true), u0), Submission(DiffuseEnc(o, k), ud), Submission(AdvectEnc(a, vel), u1)]
    else [Submission(DiffuseEnc(a, k), ud), Submission(AdvectEnc(o, vel), u1)]
  }

  /** The dye colour of frame `step`, given s_i = sin(step * 0.01 + 2i):
      each channel (s_i + 1) * 0.1, alpha 1, COLOR_RADIUS. */
  function DyeSource(cfg: SolverSettings, s0: real, s1: real, s2: real): (src: Source)
    ensures src.value.3 == 1.0 && src.radius == cfg.colorRadius
    ensures -1.0 <= s0 <= 1.0 && -1.0 <= s1 <= 1.0 && -1.0 <= s2 <= 1.0 ==>
      0.0 <= src.value.0 <= 0.2 && 0.0 <= src.value.1 <= 0.2 && 0.0 <= src.value.2 <= 0.2
  {
    Source(((s0 + 1.0) * 0.1, (s1 + 1.0) * 0.1, (s2 + 1.0) * 0.1, 1.0), cfg.colorRadius)
  }

  /** Whether the pointer moved since the last event (dx or -dy nonzero). */
  predicate Moved(p: Config.Pointer)
  {
    var dx, dy := p.x - p.x0, -1.0 * (p.y - p.y0);
    dx != 0.0 || dy != 0.0
  }

  /** The force of updateVelocity: the pointer displacement with y turned
      upward, times VELOCITY_FORCE_MULTIPLIER * 0.1, and VELOCITY_RADIUS. */
  function VelocitySourceOf(cfg: SolverSettings, p: Config.Pointer): (src: Source)
    ensures src.value.2 == 0.0 && src.value.3 == 0.0 && src.radius == cfg.velocityRadius
    ensures !Moved(p) ==> src.value.0 == 0.0 && src.value.1 == 0.0
    ensures cfg.forceMultiplier > 0.0 ==>
      (src.value.0 > 0.0 <==> p.x > p.x0) && (src.value.1 > 0.0 <==> p.y < p.y0)
  {
    var dx, dy := p.x - p.x0, -1.0 * (p.y - p.y0);
    var m := cfg.forceMultiplier * 0.1;
    Source((dx * m, dy * m, 0.0, 0.0), cfg.velocityRadius)
  }

  // ------------------------------------------------------------ the driver

  class FluidSolver {
    const cfg: SolverSettings
    const width: Extent
    const height: Extent
    const state: Config.SimState
    const device: Device
    /** The Stam-level calls made so far. */
    var calls: seq<Call>

    constructor(cfg: SolverSettings, width: Extent, height: Extent, state: Config.SimState, device: Device)
      ensures this.cfg == cfg && this.width == width && this.height == height
      ensures this.state == state && this.device == device && calls == []
    {
      this.cfg := cfg;
      this.width := width;
      this.height := height;
      this.state := state;
      this.device := device;
      calls := [];
    }

    /** The uniforms setUniforms(b) writes in the current state. */
    function U(b: real): Uniforms
      reads state`mouse, state`diffuseState
    {
      UniformsFor(cfg.n, cfg.gridSize, cfg.updateInterval, width, height, state.mouse, state.diffuseState, b)
    }

    /** The uniforms setUniforms(b) writes once diffuseState is ds. */
    function UFor(ds: real, b: real): (u: Uniforms)
      reads state`mouse
      ensures u.diffuse == ds && u.b == b && u.n == cfg.n as real
    {
      UniformsFor(cfg.n, cfg.gridSize, cfg.updateInterval, width, height, state.mouse, ds, b)
    }

    method SetUniforms(b: real)
      modifies device
      ensures device.uniforms == U(b)
      ensures device.stream == old(device.stream)
      ensures device.densitySource == old(device.densitySource) && device.velocitySource == old(device.velocitySource)
    {
      device.WriteUniforms(U(b));
    }

    method AddSource(out: Role, input: Role, density: bool)
      modifies this, device
      ensures device.stream == old(device.stream) + [Submission(AddEnc(out, density), old(device.uniforms))]
      ensures calls == old(calls) + [AddCallOf(out, density)]
      ensures device.uniforms == old(device.uniforms)
      ensures device.densitySource == old(device.densitySource) && device.velocitySource == old(device.velocitySource)
    {
      device.Submit(AddEnc(out, density));
      calls := calls + [AddCallOf(out, density)];
    }

    /** Writes setUniforms(b) and appends the boundary pass on `buffer`. */
    method SetBoundary(enc: seq<Encoded>, b: real, buffer: Role) returns (enc': seq<Encoded>)
      modifies device
      ensures enc' == enc + [BoundaryEnc(buffer)]
      ensures device.uniforms == U(b)
      ensures device.stream == old(device.stream)
      ensures device.densitySource == old(device.densitySource) && device.velocitySource == old(device.velocitySource)
    {
      SetUniforms(b);
      enc' := enc + [BoundaryEnc(buffer)];
    }

    method Diffuse(b: real, out: Role, input: Role, diffusion: real)
      modifies this, device
      ensures device.stream == old(device.stream) + [Submission(DiffuseEnc(out, cfg.solverIterations), device.uniforms)]
      ensures device.uniforms == if cfg.solverIterations > 0 then U(b) else old(device.uniforms)
      ensures calls == old(calls) + [DiffuseCallOf(out)]
      ensures device.densitySource == old(device.densitySource) && device.velocitySource == old(device.velocitySource)
    {
      var g := DiffuseGroup(out);
      var enc: seq<Encoded> := [];
      var i := 0;
      var sweep, boundary := Enc(g.0, g.1), BoundaryEnc(out);
      while i < cfg.solverIterations
        invariant 0 <= i <= cfg.solverIterations
        invariant enc == Sweeps(sweep, boundary, i)
        invariant device.uniforms == if i > 0 then U(b) else old(device.uniforms)
        invariant device.stream == old(device.stream) && calls == old(calls)
        invariant device.densitySource == old(device.densitySource) && device.velocitySource == old(device.velocitySource)
      {
        SweepsStep([], sweep, boundary, i);
        enc := enc + [Enc(g.0, g.1)];
        enc := SetBoundary(enc, b, out);
        i := i + 1;
      }
      device.Submit(enc);
      calls := calls + [DiffuseCallOf(out)];
    }

    method Advect(b: real, out: Role, input: Role, vel: Role)
      modifies this, device
      ensures device.stream == old(device.stream) + [Submission(AdvectEnc(out, vel), U(b))]
      ensures device.uniforms == U(b)
      ensures calls == old(calls) + [AdvectCallOf(out, vel)]
      ensures device.densitySource == old(device.densitySource) && device.velocitySource == old(device.velocitySource)
    {
      var g := AdvectGroup(out, vel);
      var enc := [Enc(g.0, g.1)];
      enc := SetBoundary(enc, b, out);
      assert enc == AdvectEnc(out, vel);
      device.Submit(enc);
      calls := calls + [AdvectCallOf(out, vel)];
    }

    /** Divergence, pressure sweeps and gradient subtraction in one
      encoder: every pass runs with the uniforms of the last setBoundary,
      b = 1. */
    method Project(vel: Role, pressure: Role)
      modifies this, device
      ensures device.stream == old(device.stream) + [Submission(ProjectEnc(vel, pressure, cfg.solverIterations), U(1.0))]
      ensures device.uniforms == U(1.0)
      ensures calls == old(calls) + [ProjectCallOf(vel)]
      ensures device.densitySource == old(device.densitySource) && device.velocitySource == old(device.velocitySource)
    {
      var idx := ProjectIndex(vel);
      ghost var p1, p2, bp := Enc(Project1, idx), Enc(Project2, idx), BoundaryEnc(pressure);
      var enc := [Enc(Project1, idx)];
      enc := SetBoundary(enc, 0.0, pressure);
      var i := 0;
      while i < cfg.solverIterations
        invariant 0 <= i <= cfg.solverIterations
        invariant enc == [p1, bp] + Sweeps(p2, bp, i)
        invariant device.stream == old(device.stream) && calls == old(calls)
        invariant device.densitySource == old(device.densitySource) && device.velocitySource == old(device.velocitySource)
      {
        SweepsStep([p1, bp], p2, bp, i);
        enc := enc + [Enc(Project2, idx)];
        enc := SetBoundary(enc, 0.0, pressure);
        i := i + 1;
      }
      AppendTwo(enc, Enc(Project3, idx), BoundaryEnc(vel));
      enc := enc + [Enc(Project3, idx)];
      enc := SetBoundary(enc, 1.0, vel);
      device.Submit(enc);
      calls := calls + [ProjectCallOf(vel)];
    }

    /** project with the pressure stages submitted under setUniforms(0)
        and only the gradient subtraction and the velocity boundary under
        setUniforms(1). */
    method ProjectFixed(vel: Role, pressure: Role)
      modifies this, device
      ensures device.stream == old(device.stream)
        + [Submission(PressureEnc(vel, pressure, cfg.solverIterations), U(0.0)), Submission(GradientEnc(vel), U(1.0))]
      ensures device.uniforms == U(1.0)
      ensures calls == old(calls) + [ProjectCallOf(vel)]
      ensures device.densitySource == old(device.densitySource) && device.velocitySource == old(device.velocitySource)
    {
      var idx := ProjectIndex(vel);
      ghost var p1, p2, bp := Enc(Project1, idx), Enc(Project2, idx), BoundaryEnc(pressure);
      var enc := [Enc(Project1, idx)];
      enc := SetBoundary(enc, 0.0, pressure);
      var i := 0;
      while i < cfg.solverIterations
        invariant 0 <= i <= cfg.solverIterations
        invariant enc == [p1, bp] + Sweeps(p2, bp, i)
        invariant device.uniforms == U(0.0)
        invariant device.stream == old(device.stream) && calls == old(calls)
        invariant device.densitySource == old(device.densitySource) && device.velocitySource == old(device.velocitySource)
      {
        SweepsStep([p1, bp], p2, bp, i);
        enc := enc + [Enc(Project2, idx)];
        enc := SetBoundary(enc, 0.0, pressure);
        i := i + 1;
      }
      assert enc == PressureEnc(vel, pressure, cfg.solverIterations);
      device.Submit(enc);
      ghost var s1 := device.stream;
      enc := [Enc(Project3, idx)];
      enc := SetBoundary(enc, 1.0, vel);
      assert enc == GradientEnc(vel);
      device.Submit(enc);
      assert device.stream == s1 + [Submission(GradientEnc(vel), U(1.0))];
      calls := calls + [ProjectCallOf(vel)];
      AppendTwo(old(device.stream), Submission(PressureEnc(vel, pressure, cfg.solverIterations), U(0.0)),
                Submission(GradientEnc(vel), U(1.0)));
    }

    method UpdateVelocity()
      modifies this, device, state`velocityStep, state`diffuseState
      ensures state.velocityStep == VelocityStepAfter(old(state.velocityStep))
      ensures state.diffuseState == cfg.viscosity
      ensures device.velocitySource == VelocitySourceOf(cfg, state.mouse)
      ensures device.densitySource == old(device.densitySource)
      ensures calls == old(calls) + VelocityCalls(old(state.velocityStep))
      ensures device.stream == old(device.stream)
        + VelocityStream(cfg.solverIterations, old(state.velocityStep), old(device.uniforms), U(1.0))
      ensures device.uniforms == U(1.0)
    {
      // a and o are the buffers velocity[step % 2] and velocity[(step + 1) % 2]
      // name after the odd and the even flips
      var a, o := VelocityBuffer(Flip(state.velocityStep)), VelocityBuffer(state.velocityStep % 2);
      ghost var u0, k := device.uniforms, cfg.solverIterations;
      state.diffuseState := cfg.viscosity;
      state.velocityStep := Flip(state.velocityStep);
      device.WriteVelocitySource(VelocitySourceOf(cfg, state.mouse));
      AddSource(a, o, false);
      state.velocityStep := Flip(state.velocityStep);
      Diffuse(1.0, o, a, cfg.viscosity);
      state.velocityStep := Flip(state.velocityStep);
      Project(a, o);
      state.velocityStep := Flip(state.velocityStep);
      Advect(1.0, o, a, a);
      Project(o, a);
      ghost var u1 := U(1.0);
      AppendFive(old(calls), AddCallOf(a, false), DiffuseCallOf(o), ProjectCallOf(a), AdvectCallOf(o, a), ProjectCallOf(o));
      AppendFive(old(device.stream), Submission(AddEnc(a, false), u0), Submission(DiffuseEnc(o, k), if k > 0 then u1 else u0),
                 Submission(ProjectEnc(a, o, k), u1), Submission(AdvectEnc(o, a), u1), Submission(ProjectEnc(o, a, k), u1));
    }

    /** updateVelocity without the flip after diffusion. */
    method UpdateVelocityFixed()
      modifies this, device, state`velocityStep, state`diffuseState
      ensures state.velocityStep == (old(state.velocityStep) + 1) % 2
      ensures state.diffuseState == cfg.viscosity
      ensures device.velocitySource == VelocitySourceOf(cfg, state.mouse)
      ensures device.densitySource == old(device.densitySource)
      ensures calls == old(calls) + FixedVelocityCalls(old(state.velocityStep))
      ensures device.uniforms == U(1.0)
    {
      var a, o := VelocityBuffer(Flip(state.velocityStep)), VelocityBuffer(state.velocityStep % 2);
      state.diffuseState := cfg.viscosity;
      state.velocityStep := Flip(state.velocityStep);
      device.WriteVelocitySource(VelocitySourceOf(cfg, state.mouse));
      AddSource(a, o, false);
      state.velocityStep := Flip(state.velocityStep);
      Diffuse(1.0, o, a, cfg.viscosity);
      Project(o, a);
      state.velocityStep := Flip(state.velocityStep);
      Advect(1.0, a, o, o);
      Project(a, o);
      AppendFive(old(calls), AddCallOf(a, false), DiffuseCallOf(o), ProjectCallOf(o), AdvectCallOf(a, o), ProjectCallOf(a));
    }

    /** `s0`, `s1`, `s2` are sin(t), sin(t + 2) and sin(t + 4) for
        t = step * 0.01. */
    method UpdateDensity(s0: real, s1: real, s2: real)
      modifies this, device, state`densityStep, state`diffuseState
      ensures state.diffuseState == cfg.diffuse
      ensures state.densityStep == DensityStepAfter(old(state.densityStep), Moved(state.mouse))
      ensures device.densitySource == if Moved(state.mouse) then DyeSource(cfg, s0, s1, s2) else old(device.densitySource)
      ensures device.velocitySource == old(device.velocitySource)
      ensures calls == old(calls) + DensityCalls(old(state.densityStep), state.velocityStep, Moved(state.mouse))
      ensures device.stream == old(device.stream)
        + DensityStream(cfg.solverIterations, old(state.densityStep), state.velocityStep, Moved(state.mouse),
                        old(device.uniforms), U(0.0))
      ensures device.uniforms == U(0.0)
    {
      var a, o, vel := DensityBuffer(Flip(state.densityStep)), DensityBuffer(state.densityStep % 2), VelocityBuffer(state.velocityStep % 2);
      ghost var u0, k := device.uniforms, cfg.solverIterations;
      state.diffuseState := cfg.diffuse;
      state.densityStep := Flip(state.densityStep);
      if Moved(state.mouse) {
        device.WriteDensitySource(DyeSource(cfg, s0, s1, s2));
        AddSource(a, o, true);
        state.densityStep := Flip(state.densityStep);
        Diffuse(0.0, o, a, cfg.diffuse);
        state.densityStep := Flip(state.densityStep);
        Advect(0.0, a, o, vel);
        ghost var u1 := U(0.0);
        AppendThree(old(calls), AddCallOf(a, true), DiffuseCallOf(o), AdvectCallOf(a, vel));
        AppendThree(old(device.stream), Submission(AddEnc(a, true), u0), Submission(DiffuseEnc(o, k), if k > 0 then u1 else u0),
                    Submission(AdvectEnc(a, vel), u1));
      } else {
        Diffuse(0.0, a, o, cfg.diffuse);
        state.densityStep := Flip(state.densityStep);
        Advect(0.0, o, a, vel);
        ghost var u1 := U(0.0);
        AppendTwo(old(calls), DiffuseCallOf(a), AdvectCallOf(o, vel));
        AppendTwo(old(device.stream), Submission(DiffuseEnc(a, k), if k > 0 then u1 else u0), Submission(AdvectEnc(o, vel), u1));
      }
    }

    method Clear()
      modifies device, state`densityStep, state`velocityStep, state`step
      ensures device.stream == old(device.stream) + [ZeroFill(Density0), ZeroFill(Density1), ZeroFill(Velocity0), ZeroFill(Velocity1)]
      ensures state.densityStep == 0 && state.velocityStep == 0 && state.step == 0
      ensures device.uniforms == old(device.uniforms)
    {
      device.Clear(Density0);
      device.Clear(Density1);
      device.Clear(Velocity0);
      device.Clear(Velocity1);
      state.densityStep := 0;
      state.velocityStep := 0;
      state.step := 0;
    }
  }

  // ---------------------------------------------------- boundary and decay

  /** The boundary rule a kernel reads from the uniforms, `u32(b)`. */
  function RuleOf(b: real): (r: nat)
    ensures b == 0.0 ==> r == 0
    ensures b == 1.0 ==> r == 1
    ensures b == 2.0 ==> r == 2
  {
    if b < 1.0 then 0 else b.Floor
  }

  /** As written, project runs every pass with the b = 1 its last
      setBoundary wrote. The passes at odd positions 1 .. 2k + 1 are the
      boundary on the pressure buffer, so the pressure walls at the left
      and right take the adjacent interior pressure negated, where the
      pressure solve wants it copied. */
  lemma PressureBoundaryNegated(vel: Role, pressure: Role, k: nat, u: Uniforms, m: nat,
                                n: nat, p: seq<Cell>, t: nat)
    requires u.b == 1.0 && 1 <= m < 2 * k + 2 && m % 2 == 1
    requires n > 0 && |p| == Size(n) && 1 <= t <= n
    ensures ProjectEnc(vel, pressure, k)[m] == BoundaryEnc(pressure)
    ensures var r := RenderingShaders.FreeSlipPass(n, RuleOf(u.b), p);
      && At(n, r, 0, t) == NegX(At(n, p, 1, t))
      && At(n, r, n + 1, t) == NegX(At(n, p, n, t))
      && (At(n, p, 1, t).x != 0.0 ==> At(n, r, 0, t) != At(n, p, 1, t))
  {
    var i := ProjectIndex(vel);
    ProjectEncodedAt(Enc(Project1, i), Enc(Project2, i), Enc(Project3, i), BoundaryEnc(pressure), BoundaryEnc(vel), k);
    RenderingShaders.FreeSlipWalls(n, 1, p, t);
  }

  /** With the pressure half submitted under b = 0, every pressure
      boundary pass copies the adjacent interior pressure at all four
      walls. */
  lemma FixedPressureBoundaryCopies(vel: Role, pressure: Role, k: nat, u: Uniforms, m: nat,
                                    n: nat, p: seq<Cell>, t: nat)
    requires u.b == 0.0 && 1 <= m < 2 * k + 2 && m % 2 == 1
    requires n > 0 && |p| == Size(n) && 1 <= t <= n
    ensures m < |PressureEnc(vel, pressure, k)| && PressureEnc(vel, pressure, k)[m] == BoundaryEnc(pressure)
    ensures var r := RenderingShaders.FreeSlipPass(n, RuleOf(u.b), p);
      && At(n, r, 0, t) == At(n, p, 1, t)
      && At(n, r, n + 1, t) == At(n, p, n, t)
      && At(n, r, t, 0) == At(n, p, t, 1)
      && At(n, r, t, n + 1) == At(n, p, t, n)
  {
    var i := ProjectIndex(vel);
    SweepsAt(Enc(Project2, i), BoundaryEnc(pressure), k);
    var e := PressureEnc(vel, pressure, k);
    if m > 1 {
      assert e[m] == Sweeps(Enc(Project2, i), BoundaryEnc(pressure), k)[m - 2];
    }
    RenderingShaders.FreeSlipWalls(n, 0, p, t);
  }

  /** As written, the density advection reads its decay factor from the
      viscosity slot, which setUniforms always fills with 0: every
      interior density cell is cleared by the advection pass, even where
      nothing flows. */
  lemma DensityAdvectClears(cfg: SolverSettings, w: Extent, h: Extent, p: Config.Pointer, ds: real,
                            dt0: real, d: seq<Cell>, d0: seq<Cell>, uv: seq<Cell>, k: nat)
    requires cfg.n > 1 && |d| == Size(cfg.n) && |d0| == Size(cfg.n) && |uv| == Size(cfg.n)
    requires k < Size(cfg.n) && InteriorAt(cfg.n, k)
    ensures var u := UniformsFor(cfg.n, cfg.gridSize, cfg.updateInterval, w, h, p, ds, 0.0);
      RenderingShaders.AdvectPass(cfg.n, u.diffuse, dt0, u.visc, RuleOf(u.b), d, d0, uv)[k] == Zero
  {
    var u := UniformsFor(cfg.n, cfg.gridSize, cfg.updateInterval, w, h, p, ds, 0.0);
    RenderingShaders.ZeroDecayClearsDensity(cfg.n, u.diffuse, dt0, d, d0, uv, k);
  }

  /** As written, both advections take the diffuse slot, which setUniforms
      fills with the current diffusion coefficient (DIFFUSE for density,
      VISCOSITY for velocity), for the size of the velocity grid. With the
      shipped coefficient 0 the velocity is read at the cell itself; a
      coefficient strictly between 0 and 1 makes every cell past the first
      row and column read its velocity from the bottom ring cells 0 .. 3. */
  lemma AdvectReadsDiffusionSlot(cfg: SolverSettings, w: Extent, h: Extent, p: Config.Pointer, ds: real,
                                 b: real, uv: seq<Cell>, k: nat)
    requires cfg.n > 1 && |uv| == Size(cfg.n) && k < Size(cfg.n) && InteriorAt(cfg.n, k)
    ensures SrcDefaults.diffuse == 0.0 && SrcDefaults.viscosity == 0.0
    ensures var u := UniformsFor(cfg.n, cfg.gridSize, cfg.updateInterval, w, h, p, ds, b);
      ds == 0.0 ==> RenderingShaders.VelocityAt(cfg.n, u.diffuse, uv, k) == uv[k]
    ensures var u := UniformsFor(cfg.n, cfg.gridSize, cfg.updateInterval, w, h, p, ds, b);
      0.0 < ds < 1.0 && Col(cfg.n, k) > 1 && Row(cfg.n, k) > 1 ==>
        var tx := RenderingShaders.ScaledPosition(cfg.n, ds, Col(cfg.n, k));
        var ty := RenderingShaders.ScaledPosition(cfg.n, ds, Row(cfg.n, k));
        RenderingShaders.VelocityAt(cfg.n, u.diffuse, uv, k)
          == RenderingShaders.Mix(RenderingShaders.Mix(uv[0], uv[1], tx), RenderingShaders.Mix(uv[2], uv[3], tx), ty)
  {
    var u := UniformsFor(cfg.n, cfg.gridSize, cfg.updateInterval, w, h, p, ds, b);
    if 0.0 < ds < 1.0 && Col(cfg.n, k) > 1 && Row(cfg.n, k) > 1 {
      RenderingShaders.FractionalGridReadsRing(cfg.n, ds, uv, k);
    }
  }

  /** setUniforms as the advection kernel expects it: DENSITY_DECAY in the
      viscosity slot, and 0 in the diffuse slot, since the velocity and
      density grids have the same resolution. */
  function AdvectUniforms(cfg: SolverSettings, w: Extent, h: Extent, p: Config.Pointer, ds: real, b: real): (u: Uniforms)
    ensures u.visc == cfg.densityDecay && u.diffuse == 0.0 && u.b == b && u.n == cfg.n as real
  {
    UniformsFor(cfg.n, cfg.gridSize, cfg.updateInterval, w, h, p, ds, b).(visc := cfg.densityDecay, diffuse := 0.0)
  }

  /** With the advection uniforms in place, every advection reads the
      velocity of the cell itself, whatever the diffusion coefficient, so
      where nothing flows the velocity advection (b = 1) keeps the cell. */
  lemma FixedAdvectReadsOwnCell(cfg: SolverSettings, w: Extent, h: Extent, p: Config.Pointer, ds: real,
                                b: real, dt0: real, d: seq<Cell>, d0: seq<Cell>, uv: seq<Cell>, k: nat)
    requires cfg.n > 1 && |d| == Size(cfg.n) && |d0| == Size(cfg.n) && |uv| == Size(cfg.n)
    requires k < Size(cfg.n) && InteriorAt(cfg.n, k)
    ensures var u := AdvectUniforms(cfg, w, h, p, ds, b);
      !RenderingShaders.Scaled(cfg.n, u.diffuse) && RenderingShaders.VelocityAt(cfg.n, u.diffuse, uv, k) == uv[k]
    ensures var u := AdvectUniforms(cfg, w, h, p, ds, b);
      uv[k].x == 0.0 && uv[k].y == 0.0 ==>
        RenderingShaders.AdvectPass(cfg.n, u.diffuse, dt0, u.visc, 1, d, d0, uv)[k] == d0[k]
  {
    var u := AdvectUniforms(cfg, w, h, p, ds, b);
    if uv[k].x == 0.0 && uv[k].y == 0.0 {
      RenderingShaders.AdvectStill(cfg.n, u.diffuse, dt0, u.visc, 1, d, d0, uv, k);
    }
  }

  /** With the decay in place the density advection keeps the advected
      dye scaled by DENSITY_DECAY; where nothing flows a cell keeps that
      share of its own dye, 99% with the shipped settings. */
  lemma FixedDensityAdvectDecays(cfg: SolverSettings, w: Extent, h: Extent, p: Config.Pointer, ds: real,
                                 dt0: real, d: seq<Cell>, d0: seq<Cell>, uv: seq<Cell>, k: nat)
    requires cfg.n > 1 && |d| == Size(cfg.n) && |d0| == Size(cfg.n) && |uv| == Size(cfg.n)
    requires k < Size(cfg.n) && InteriorAt(cfg.n, k)
    ensures var u := AdvectUniforms(cfg, w, h, p, ds, 0.0);
      RenderingShaders.AdvectPass(cfg.n, u.diffuse, dt0, u.visc, RuleOf(u.b), d, d0, uv)[k]
        == Scale(cfg.densityDecay, RenderingShaders.AdvectPass(cfg.n, u.diffuse, dt0, u.visc, 1, d, d0, uv)[k])
    ensures var u := AdvectUniforms(cfg, w, h, p, ds, 0.0);
      uv[k].x == 0.0 && uv[k].y == 0.0 ==>
        RenderingShaders.AdvectPass(cfg.n, u.diffuse, dt0, u.visc, RuleOf(u.b), d, d0, uv)[k] == Scale(cfg.densityDecay, d0[k])
    ensures 0.0 < SrcDefaults.densityDecay < 1.0
  {
    var u := AdvectUniforms(cfg, w, h, p, ds, 0.0);
    RenderingShaders.DecayOnlyDensity(cfg.n, u.diffuse, dt0, u.visc, 0, d, d0, uv, k);
    if uv[k].x == 0.0 && uv[k].y == 0.0 {
      RenderingShaders.AdvectStill(cfg.n, u.diffuse, dt0, u.visc, 0, d, d0, uv, k);
    }
  }
}
