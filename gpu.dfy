/** What the solver drivers do to the GPU, at the level the drivers see
    it: the uniform buffer every kernel reads, the two source buffers, and
    the ordered stream of commands the queue runs. A `queue.writeBuffer`
    takes effect before any command buffer submitted after it, so every
    pass of one encoder runs with the uniform content current at the
    moment the encoder is submitted; a submission therefore records its
    passes together with that content. The drivers' Stam-level calls
    (add source, fade, diffuse, advect, project) are recorded beside the
    stream, each with the buffer it leaves its result in and the buffer it
    reads the field from. */
module Gpu {
  import opened BindGroups
  import opened Arith
  import Config

  datatype Option<T> = None | Some(value: T)

  /** The uniform buffer as setUniforms fills it: mouse position in grid
      units, grid size twice, the diffuse slot, the viscosity slot, N, dt
      and b (the trailing padding float is left out). */
  datatype Uniforms = UniformValues(mouseX: real, mouseY: real, gridW: real, gridH: real,
                                    diffuse: real, visc: real, n: real, dt: real, b: real)

  /** A pointer coordinate in canvas pixels mapped to grid units: the
      canvas edge at 0 goes to 1, the opposite edge to N + 1. */
  function GridCoord(pix: real, extent: real, n: nat): (g: real)
    requires extent > 0.0
    ensures 0.0 <= pix <= extent ==> 1.0 <= g <= n as real + 1.0
    ensures pix == 0.0 ==> g == 1.0
    ensures pix == extent ==> g == n as real + 1.0
  {
    if 0.0 <= pix <= extent then
      UnitFraction(pix, extent);
      MulNonneg(pix / extent, n as real);
      MulMono(n as real, pix / extent, 1.0);
      pix / extent * n as real + 1.0
    else
      pix / extent * n as real + 1.0
  }

  /** setUniforms(b): the pointer in grid units with y counted up from the
      bottom of the canvas, GRID_SIZE twice, STATE.diffuseState, a zero
      viscosity slot, N, the update interval in seconds, and b. */
  function UniformsFor(n: nat, gridSize: nat, interval: real, width: real, height: real,
                       p: Config.Pointer, diffuseState: real, b: real): (u: Uniforms)
    requires width > 0.0 && height > 0.0
    ensures u.visc == 0.0 && u.b == b && u.diffuse == diffuseState && u.n == n as real
    ensures u.gridW == u.gridH == gridSize as real && u.dt * 1000.0 == interval
    ensures 0.0 <= p.x <= width ==> 1.0 <= u.mouseX <= n as real + 1.0
    ensures 0.0 <= p.y <= height ==> 1.0 <= u.mouseY <= n as real + 1.0
    ensures p.y == height ==> u.mouseY == 1.0
    ensures p.y == 0.0 ==> u.mouseY == n as real + 1.0
  {
    UniformValues(GridCoord(p.x, width, n), GridCoord(height - p.y, height, n),
             gridSize as real, gridSize as real, diffuseState, 0.0, n as real, interval / 1000.0, b)
  }

  /** A source buffer: the value added at the pointer and the brush radius
      (the first five floats of the eight-float array). */
  datatype Source = Source(value: (real, real, real, real), radius: real)

  datatype Kernel =
    | AddSourceKernel | BoundaryKernel | DiffuseKernel | AdvectKernel
    | Project1Kernel | Project2Kernel | Project3Kernel | FadeKernel

  /** A compute pass recorded in an encoder: the kernel and the field
      buffers at its storage bindings, in slot order. */
  datatype Encoded = Encoded(kernel: Kernel, fields: seq<Role>)

  /** What the queue receives, in order: a command buffer of passes, all
      of which run with the uniform content current at its submission, a
      CPU write that zero-fills a field buffer, or a frame drawn from a
      field buffer (by the renderer, in the later revision). */
  datatype Command =
    | Submission(passes: seq<Encoded>, u: Uniforms)
    | ZeroFill(role: Role)
    | Drawn(buffer: Option<Role>, viaTexture: bool)
    | Rendered(viaTexture: bool)

  /** The passes of an iterative solve: `k` times a sweep followed by the
      boundary pass on the buffer the sweep wrote. */
  function Sweeps(sweep: Encoded, boundary: Encoded, k: nat): (e: seq<Encoded>)
    ensures |e| == 2 * k
  {
    if k == 0 then [] else Sweeps(sweep, boundary, k - 1) + [sweep, boundary]
  }

  /** Sweeps alternate: even positions hold the sweep, odd ones the
      boundary pass. */
  lemma {:induction false} SweepsAt(sweep: Encoded, boundary: Encoded, k: nat)
    ensures forall i :: 0 <= i < 2 * k ==> Sweeps(sweep, boundary, k)[i] == if i % 2 == 0 then sweep else boundary
  {
    if k > 0 {
      SweepsAt(sweep, boundary, k - 1);
    }
  }

  /** The single encoder of project: divergence and its boundary, `k`
      pressure sweeps each with its boundary, then the gradient subtraction
      and the velocity boundary. */
  function ProjectEncoded(p1: Encoded, p2: Encoded, p3: Encoded, pressureBoundary: Encoded,
                          velocityBoundary: Encoded, k: nat): (e: seq<Encoded>)
    ensures |e| == 2 * k + 4
    ensures e[0] == p1 && e[|e| - 2] == p3 && e[|e| - 1] == velocityBoundary
  {
    [p1, pressureBoundary] + Sweeps(p2, pressureBoundary, k) + [p3, velocityBoundary]
  }

  /** Between divergence and gradient, odd positions hold the pressure
      boundary and even ones the pressure sweep. */
  lemma ProjectEncodedAt(p1: Encoded, p2: Encoded, p3: Encoded, pressureBoundary: Encoded,
                         velocityBoundary: Encoded, k: nat)
    ensures var e := ProjectEncoded(p1, p2, p3, pressureBoundary, velocityBoundary, k);
      forall i :: 1 <= i < 2 * k + 2 ==> e[i] == if i % 2 == 1 then pressureBoundary else p2
  {
    SweepsAt(p2, pressureBoundary, k);
  }

  /** Appending entries one at a time appends their sequence: the drivers'
      records grow one call or one submission per step. */
  lemma AppendTwo<T>(s: seq<T>, a: T, b: T)
    ensures s + [a] + [b] == s + [a, b]
  {
  }

  lemma AppendThree<T>(s: seq<T>, a: T, b: T, c: T)
    ensures s + [a] + [b] + [c] == s + [a, b, c]
  {
  }

  lemma AppendFour<T>(s: seq<T>, a: T, b: T, c: T, d: T)
    ensures s + [a] + [b] + [c] + [d] == s + [a, b, c, d]
  {
  }

  lemma AppendFive<T>(s: seq<T>, a: T, b: T, c: T, d: T, e: T)
    ensures s + [a] + [b] + [c] + [d] + [e] == s + [a, b, c, d, e]
  {
  }

  /** One more sweep and its boundary pass extend the solve by one
      iteration, after any prefix. */
  lemma SweepsStep(prefix: seq<Encoded>, sweep: Encoded, boundary: Encoded, k: nat)
    ensures Sweeps(sweep, boundary, k) + [sweep] + [boundary] == Sweeps(sweep, boundary, k + 1)
    ensures prefix + Sweeps(sweep, boundary, k) + [sweep] + [boundary] == prefix + Sweeps(sweep, boundary, k + 1)
  {
    assert Sweeps(sweep, boundary, k + 1) == Sweeps(sweep, boundary, k) + [sweep, boundary];
  }

  /** The queue and the buffers the drivers write from the CPU. */
  class Device {
    var uniforms: Uniforms
    var densitySource: Source
    var velocitySource: Source
    var stream: seq<Command>

    constructor(u: Uniforms)
      ensures uniforms == u && stream == []
      ensures densitySource == Source((0.0, 0.0, 0.0, 0.0), 0.0)
      ensures velocitySource == Source((0.0, 0.0, 0.0, 0.0), 0.0)
    {
      uniforms := u;
      densitySource := Source((0.0, 0.0, 0.0, 0.0), 0.0);
      velocitySource := Source((0.0, 0.0, 0.0, 0.0), 0.0);
      stream := [];
    }

    /** `queue.writeBuffer(uniformBuffer, ...)`. */
    method WriteUniforms(u: Uniforms)
      modifies this
      ensures uniforms == u
      ensures densitySource == old(densitySource) && velocitySource == old(velocitySource)
      ensures stream == old(stream)
    {
      uniforms := u;
    }

    method WriteDensitySource(s: Source)
      modifies this
      ensures densitySource == s
      ensures uniforms == old(uniforms) && velocitySource == old(velocitySource) && stream == old(stream)
    {
      densitySource := s;
    }

    method WriteVelocitySource(s: Source)
      modifies this
      ensures velocitySource == s
      ensures uniforms == old(uniforms) && densitySource == old(densitySource) && stream == old(stream)
    {
      velocitySource := s;
    }

    /** `queue.submit([encoder.finish()])`. */
    method Submit(enc: seq<Encoded>)
      modifies this
      ensures stream == old(stream) + [Submission(enc, uniforms)]
      ensures uniforms == old(uniforms) && densitySource == old(densitySource) && velocitySource == old(velocitySource)
    {
      stream := stream + [Submission(enc, uniforms)];
    }

    /** Drawing the frame from `buffer`, through the texture or directly. */
    method Draw(buffer: Option<Role>, viaTexture: bool)
      modifies this
      ensures stream == old(stream) + [Drawn(buffer, viaTexture)]
      ensures uniforms == old(uniforms) && densitySource == old(densitySource) && velocitySource == old(velocitySource)
    {
      stream := stream + [Drawn(buffer, viaTexture)];
    }

    /** `renderer.render(textureDraw)`. */
    method Render(viaTexture: bool)
      modifies this
      ensures stream == old(stream) + [Rendered(viaTexture)]
      ensures uniforms == old(uniforms) && densitySource == old(densitySource) && velocitySource == old(velocitySource)
    {
      stream := stream + [Rendered(viaTexture)];
    }

    /** `queue.writeBuffer(field, 0, zeros)`. */
    method Clear(r: Role)
      modifies this
      ensures stream == old(stream) + [ZeroFill(r)]
      ensures uniforms == old(uniforms) && densitySource == old(densitySource) && velocitySource == old(velocitySource)
    {
      stream := stream + [ZeroFill(r)];
    }
  }

  // ------------------------------------------------------------ Stam stages

  datatype Stage = AddSourceStage | FadeStage | DiffuseStage | AdvectStage | ProjectStage

  /** One Stam-level call: the buffer it leaves the field in, the buffer it
      takes the field from (the same buffer for the in-place fade and
      project), the velocity it moves along (advect) and the scratch buffer
      it overwrites (project's pressure and divergence). */
  datatype Call = Call(stage: Stage, out: Role, src: Role, vel: Option<Role>, scratch: Option<Role>)

  function AddSourceCall(out: Role, input: Role): Call { Call(AddSourceStage, out, input, None, None) }

  function FadeCall(buffer: Role): Call { Call(FadeStage, buffer, buffer, None, None) }

  function DiffuseCall(out: Role, input: Role): Call { Call(DiffuseStage, out, input, None, None) }

  function AdvectCall(out: Role, input: Role, vel: Role): Call { Call(AdvectStage, out, input, Some(vel), None) }

  function ProjectCall(vel: Role, pressure: Role): Call { Call(ProjectStage, vel, vel, None, Some(pressure)) }

  /** Each stage consumes the field the stage before it produced. */
  predicate Pipeline(cs: seq<Call>)
  {
    forall i :: 0 < i < |cs| ==> cs[i].src == cs[i - 1].out
  }

  /** No stage overwrites the field it reads with scratch, and the stages
      that write a second buffer never write the one they read. */
  predicate Separated(c: Call)
  {
    && (c.stage in {AddSourceStage, DiffuseStage, AdvectStage} ==> c.out != c.src)
    && (c.scratch.Some? ==> c.scratch.value != c.out)
  }
}
