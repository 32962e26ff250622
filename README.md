# FluidSimulation in Dafny

A model of the solver core of FluidSimulation, a WebGPU implementation of
Jos Stam's "stable fluids" method on an (N+2) x (N+2) grid. The interior is
N x N, the outer ring of cells is the boundary, and cell (i, j) has the flat
index j·(N+2)+i. Every cell holds four floats. Density carries an RGBA dye,
velocity carries (u, v) in x and y, and project's scratch field holds
pressure in x and divergence in y.

The repository holds two revisions of the solver, and the model keeps both
side by side.

- **First revision.** The kernels are in `shaders.js`, module `Shaders`,
  with the three projection kernels in module `Projection`. They have an
  obstacle mask, a hard-edged brush, a fade kernel and an obstacle painter.
  The driver is the `FluidSimulation` class of `fluidSimulation.js`, module
  `RootSimulation`. It builds a bind group from its buffer arguments for
  every pass. Its number of relaxation sweeps is
  `max(2, floor(SOLVER_ITERATIONS·sqrt(64/N)))`. It can fade the dye before
  diffusing it.
- **Later revision.** The kernels are in `src/rendering/shaders.js`, module
  `RenderingShaders`. They have a Gaussian splat, a free-slip boundary keyed
  on b ∈ {1, 2}, Stam's diffusion rate dt·diff·N², advection with a density
  decay, curl and gravity. The advection reads the diffuse uniform as the
  size `vel_N` of a velocity grid. When that value is positive and differs
  from N, it samples a grid `u32(vel_N + 2)` cells wide laid over the
  velocity buffer. The
  projection kernels are the same text as in the first revision. The driver
  is `FluidSolver` in `src/core/solver.js`, module `Solver`. It picks each
  pass's buffers from the precomputed bind-group table of
  `src/gpu/bindGroups.js`, module `BindGroups`. The frame loop is in
  `src/core/FluidSimulation.js`, module `CoreSimulation`.
- **Shared modules.** `Config` covers `config.js`: the palette index, the
  adaptive interval and resolution, and the `STATE` record. `Gpu` covers the
  queue as the drivers see it: the uniform buffer, the two source buffers
  and an ordered stream of submitted command buffers. `Grid`, `Sampling`
  and `Arith` are shared vocabulary.

**Kernels.** Each kernel is a per-cell function and a whole-field "pass"
function. Every invocation of a dispatch reads the buffers as they were when
the dispatch started. The boundary kernels are the exception: their corners
are taken from the ring after the edges are written (see "Left out"). Each kernel is also an array `method` whose loop is
proved to leave exactly the pass function's result in the output array. The
properties are lemmas about the pass functions:

- the maximum principle of diffusion and advection;
- the boundary rules, wall by wall;
- fixed points of the pressure sweep;
- the two revisions agreeing where their kernels should;
- and the like.

**Drivers.** Each driver is a class. Its methods append to the command
stream and to a record of Stam-level calls (add source, fade, diffuse,
advect, project). Each call records the buffer it leaves the field in, the
buffer it reads and the velocity it moves along. A submission records the
uniform content current when it is submitted: a `queue.writeBuffer` takes
effect before any later submission, so every pass of one encoder runs with
the last uniforms written before its `submit`. The lemmas about the call
records state whether `vel_step` and `dens_step` form a pipeline, that is,
whether each stage consumes what the previous stage produced.

## Model

| member | source | states |
|---|---|---|
| Grid.DispatchCoversInterior | src/core/solver.js:49-50 | ceil(N/16)·16 threads per axis cover the N interior cells, and they are exactly N iff N is a positive multiple of WORKGROUP_SIZE; otherwise the unguarded kernels also write ring cells |
| Grid.CoordsOf | shaders.js:12-15 | IX(i, j) lies inside the grid, and column and row recover i and j |
| Grid.IndexOf | shaders.js:12-15 | every flat index is IX of its own column and row |
| Grid.Neighbours | shaders.js:399-403 | for an interior cell, idx±1 and idx±(N+2) are its left, right, bottom and top neighbours, all inside the grid |
| Grid.CornerRule | shaders.js:314-330 | the corner phase sets each corner to the mean of its two ring neighbours, as they are after the edge phase, and changes no other cell |
| Grid.CornerPhaseCongruence | src/rendering/shaders.js:257-272 | the corner phase depends only on the non-corner cells it is given |
| Grid.RelaxCellBounded | src/rendering/shaders.js:306-307 | one Jacobi relaxation (x0 + a·Σneighbours)/(1+4a) of values within [lo, hi] stays within [lo, hi] |
| Sampling.Clamp | shaders.js:470-471 | the result lies in [lo, hi] and equals the input when the input is already there |
| Sampling.Backtrace | shaders.js:463-488 | the backtraced position is clamped to [0.5, N+0.5], split into a cell i0 ∈ [0, N] with i1 = i0+1 ≤ N+1, and weights s0, s1 ≥ 0 with s0+s1 = 1 and i0+s1 equal to the clamped position |
| Sampling.StillBacktrace | shaders.js:463-488 | with zero velocity a cell backtraces onto itself with full weight |
| Sampling.Weights | shaders.js:501-504 | the four bilinear weights are non-negative and sum to 1 |
| Shaders.AddDensity | shaders.js:273-284 | the output array is the inject pass over the input: every interior non-solid cell strictly within the radius gets input + colour, and every other interior cell gets the input |
| Shaders.InjectExactlyWithin | shaders.js:279-282 | an interior cell receives the colour iff it is fluid and strictly within the brush radius, and otherwise keeps its input (both directions) |
| Shaders.SetBoundary | shaders.js:305-365 | the array becomes the boundary pass. Every cell other than a corner is zero if solid, otherwise a ring cell takes its wall rule from the input. Each corner is the mean of its two ring neighbours as this phase leaves them |
| Shaders.BoundaryWalls | shaders.js:339-364 | each fluid wall cell copies the adjacent interior cell when b = 0, and takes it with the wall-normal channel negated otherwise |
| Shaders.BoundaryCells | shaders.js:332-337 | solid cells become zero, and fluid interior cells are unchanged |
| Shaders.BoundaryCorners | shaders.js:314-330 | each corner is the mean of its two ring neighbours in the result |
| Shaders.BoundaryIdempotent | shaders.js:305-365 | with a fluid interior, applying the boundary pass twice equals applying it once |
| Shaders.DiffusionRate | shaders.js:396 | the rate dt·diff·N·0.1 is non-negative for non-negative inputs, and 0 when any factor is 0 |
| Shaders.Adjusted | shaders.js:414-425 | the neighbour-count scaled rate lies in [0, a] and equals a when all four neighbours are fluid |
| Shaders.Diffuse | shaders.js:381-432 | the output array is one Jacobi sweep of the diffusion equation that skips solid neighbours, with solid cells zeroed |
| Shaders.DiffuseWithoutDiffusion | shaders.js:389-431 | with rate 0 an interior cell takes the source value, or zero if solid |
| Shaders.DiffuseEnclosedCell | shaders.js:414-431 | a fluid cell walled in on all four sides keeps its source value |
| Shaders.DiffuseBounded | shaders.js:405-431 | maximum principle: if the field and source lie in [lo, hi] (lo ≤ 0 ≤ hi), so does the result |
| Shaders.Advect | shaders.js:449-519 | the output array is the semi-Lagrangian pass: backtrace, clamp, and a bilinear blend that drops solid taps |
| Shaders.AdvectStill | shaders.js:457-518 | where the velocity is zero, a fluid interior cell keeps its previous value |
| Shaders.AdvectBounded | shaders.js:495-518 | maximum principle of the advection pass |
| Shaders.SampleBounded | shaders.js:506-518 | the obstacle-aware bilinear sample of values in [lo, hi] lies in [lo, hi] |
| Shaders.Fade | shaders.js:644-652 | the array becomes the fade pass, every cell scaled by the factor |
| Shaders.FadeEnergy | shaders.js:651 | fading by f scales the field's squared norm by f² |
| Shaders.FadeTwice | shaders.js:651 | fading by f then g is fading by g·f |
| Shaders.Vorticity | shaders.js:673-687 | the curl array is the curl pass over the velocity |
| Shaders.CurlOfSimpleFlows | shaders.js:681-686 | the curl is 0 where the cross differences vanish, and 2c for a rigid rotation of speed c |
| Shaders.SetObstacle | shaders.js:891-897 | the mask becomes the paint pass: the value inside the radius, elsewhere unchanged |
| Shaders.ObstaclePaint | shaders.js:891-897 | painting is idempotent and keeps a 0/1 mask a 0/1 mask |
| Projection.Project1 | shaders.js:543-554 | the scratch array is the divergence pass: divergence in y and pressure 0 in x on the interior |
| Projection.Project1Frame | shaders.js:552-554 | project1 clears the pressure, keeps z and w, and leaves the ring unchanged |
| Projection.DivergenceOfLinearFlow | shaders.js:543-554 | for the flow (a·i, b·j) the stored divergence is −(a+b)/N |
| Projection.UniformFlowDivergenceFree | src/rendering/shaders.js:418-438 | a uniform flow has zero divergence and leaves zero pressure |
| Projection.Project2 | shaders.js:587-589 | the scratch array is one Jacobi sweep of the pressure Poisson equation |
| Projection.PressureFixedPoint | shaders.js:587-589 | a cell is unchanged by the sweep iff its residual is zero, the sweep moves x by a quarter of the residual, and the other channels are unchanged |
| Projection.PressureSolutionStable | src/rendering/shaders.js:470-472 | a pressure with zero residual everywhere is a fixed point of the sweep |
| Projection.ConstantPressureSolves | shaders.js:587-589 | a constant pressure over zero divergence has zero residual |
| Projection.Project3 | shaders.js:614-624 | the velocity array is the gradient-subtraction pass |
| Projection.ConstantPressureNoCorrection | src/rendering/shaders.js:497-507 | a constant pressure leaves the velocity unchanged |
| Projection.Project3Frame | shaders.js:623-624 | project3 keeps z and w, and leaves the ring unchanged |
| Projection.GradientOfLinearPressure | shaders.js:614-624 | the pressure a·i subtracts 2·a·N from u and leaves v |
| RenderingShaders.AddDensity | src/rendering/shaders.js:165-176 | the output array is the splat pass: each interior cell gets input + falloff(d²)·colour |
| RenderingShaders.SplatBetween | src/rendering/shaders.js:165-176 | with a falloff in [0, 1] and a non-negative colour, every channel lies between input and input + colour |
| RenderingShaders.SetBoundary | src/rendering/shaders.js:196-273 | the array becomes the free-slip pass: the walls of the later revision from the input, then each corner from its two ring neighbours as the walls leave them |
| RenderingShaders.FreeSlipWalls | src/rendering/shaders.js:209-254 | the left and right walls negate x iff b = 1, the top and bottom walls negate y iff b = 2, and otherwise copy the adjacent cell |
| RenderingShaders.FreeSlipInteriorAndCorners | src/rendering/shaders.js:257-272 | interior cells are unchanged, and each of the four corners is the mean of its two ring neighbours |
| RenderingShaders.DensityBoundariesAgree | src/rendering/shaders.js:209-272 | with no obstacles, the b = 0 boundary equals the first revision's |
| RenderingShaders.VelocityBoundaryLeaks | src/rendering/shaders.js:233-254 | with b = 1 the top and bottom walls cancel the vertical velocity iff it is already zero (finding e) |
| RenderingShaders.ReflectWalls | src/rendering/shaders.js:209-254 | the intended velocity boundary negates the normal channel at every wall and keeps the tangential one (finding e, corrected) |
| RenderingShaders.VelocityBoundariesAgree | shaders.js:339-364 | with no obstacles, the reflecting boundary equals the first revision's b ≠ 0 boundary |
| RenderingShaders.StamRate | src/rendering/shaders.js:296-297 | dt·diff·N² is non-negative and zero when any factor is zero |
| RenderingShaders.Diffuse | src/rendering/shaders.js:289-308 | the output array is one Jacobi diffusion sweep at Stam's rate |
| RenderingShaders.DiffuseWithoutDiffusion | src/rendering/shaders.js:297-307 | with rate 0 every interior cell takes the source |
| RenderingShaders.DiffuseBounded | src/rendering/shaders.js:306-307 | maximum principle of the sweep |
| RenderingShaders.DiffusionSweepsAgree | src/rendering/shaders.js:289-308 | with no obstacles, the sweep equals the first revision's sweep at the same rate |
| RenderingShaders.U32 | src/rendering/shaders.js:347-351 | `u32` of a float truncates a non-negative value to the integer below it, and gives 0 below 1 |
| RenderingShaders.ScaledPosition | src/rendering/shaders.js:341-344 | the rescaled position lies between 1 and vel_N, and is 1 exactly at the first cell or when vel_N = 1 |
| RenderingShaders.ScaledAxis | src/rendering/shaders.js:341-354 | for a real vel_N > 0 both taps lie inside the grid `u32(vel_N + 2)` wide with valid weights. For vel_N ≥ 1 the taps are a cell ≥ 1 and its successor; below 1 they are cells 0 and 1, or 1 and 1 at the first position. The first tap plus its weight is the rescaled position |
| RenderingShaders.TapInBuffer | src/rendering/shaders.js:347-359 | a tap of a grid no wider than N + 2 lies inside the velocity buffer |
| RenderingShaders.UniformVelocityLookup | src/rendering/shaders.js:334-364 | a uniform velocity field is read back unchanged, through either lookup, when vel_N < N + 1 |
| RenderingShaders.FractionalGridReadsRing | src/rendering/shaders.js:334-361 | for 0 < vel_N < 1, every cell past the first row and column mixes its velocity from cells 0 .. 3 alone, which are on the bottom ring row (finding f) |
| RenderingShaders.Advect | src/rendering/shaders.js:324-402 | the output array is the advection pass, with vel_N the real value of the diffuse slot and the decay applied to density |
| RenderingShaders.AdvectStill | src/rendering/shaders.js:364-401 | where nothing flows a cell keeps its previous value, times the decay when b = 0 |
| RenderingShaders.DecayOnlyDensity | src/rendering/shaders.js:395-399 | the decay scales the result iff b = 0, and velocity advection ignores it |
| RenderingShaders.ZeroDecayClearsDensity | src/rendering/shaders.js:395-399 | a zero decay clears every interior density cell |
| RenderingShaders.AdvectBounded | src/rendering/shaders.js:368-401 | maximum principle, given a decay in [0, 1] for density |
| RenderingShaders.AdvectionsAgree | src/rendering/shaders.js:368-393 | with no obstacles and equal grids, velocity advection equals the first revision's |
| RenderingShaders.BlendIsStam | src/rendering/shaders.js:388-393 | with no obstacles, the obstacle-aware blend of the first revision is Stam's bilinear blend |
| RenderingShaders.Vorticity | src/rendering/shaders.js:524-545 | the curl array is the curl pass |
| RenderingShaders.CurlScaledByN | src/rendering/shaders.js:540-544 | this curl is N times the first revision's |
| RenderingShaders.Gravity | src/rendering/shaders.js:602-616 | the velocity array is the gravity pass: on the interior, v is lowered by g·dt·0.3, with g read from the viscosity slot |
| RenderingShaders.GravityComposes | src/rendering/shaders.js:615 | two gravity passes are one with the summed gravity, and zero gravity changes nothing |
| Config.PaletteIndex | config.js:24-35 | the index is at most 6, and 0 for an unknown name |
| Config.PaletteIndexInverse | config.js:25-33 | each listed palette name maps to its own position |
| Config.AdaptiveUpdateInterval | config.js:41-46 | the interval is never below the configured one: the configured one up to N = 64, then at least 40, 60 or 80 ms |
| Config.AdaptiveUpdateIntervalMonotone | config.js:41-46 | a larger grid never gets a shorter interval |
| Config.AdaptiveDisplayResolution | config.js:48-53 | the resolution never exceeds the configured one, capped at 512 up to N = 128 and at 256 beyond |
| Config.AdaptiveDisplayResolutionMonotone | config.js:48-53 | a larger grid never gets a higher resolution |
| Config.DefaultsConsistent | config.js:2-23 | GRID_SIZE = N+2, N is a multiple of WORKGROUP_SIZE, the default palette has index 0, the adaptive settings keep the defaults at N = 64, and 0 < FADE < 1 |
| Config.SimState.constructor | config.js:56-64 | the initial STATE: DIFFUSE, draw density, not paused, texture drawing, counters 0, pointer at the origin |
| BindGroups.GroupsMatchLayouts | src/gpu/bindGroups.js:3-249 | every group has one entry per layout slot, and the uniform-type slots hold exactly the uniform and source buffers |
| BindGroups.Target | src/gpu/bindGroups.js:3-249 | every compute group writes exactly one field buffer |
| BindGroups.WritesOf | src/gpu/bindGroups.js:3-249 | the written buffer sits in slot 2 for project1 and project2, and in slot 1 for the others |
| BindGroups.SourceAndDiffuseGroups | src/gpu/bindGroups.js:3-122 | add and diffuse group i write buffer i and read buffer 1−i of the same pair |
| BindGroups.AdvectDensityGroups | src/gpu/bindGroups.js:123-164 | group k writes density[k/2], reads density[1−k/2] and moves along velocity[k%2] |
| BindGroups.AdvectVelocityGroups | src/gpu/bindGroups.js:166-187 | group i writes velocity[i] and moves velocity[1−i] along itself |
| BindGroups.ProjectGroups | src/gpu/bindGroups.js:188-249 | project1 and project2 write the pressure scratch velocity[1−i], and project3 writes velocity[i] |
| BindGroups.SharedFieldOrder | src/gpu/bindGroups.js:48-81 | the boundary, texture and draw groups share the order density0, density1, velocity0, velocity1 |
| BindGroups.NoReadWriteAliasing | src/gpu/bindGroups.js:3-249 | no group reads the buffer it writes |
| Gpu.GridCoord | src/core/solver.js:19-20 | a pointer inside the canvas maps into [1, N+1], the edges to 1 and N+1 |
| Gpu.UniformsFor | src/core/solver.js:18-29 | setUniforms writes a zero viscosity slot, the given b, STATE.diffuseState, N, dt = interval/1000, y counted upward, and the mouse within [1, N+1] |
| Gpu.SweepsAt | src/core/solver.js:92-100 | the iterative encoder alternates sweep and boundary passes |
| Gpu.ProjectEncoded | src/core/solver.js:137-161 | project's encoder has 2k+4 passes, starting with project1 and ending with project3 and the velocity boundary |
| Gpu.ProjectEncodedAt | src/core/solver.js:143-153 | between them, the odd positions hold the pressure boundary and the even ones project2 |
| Gpu.Device.WriteUniforms | src/core/solver.js:31 | writing the uniforms changes only the uniform buffer |
| Gpu.Device.Submit | src/core/solver.js:102 | a submission is appended with the uniforms current at submit |
| Gpu.Device.Clear | src/core/solver.js:255-258 | a zero fill is appended to the stream |
| Solver.AddGroup | src/core/solver.js:37-43 | the addSource group binds the output and its partner, chosen by the source buffer and the output |
| Solver.BoundaryIndex | src/core/solver.js:60-64 | the boundary group index binds exactly the given buffer |
| Solver.DiffuseGroup | src/core/solver.js:78-87 | the diffuse group binds the output and its partner |
| Solver.AdvectGroup | src/core/solver.js:107-115 | a density output is bound with its partner and the chosen velocity; a velocity output is moved along its partner whatever velocity is passed |
| Solver.ProjectIndex | src/core/solver.js:134 | all three project groups bind the velocity buffer and its partner as pressure |
| Solver.DiffuseGroupAccess | src/core/solver.js:78-87 | the chosen diffuse group writes only the output and reads only its partner |
| Solver.AddGroupAccess | src/core/solver.js:37-43 | so does the addSource group, when the source matches the output's kind |
| Solver.AdvectGroupAccess | src/core/solver.js:107-115 | the advect group writes only the output and reads the partner and the velocity |
| Solver.ProjectGroupAccess | src/core/solver.js:134-161 | the project groups write and read only the velocity and its partner |
| Solver.ProjectSplitKeepsPasses | src/core/solver.js:137-163 | splitting project at the gradient keeps every pass and its order |
| Solver.AddCallOf | src/core/solver.js:35-54 | addSource adds into the output from its partner |
| Solver.DiffuseCallOf | src/core/solver.js:75-103 | diffuse writes the output from its partner, whatever input is passed |
| Solver.AdvectCallOf | src/core/solver.js:106-127 | advect writes the output from its partner, along the chosen velocity |
| Solver.ProjectCallOf | src/core/solver.js:130-164 | project works in place on the velocity, with its partner as scratch |
| Solver.Flip | src/core/solver.js:170 | (step+1)%2 is the other parity |
| Solver.StepsSeparated | src/core/solver.js:166-249 | no call of either step writes the buffer it reads, and no projection uses its own output as scratch |
| Solver.DensityPipeline | src/core/solver.js:212-249 | dens_step is a pipeline from density[densityStep] into density[densityStep'], moved along velocity[velocityStep] |
| Solver.VelocityEndsAtStep | src/core/solver.js:166-210 | vel_step starts from velocity[velocityStep] and leaves the field in velocity[velocityStep'] |
| Solver.VelocityProjectSkipsDiffusion | src/core/solver.js:190-199 | the first project reads the buffer the force was added to, not the one diffusion wrote, so vel_step is not a pipeline (finding a) |
| Solver.FixedVelocityPipeline | src/core/solver.js:166-210 | without the flip after diffusion, vel_step is a separated pipeline that advects along the projected field (finding a, corrected) |
| Solver.FramesChain | src/core/solver.js:247-249 | the next frame's density step starts where this one ended, and advects along the velocity this frame produced |
| Solver.DyeSource | src/core/solver.js:219-229 | the dye has alpha 1, COLOR_RADIUS, and channels in [0, 0.2] for sines in [−1, 1] |
| Solver.VelocitySourceOf | src/core/solver.js:172-180 | the force is the pointer displacement times the multiplier with y upward, zero when the pointer did not move, and its signs follow the motion |
| Solver.FluidSolver.SetUniforms | src/core/solver.js:18-32 | the uniform buffer holds setUniforms(b), and nothing else changes |
| Solver.FluidSolver.AddSource | src/core/solver.js:35-54 | one submission with the entry uniforms, and one add call |
| Solver.FluidSolver.SetBoundary | src/core/solver.js:57-72 | appends the boundary pass and writes setUniforms(b) |
| Solver.FluidSolver.Diffuse | src/core/solver.js:75-103 | one submission of SOLVER_ITERATIONS sweeps, each with its boundary, and one diffuse call |
| Solver.FluidSolver.Advect | src/core/solver.js:106-127 | one submission of advect and boundary under setUniforms(b), and one advect call |
| Solver.FluidSolver.Project | src/core/solver.js:130-164 | one submission of the whole projection, all under setUniforms(1) |
| Solver.FluidSolver.ProjectFixed | src/core/solver.js:130-164 | the pressure half is submitted under setUniforms(0), and the gradient half under setUniforms(1) (finding b, corrected) |
| Solver.FluidSolver.UpdateVelocity | src/core/solver.js:166-210 | the calls are vel_step as written, with the command stream, the force buffer and the step counter it leaves |
| Solver.FluidSolver.UpdateVelocityFixed | src/core/solver.js:166-210 | the calls are the corrected vel_step, and the counter ends one flip on |
| Solver.FluidSolver.UpdateDensity | src/core/solver.js:212-250 | the calls are dens_step, with its stream, the dye written only when the pointer moved, and the counter |
| Solver.FluidSolver.Clear | src/core/solver.js:252-263 | zero-fills the four fields in order and resets the three counters |
| Solver.RuleOf | src/rendering/shaders.js:211 | u32(b) maps 0, 1 and 2 to rules 0, 1 and 2 |
| Solver.PressureBoundaryNegated | src/core/solver.js:143-161 | every pressure boundary pass of project runs with b = 1 and negates the wall pressure at the left and right walls (finding b) |
| Solver.FixedPressureBoundaryCopies | src/core/solver.js:143-153 | under b = 0 every pressure boundary copies the adjacent pressure at all four walls (finding b, corrected) |
| Solver.DensityAdvectClears | src/core/solver.js:23-29 | the density advection reads a decay of 0 from the viscosity slot and clears every interior cell (finding c) |
| Solver.AdvectReadsDiffusionSlot | src/core/solver.js:26 | with the diffusion coefficient in the diffuse slot, the shipped value 0 makes the advection read velocity at the cell itself. A value in (0, 1) makes it read the bottom ring cells 0 .. 3 (finding f) |
| Solver.FixedAdvectReadsOwnCell | src/rendering/shaders.js:334-364 | with 0 in the diffuse slot of the advection uniforms, every cell reads its own velocity whatever the coefficient, and a still cell keeps its value under velocity advection (finding f, corrected) |
| Solver.FixedDensityAdvectDecays | src/rendering/shaders.js:395-399 | with the decay in place, advected dye is scaled by DENSITY_DECAY ∈ (0, 1), and a still cell keeps that share (finding c, corrected) |
| RootSimulation.Isqrt | fluidSimulation.js:336 | r² ≤ m < (r+1)² |
| RootSimulation.IsqrtUnique | fluidSimulation.js:336 | the integer square root is the only root bracketing m |
| RootSimulation.IsqrtMonotone | fluidSimulation.js:336 | the integer square root is monotone |
| RootSimulation.IterationCount | fluidSimulation.js:336 | at least 2 sweeps, and above 2 the floor of SOLVER_ITERATIONS·sqrt(64/N) |
| RootSimulation.IterationCountDefaults | fluidSimulation.js:336 | with N = 64, the configured 10 sweeps are kept |
| RootSimulation.IterationsShrinkWithGrid | fluidSimulation.js:391 | a finer grid never gets more sweeps |
| RootSimulation.DiffuseBindsAlike | fluidSimulation.js:338-346 | for the partner arguments, both revisions bind the same diffuse buffers |
| RootSimulation.AddBindsAlike | fluidSimulation.js:290-311 | the same holds for addSource |
| RootSimulation.AdvectBindsAlike | fluidSimulation.js:364-374 | the same holds for advect, with the velocity output moved along its partner |
| RootSimulation.ProjectBindsAlike | fluidSimulation.js:398-444 | the same holds for the three project groups |
| RootSimulation.DyeSource | fluidSimulation.js:541-549 | the dye has alpha 1, COLOR_RADIUS, and channels in [0, 1] for waves in [−1, 1] |
| RootSimulation.ForceSource | fluidSimulation.js:463-469 | the force is the raw pointer displacement with y upward, zero when the pointer did not move |
| RootSimulation.FadeIsOverwritten | fluidSimulation.js:561-568 | fade scales the buffer diffuse then overwrites, so dens_step is not a pipeline, and with zero diffusion the diffuse result is the same with or without the fade (finding d) |
| RootSimulation.FixedFadeReachesDiffusion | fluidSimulation.js:561-568 | fading the buffer diffuse reads makes dens_step a pipeline, and with zero diffusion the result is the faded input (finding d, corrected) |
| RootSimulation.PressureBoundaryNegated | fluidSimulation.js:413-451 | this revision's project also runs its pressure boundaries under b = 1, negating the pressure on fluid left and right wall cells (finding b) |
| RootSimulation.FixedPressureBoundaryCopies | fluidSimulation.js:413-451 | split into a pressure submission and a gradient submission, project keeps every pass in order; under b = 0 every pressure boundary pass copies the adjacent interior pressure onto each fluid cell of all four walls (finding b, corrected) |
| RootSimulation.DrawsLatestField | fluidSimulation.js:660-667 | after a frame the drawn buffer is the last one the matching step wrote, and nothing is drawn for another draw state |
| RootSimulation.FluidSimulation.SetUniforms | fluidSimulation.js:272-288 | the uniform buffer holds setUniforms(b) |
| RootSimulation.FluidSimulation.AddSource | fluidSimulation.js:290-311 | one submission binding the given output and input, and one add call |
| RootSimulation.FluidSimulation.SetBoundary | fluidSimulation.js:313-331 | appends the boundary pass and writes setUniforms(b) |
| RootSimulation.FluidSimulation.Diffuse | fluidSimulation.js:333-362 | one submission of IterationCount sweeps with their boundaries |
| RootSimulation.FluidSimulation.Advect | fluidSimulation.js:364-386 | one submission of advect and boundary on the given buffers |
| RootSimulation.FluidSimulation.Project | fluidSimulation.js:388-455 | one submission of the whole projection under setUniforms(1) |
| RootSimulation.FluidSimulation.UpdateVelocity | fluidSimulation.js:457-496 | the calls are vel_step as written, with the stream, the raw force and the counter |
| RootSimulation.FluidSimulation.Fade | fluidSimulation.js:498-529 | writes the fade uniforms with FADE in the diffuse slot, then submits the fade pass on the buffer |
| RootSimulation.FluidSimulation.UpdateDensity | fluidSimulation.js:531-574 | the calls are dens_step with the fade when FADE < 1, with the stream, the dye and the counter |
| RootSimulation.FluidSimulation.GetDrawBuffer | fluidSimulation.js:660-667 | the buffer of the current step for the draw state, or none |
| RootSimulation.FluidSimulation.Clear | fluidSimulation.js:669-682 | zero-fills the four fields and resets the counters |
| RootSimulation.FluidSimulation.Run | fluidSimulation.js:684-702 | one frame: setUniforms(0), then dens_step and vel_step unless paused, then a draw of the latest field, then step+1. It states the whole appended stream with each submission's uniforms, the final uniform buffer and diffuseState in both cases |
| CoreSimulation.FluidSimulation.Clear | src/core/FluidSimulation.js:19-21 | delegates to the solver's clear |
| CoreSimulation.FluidSimulation.Advance | src/core/FluidSimulation.js:27-30 | dens_step then vel_step, along the velocity of the previous frame. It states the calls, the counters, the appended stream, the final uniforms and diffuseState = VISCOSITY |
| CoreSimulation.FluidSimulation.Update | src/core/FluidSimulation.js:26-31 | setUniforms(0), then the two steps unless paused. When paused, only the uniform buffer changes, to setUniforms(0) |
| CoreSimulation.FluidSimulation.Run | src/core/FluidSimulation.js:24-35 | one frame: setUniforms(0), the steps unless paused, the render, and step+1. It states the whole appended stream, the final uniform buffer and diffuseState in both cases |

## Left out

- Rendering is not modelled: the renderer, the bloom passes, the texture copy and the draw pipelines. A frame's drawing appears only as a `Drawn` or `Rendered` entry in the command stream.
- The vorticity-confinement force kernel is not modelled, because it needs a square root and normalisation. The curl kernels are modelled.
- The Gaussian falloff `exp(-d²/2σ²)` of the later splat is a parameter, because Dafny's reals have no exponential.
- The sine and cosine dye colours are parameters, for the same reason.
- Floating point is modelled as exact reals.
- The sweep count `floor(SOLVER_ITERATIONS·sqrt(64/N))` is computed exactly, as the integer square root of `floor(64·s²/N)`.
- `u32(b)` is modelled only for the values the drivers write.
- GPU parallelism is not modelled. Each dispatch reads its inputs as they were at dispatch start, and the pressure sweep is therefore Jacobi. The boundary kernels are the exception, in the two lines below.
- Shaders.SetBoundary: on the GPU the corner invocations race with the edge and obstacle invocations of the same dispatch, and an edge invocation races with the obstacle invocation of the interior cell it copies. The model fixes one order. Corners read the ring after the edge and obstacle writes. Edges read the interior before any obstacle write.
- RenderingShaders.SetBoundary: the corner invocations race with the wall invocations of the same dispatch. The model takes the corners from the ring after the walls are written.
- RenderingShaders.Load: WGSL's robust buffer access lets a read past the end of the velocity buffer return any value inside the buffer, or zero. The model returns zero. Such a read happens only in the scaled lookup with vel_N ≥ N + 1.
- RenderingShaders.U32: the clamp of `u32` at 2³² − 1 is not modelled.
- RenderingShaders.Advect and the other advection members require N > 1. For N = 1 the scaled lookup divides by N − 1 = 0.
- The UI, input handling, `main.js`, pipeline creation, buffer allocation and the bind-group generator script are not part of this model.
- The constants of the later `src/core/config.js` other than the solver settings are not modelled.
- The root kernel layouts bind no obstacle mask, so the mask is an explicit argument of the first-revision kernels.
- The drivers are modelled by what they submit and which buffers each call binds. Buffer contents are not composed through the command stream; the kernel lemmas state what each pass does to a buffer.
- Solver.FluidSolver.Diffuse, Solver.FluidSolver.AddSource and Solver.FluidSolver.Advect: the input argument is not used, as in the source; only the table lookup binds buffers.
- Solver.FluidSolver.UpdateVelocity and RootSimulation.FluidSimulation.UpdateVelocity: the buffers are named once at entry and not re-read through the step counter. The contract states the counter's final value.
- Shaders.AddDensity and the other kernel methods require N to be a positive multiple of 16. For other N the unguarded dispatch also writes ring cells, which Grid.DispatchCoversInterior states but the kernel methods do not model.
- Config.PaletteIndex: a name found only on the palette object's prototype, such as `toString`, is taken as unknown and gives 0. In JavaScript the lookup returns that inherited, non-numeric property.
- RootSimulation.IterationCount: the exact value is stated only above the floor of 2.
- Solver.FluidSolver.UpdateVelocityFixed: its command stream is not stated, only its calls.

## Findings

| source | as written | input that shows it | evidently intended | confidence | as-written member | corrected member |
|---|---|---|---|---|---|---|
| src/core/solver.js:190-199 | after diffusion the counter flips again, so project works on the buffer the force was added to and the diffused field is dropped | any frame with VISCOSITY > 0: diffuse writes velocity[v%2], project reads velocity[(v+1)%2] | project the diffused field | not executed | Solver.VelocityProjectSkipsDiffusion | Solver.FixedVelocityPipeline |
| src/core/solver.js:143-161 | project records all passes in one encoder, so every pass runs with the b = 1 of its last setBoundary, and the pressure boundary negates the wall pressure | any projection whose interior pressure next to a wall has p.x ≠ 0 | pressure boundaries under b = 0 | not executed | Solver.PressureBoundaryNegated | Solver.FixedPressureBoundaryCopies |
| fluidSimulation.js:413-451 | the same single encoder in the first revision | as above | as above | not executed | RootSimulation.PressureBoundaryNegated | RootSimulation.FixedPressureBoundaryCopies |
| src/core/solver.js:26 | the viscosity slot is always 0, and the density advection reads it as the decay | any density cell after one advection: it is zero | decay by DENSITY_DECAY = 0.99 | not executed | Solver.DensityAdvectClears | Solver.FixedDensityAdvectDecays |
| fluidSimulation.js:561-568 | fade scales density[densityStep], the buffer diffuse writes, not the one it reads | FADE = 0.98 with DIFFUSE = 0: the diffused result equals the unfaded input | fade the buffer diffuse reads | not executed | RootSimulation.FadeIsOverwritten | RootSimulation.FixedFadeReachesDiffusion |
| src/rendering/shaders.js:233-254 | the whole velocity field is bounded with b = 1, so the top and bottom walls copy the vertical velocity instead of negating it | an interior cell next to the bottom wall with v ≠ 0 | negate the normal component at every wall | not executed | RenderingShaders.VelocityBoundaryLeaks | RenderingShaders.ReflectWalls |
| src/rendering/shaders.js:334-351 | the advection takes the diffuse slot for the velocity grid size, but setUniforms fills that slot with the diffusion coefficient (src/core/solver.js:26) | `?viscosity=0.0001`: the velocity advection reads every cell past the first row and column from ring cells 0 .. 3 | velocity read at the cell itself, since both grids have N cells a side | not executed | Solver.AdvectReadsDiffusionSlot | Solver.FixedAdvectReadsOwnCell |
