/** The frame loop of the later revision (src/core/FluidSimulation.js):
    the bind groups are built once, the solver runs the density and the
    velocity step, and the renderer draws the frame. */
module CoreSimulation {
  import opened BindGroups
  import opened Gpu
  import Config
  import Solver

  class FluidSimulation {
    const solver: Solver.FluidSolver

    constructor(solver: Solver.FluidSolver)
      ensures this.solver == solver
    {
      this.solver := solver;
    }

    /** Delegates to the solver: zero all four fields and restart the
        counters. */
    method Clear()
      modifies solver.device, solver.state`densityStep, solver.state`velocityStep, solver.state`step
      ensures solver.device.stream == old(solver.device.stream)
        + [ZeroFill(Density0), ZeroFill(Density1), ZeroFill(Velocity0), ZeroFill(Velocity1)]
      ensures solver.state.densityStep == 0 && solver.state.velocityStep == 0 && solver.state.step == 0
    {
      solver.Clear();
    }

    /** The unpaused part of a frame: the density step, then the velocity
        step along the velocity the previous frame left. */
    method Advance(s0: real, s1: real, s2: real)
      modifies solver, solver.device, solver.state`densityStep, solver.state`velocityStep, solver.state`diffuseState
      ensures var d, v, moved := old(solver.state.densityStep), old(solver.state.velocityStep), Solver.Moved(solver.state.mouse);
        && solver.calls == old(solver.calls) + Solver.DensityCalls(d, v, moved) + Solver.VelocityCalls(v)
        && solver.state.densityStep == Solver.DensityStepAfter(d, moved)
        && solver.state.velocityStep == Solver.VelocityStepAfter(v)
      ensures var d, v, moved := old(solver.state.densityStep), old(solver.state.velocityStep), Solver.Moved(solver.state.mouse);
        var k, ud, uv := solver.cfg.solverIterations, solver.UFor(solver.cfg.diffuse, 0.0), solver.UFor(solver.cfg.viscosity, 1.0);
        solver.device.stream == old(solver.device.stream)
          + Solver.DensityStream(k, d, v, moved, old(solver.device.uniforms), ud) + Solver.VelocityStream(k, v, ud, uv)
      ensures solver.device.uniforms == solver.UFor(solver.cfg.viscosity, 1.0) && solver.state.diffuseState == solver.cfg.viscosity
    {
      solver.UpdateDensity(s0, s1, s2);
      solver.UpdateVelocity();
    }

    /** The solver half of a frame: setUniforms(0), then the density and
        the velocity step unless paused. */
    method Update(s0: real, s1: real, s2: real)
      modifies solver, solver.device, solver.state`densityStep, solver.state`velocityStep, solver.state`diffuseState
      ensures solver.state.pause ==>
        && solver.calls == old(solver.calls)
        && solver.device.stream == old(solver.device.stream)
        && solver.state.densityStep == old(solver.state.densityStep)
        && solver.state.velocityStep == old(solver.state.velocityStep)
        && solver.state.diffuseState == old(solver.state.diffuseState)
        && solver.device.uniforms == solver.UFor(old(solver.state.diffuseState), 0.0)
      ensures !solver.state.pause ==>
        var d, v, moved := old(solver.state.densityStep), old(solver.state.velocityStep), Solver.Moved(solver.state.mouse);
        var k, ud, uv := solver.cfg.solverIterations, solver.UFor(solver.cfg.diffuse, 0.0), solver.UFor(solver.cfg.viscosity, 1.0);
        && solver.calls == old(solver.calls) + Solver.DensityCalls(d, v, moved) + Solver.VelocityCalls(v)
        && solver.state.densityStep == Solver.DensityStepAfter(d, moved)
        && solver.state.velocityStep == Solver.VelocityStepAfter(v)
        && solver.state.diffuseState == solver.cfg.viscosity
        && solver.device.uniforms == uv
        && solver.device.stream == old(solver.device.stream)
             + Solver.DensityStream(k, d, v, moved, solver.UFor(old(solver.state.diffuseState), 0.0), ud)
             + Solver.VelocityStream(k, v, ud, uv)
    {
      ghost var ds := solver.state.diffuseState;
      solver.SetUniforms(0.0);
      assert solver.device.uniforms == solver.UFor(ds, 0.0);
      if !solver.state.pause {
        Advance(s0, s1, s2);
      }
    }

    /** One frame: the solver half, the render, and the frame counter. */
    method Run(s0: real, s1: real, s2: real)
      modifies solver, solver.device, solver.state`densityStep, solver.state`velocityStep,
               solver.state`diffuseState, solver.state`step
      ensures solver.state.step == old(solver.state.step) + 1
      ensures old(solver.state.pause) ==>
        && solver.calls == old(solver.calls)
        && solver.device.stream == old(solver.device.stream) + [Rendered(solver.state.textureDraw)]
        && solver.state.densityStep == old(solver.state.densityStep)
        && solver.state.velocityStep == old(solver.state.velocityStep)
        && solver.state.diffuseState == old(solver.state.diffuseState)
        && solver.device.uniforms == solver.UFor(old(solver.state.diffuseState), 0.0)
      ensures !old(solver.state.pause) ==>
        var d, v, moved := old(solver.state.densityStep), old(solver.state.velocityStep), Solver.Moved(solver.state.mouse);
        var k, ud, uv := solver.cfg.solverIterations, solver.UFor(solver.cfg.diffuse, 0.0), solver.UFor(solver.cfg.viscosity, 1.0);
        && solver.calls == old(solver.calls) + Solver.DensityCalls(d, v, moved) + Solver.VelocityCalls(v)
        && solver.state.densityStep == Solver.DensityStepAfter(d, moved)
        && solver.state.velocityStep == Solver.VelocityStepAfter(v)
        && solver.state.diffuseState == solver.cfg.viscosity
        && solver.device.uniforms == uv
        && solver.device.stream == old(solver.device.stream)
             + Solver.DensityStream(k, d, v, moved, solver.UFor(old(solver.state.diffuseState), 0.0), ud)
             + Solver.VelocityStream(k, v, ud, uv)
             + [Rendered(solver.state.textureDraw)]
    {
      Update(s0, s1, s2);
      solver.device.Render(solver.state.textureDraw);
      solver.state.step := solver.state.step + 1;
    }
  }
}
