/** The configuration of config.js: the CONFIG defaults, its three getters
    (palette index, adaptive update interval, adaptive display resolution)
    and the initial STATE shared by the solver and the simulation loop. */
module Config {
  import Grid

  /** The CONFIG fields the solver and the getters read. */
  datatype Settings = Settings(
    diffuse: real,
    viscosity: real,
    n: nat,
    gridSize: nat,
    colorRadius: real,
    velocityRadius: real,
    workgroupSize: nat,
    updateInterval: real,
    drawDensity: nat,
    drawVelocity: nat,
    solverIterations: nat,
    displayResolution: nat,
    fade: real,
    colorPalette: string)

  /** CONFIG as config.js initialises it. */
  const Defaults: Settings :=
    Settings(0.0, 0.0, 64, 66, 3.0, 2.0, 16, 16.0, 1, 2, 10, 512, 0.98, "rainbow")

  /** The palette table of getPaletteIndex. */
  const Palettes: map<string, nat> :=
    map["rainbow" := 0, "ocean" := 1, "fire" := 2, "neon" := 3,
        "pastel" := 4, "monochrome" := 5, "sunset" := 6]

  /** The palette names in index order. */
  const PaletteNames: seq<string> :=
    ["rainbow", "ocean", "fire", "neon", "pastel", "monochrome", "sunset"]

  /** `palettes[name] || 0`: the table entry, or 0 for an unknown name (a
      missing entry is undefined, which `|| 0` turns into 0). */
  function PaletteIndex(name: string): (r: nat)
    ensures r <= 6
    ensures name !in PaletteNames ==> r == 0
  {
    if name in Palettes then Palettes[name] else 0
  }

  /** The table and the name list agree: every listed name maps to its
      position, so PaletteIndex is a left inverse of PaletteNames. */
  lemma PaletteIndexInverse(i: nat)
    requires i < |PaletteNames|
    ensures PaletteIndex(PaletteNames[i]) == i
  {
  }

  function MaxR(a: real, b: real): real { if a >= b then a else b }

  function MinN(a: nat, b: nat): nat { if a <= b then a else b }

  /** getAdaptiveUpdateInterval: the configured interval up to N = 64, and
      at least 40, 60 or 80 ms above 64, 128 and 256. */
  function AdaptiveUpdateInterval(n: nat, interval: real): (r: real)
    ensures r >= interval
    ensures n <= 64 ==> r == interval
    ensures 64 < n <= 128 ==> r == MaxR(interval, 40.0)
    ensures 128 < n <= 256 ==> r == MaxR(interval, 60.0)
    ensures 256 < n ==> r == MaxR(interval, 80.0)
  {
    if n <= 64 then interval
    else if n <= 128 then MaxR(interval, 40.0)
    else if n <= 256 then MaxR(interval, 60.0)
    else MaxR(interval, 80.0)
  }

  /** A finer grid never gets a shorter update interval. */
  lemma AdaptiveUpdateIntervalMonotone(n1: nat, n2: nat, interval: real)
    requires n1 <= n2
    ensures AdaptiveUpdateInterval(n1, interval) <= AdaptiveUpdateInterval(n2, interval)
  {
  }

  /** getAdaptiveDisplayResolution: the configured resolution up to N = 64,
      capped at 512 up to 128 and at 256 above. */
  function AdaptiveDisplayResolution(n: nat, resolution: nat): (r: nat)
    ensures r <= resolution
    ensures n <= 64 ==> r == resolution
    ensures 64 < n <= 128 ==> r == MinN(resolution, 512)
    ensures 128 < n ==> r == MinN(resolution, 256)
  {
    if n <= 64 then resolution
    else if n <= 128 then MinN(resolution, 512)
    else if n <= 256 then MinN(resolution, 256)
    else MinN(resolution, 256)
  }

  /** A finer grid never gets a larger display resolution. */
  lemma AdaptiveDisplayResolutionMonotone(n1: nat, n2: nat, resolution: nat)
    requires n1 <= n2
    ensures AdaptiveDisplayResolution(n2, resolution) <= AdaptiveDisplayResolution(n1, resolution)
  {
  }

  /** The defaults are consistent: GRID_SIZE = N + 2, N fills whole
      workgroups, the palette is the first one, the adaptive getters leave
      the defaults unchanged, and the fade factor is below 1. */
  lemma DefaultsConsistent()
    ensures Defaults.gridSize == Grid.Width(Defaults.n)
    ensures Defaults.workgroupSize == Grid.WorkgroupSize && Grid.Dispatchable(Defaults.n)
    ensures PaletteIndex(Defaults.colorPalette) == 0
    ensures AdaptiveUpdateInterval(Defaults.n, Defaults.updateInterval) == Defaults.updateInterval
    ensures AdaptiveDisplayResolution(Defaults.n, Defaults.displayResolution) == Defaults.displayResolution
    ensures 0.0 < Defaults.fade < 1.0
  {
  }

  /** STATE.mousePosition: the current and the previous pointer position
      in canvas pixels. */
  datatype Pointer = Pointer(x: real, y: real, x0: real, y0: real)

  /** The STATE object read and written by the solver and the simulation
      loop (the FPS and adaptive-performance bookkeeping is not part of this
      model). */
  class SimState {
    var diffuseState: real
    var drawState: nat
    var pause: bool
    var textureDraw: bool
    var step: nat
    var densityStep: nat
    var velocityStep: nat
    var mouse: Pointer
    var currentSolverIterations: nat
    var obstacleMode: bool
    var obstacleRadius: real

    /** STATE as config.js initialises it from CONFIG. */
    constructor(cfg: Settings)
      ensures diffuseState == cfg.diffuse && drawState == cfg.drawDensity
      ensures !pause && textureDraw
      ensures step == 0 && densityStep == 0 && velocityStep == 0
      ensures mouse == Pointer(0.0, 0.0, 0.0, 0.0)
      ensures currentSolverIterations == cfg.solverIterations
      ensures obstacleMode && obstacleRadius == 3.0
    {
      diffuseState := cfg.diffuse;
      drawState := cfg.drawDensity;
      pause := false;
      textureDraw := true;
      step := 0;
      densityStep := 0;
      velocityStep := 0;
      mouse := Pointer(0.0, 0.0, 0.0, 0.0);
      currentSolverIterations := cfg.solverIterations;
      obstacleMode := true;
      obstacleRadius := 3.0;
    }
  }
}
