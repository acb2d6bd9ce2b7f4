/** The tunable settings of the solver, held by the simulation as module
    state in the original program and fixed here for the life of a
    simulation object. */
module SimSettings {

  datatype Settings = Settings(
    screenWidth: int,
    screenHeight: int,
    guiWidth: int,
    gravity: real,
    collisionDamping: real,
    particleMass: real,
    particleSize: real,
    smoothingRadius: real,
    targetDensity: real,
    pressureMultiplier: real,
    viscosityStrength: real,
    densityThreshhold: real,
    mouseInput: int,
    mouseInteractionStrength: real,
    mouseInteractionRadius: real)

  /** What the solver divides by must be positive: the smoothing radius (cell
      size and kernel support), the pointer radius, and the mass, which keeps
      every density, and so every divisor of the pressure pass, positive. The
      settings screen only offers such values. */
  predicate ValidSettings(s: Settings) {
    s.smoothingRadius > 0.0 && s.particleMass > 0.0 && s.mouseInteractionRadius > 0.0
  }

  /** Half the width of the simulation area a particle centre may use. */
  function HalfBoundX(s: Settings): real {
    ((s.screenWidth - s.guiWidth) as real - s.particleSize) * 0.5
  }

  /** Half the height of the simulation area a particle centre may use. */
  function HalfBoundY(s: Settings): real {
    (s.screenHeight as real - s.particleSize) * 0.5
  }
}
