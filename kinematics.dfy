/** Relativistic kinematics and the species mass table, taken as given.

    The source obtains rapidity, transverse momentum, pseudorapidity and the
    momentum magnitude from ROOT's Lorentz-vector class and masses from a
    PDG lookup table; all are transcendental floating-point computations or
    foreign tables, so they enter the model as opaque functions. */
module Kinematics {

  datatype Momentum = Momentum(px: real, py: real, pz: real)

  datatype Oracles = Oracles(
    mass: int -> real,                    // mass of a species code
    rapidity: (Momentum, real) -> real,   // rapidity of a momentum with a mass hypothesis
    pt: Momentum -> real,                 // transverse momentum
    eta: Momentum -> real,                // pseudorapidity
    magnitude: Momentum -> real,          // |p|
    beamRapidity: real)                   // per data sample

  /** Rapidity in the centre-of-mass frame: lab rapidity minus beam rapidity. */
  function YCm(o: Oracles, p: Momentum, m: real): real {
    o.rapidity(p, m) - o.beamRapidity
  }
}
