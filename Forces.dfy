/** What each pass of a simulation step computes for one particle, stated
    over whole position and velocity lists: the per-neighbour terms of the
    density, pressure and viscosity sums, their brute-force totals over all
    particles, the external forces, the boundary collision, and the order in
    which the last pass settles the particles one after another. */
module Forces {
  import opened Vectors
  import opened FluidMaths
  import opened Sums
  import opened SpatialHash
  import opened SpatialLookup
  import opened SimSettings

  /** Distance from q to particle j, as np.linalg.norm of the offset. */
  function DistanceTo(pts: seq<Vec>, j: nat, q: Vec, norm: (real, real) -> real): real
    requires j < |pts|
  {
    norm(pts[j].x - q.x, pts[j].y - q.y)
  }

  // ---------------------------------------------------------------------------
  // Density

  /** What neighbour j adds to the density at q: nothing at or beyond the
      smoothing radius, mass times the density kernel inside it. */
  function DensityTerm(pts: seq<Vec>, q: Vec, j: nat, s: Settings, norm: (real, real) -> real): real
    requires s.smoothingRadius > 0.0
  {
    if j >= |pts| then 0.0
    else
      var d := DistanceTo(pts, j, q, norm);
      if d >= s.smoothingRadius then 0.0 else s.particleMass * SpikyFunctionPow2(s.smoothingRadius, d)
  }

  function DensityTerms(pts: seq<Vec>, q: Vec, s: Settings, norm: (real, real) -> real): nat -> real
    requires s.smoothingRadius > 0.0
  {
    (j: nat) => DensityTerm(pts, q, j, s, norm)
  }

  /** The brute-force density at q: every particle, unit mass, no filter. */
  function NaiveTerms(pts: seq<Vec>, q: Vec, radius: real, norm: (real, real) -> real): nat -> real
    requires radius > 0.0
  {
    (j: nat) => if j < |pts| then SpikyFunctionPow2(radius, DistanceTo(pts, j, q, norm)) else 0.0
  }

  function NaiveDensity(pts: seq<Vec>, q: Vec, radius: real, norm: (real, real) -> real): real
    requires radius > 0.0
  {
    SumOver(Iota(|pts|), NaiveTerms(pts, q, radius, norm))
  }

  /** The density of particle i: its mass times the brute-force density at its
      own position. */
  function DensityAt(pts: seq<Vec>, i: nat, s: Settings, norm: (real, real) -> real): real
    requires i < |pts| && s.smoothingRadius > 0.0
  {
    s.particleMass * NaiveDensity(pts, pts[i], s.smoothingRadius, norm)
  }

  /** The densities of all particles. */
  function Densities(pts: seq<Vec>, s: Settings, norm: (real, real) -> real): (d: seq<real>)
    requires s.smoothingRadius > 0.0
    ensures |d| == |pts|
    ensures forall i :: 0 <= i < |pts| ==> d[i] == DensityAt(pts, i, s, norm)
  {
    seq(|pts|, i requires 0 <= i < |pts| => DensityAt(pts, i, s, norm))
  }

  /** The density the 3x3 search around particle i sums is the density of
      particle i, and it is positive. */
  lemma DensityOfSearch(pts: seq<Vec>, i: nat, s: Settings, norm: (real, real) -> real)
    requires ValidSettings(s) && EuclideanNorm(norm) && i < |pts|
    ensures SumOver(BlockMatches(TableOf(pts, s.smoothingRadius), GetCell(pts[i], s.smoothingRadius), |Offsets|),
                    DensityTerms(pts, pts[i], s, norm))
         == DensityAt(pts, i, s, norm)
    ensures DensityAt(pts, i, s, norm) > 0.0
  {
    var q := pts[i];
    assert DensityAt(pts, i, s, norm) == s.particleMass * NaiveDensity(pts, q, s.smoothingRadius, norm);
    DensityPositive(pts, i, s, norm);
    DensityFromSearch(pts, q, s, norm);
  }

  /** Summing the density terms over the particles the 3x3 search around q
      visits gives exactly the brute-force density times the mass. */
  lemma DensityFromSearch(pts: seq<Vec>, q: Vec, s: Settings, norm: (real, real) -> real)
    requires s.smoothingRadius > 0.0 && EuclideanNorm(norm)
    ensures SumOver(BlockMatches(TableOf(pts, s.smoothingRadius), GetCell(q, s.smoothingRadius), |Offsets|), DensityTerms(pts, q, s, norm))
         == s.particleMass * NaiveDensity(pts, q, s.smoothingRadius, norm)
  {
    DensitySearchCoversAll(pts, q, s, norm);
    DensitySumIsScaledNaive(pts, q, s, norm);
  }

  /** The search misses only particles whose density term is zero. */
  lemma DensitySearchCoversAll(pts: seq<Vec>, q: Vec, s: Settings, norm: (real, real) -> real)
    requires s.smoothingRadius > 0.0 && EuclideanNorm(norm)
    ensures SumOver(BlockMatches(TableOf(pts, s.smoothingRadius), GetCell(q, s.smoothingRadius), |Offsets|), DensityTerms(pts, q, s, norm))
         == SumOver(Iota(|pts|), DensityTerms(pts, q, s, norm))
  {
    var r := s.smoothingRadius;
    SearchFindsNeighbours(pts, r, norm, q);
    IotaHasEach(|pts|);
    SumOverSubset(BlockMatches(TableOf(pts, r), GetCell(q, r), |Offsets|), Iota(|pts|), DensityTerms(pts, q, s, norm));
  }

  /** Over all particles, the filtered density terms add up to the mass times
      the unfiltered unit-mass sum. */
  lemma DensitySumIsScaledNaive(pts: seq<Vec>, q: Vec, s: Settings, norm: (real, real) -> real)
    requires s.smoothingRadius > 0.0
    ensures SumOver(Iota(|pts|), DensityTerms(pts, q, s, norm)) == s.particleMass * NaiveDensity(pts, q, s.smoothingRadius, norm)
  {
    DensityTermsAreScaledNaive(pts, q, s, norm);
    SumOfScaled(Iota(|pts|), DensityTerms(pts, q, s, norm), NaiveTerms(pts, q, s.smoothingRadius, norm), s.particleMass);
  }

  lemma DensityTermsAreScaledNaive(pts: seq<Vec>, q: Vec, s: Settings, norm: (real, real) -> real)
    requires s.smoothingRadius > 0.0
    ensures forall j :: j in Iota(|pts|) ==>
              DensityTerms(pts, q, s, norm)(j) == ScaledBy(NaiveTerms(pts, q, s.smoothingRadius, norm), s.particleMass)(j)
  {
    IotaHasEach(|pts|);
    forall j | j in Iota(|pts|)
      ensures DensityTerms(pts, q, s, norm)(j) == ScaledBy(NaiveTerms(pts, q, s.smoothingRadius, norm), s.particleMass)(j)
    {
      DensityTermIsScaledNaive(pts, q, j, s, norm);
    }
  }

  /** One more particle read by a density scan adds its mass-weighted kernel
      value when it lies inside the radius, and nothing otherwise. */
  lemma DensityScanStep(pts: seq<Vec>, q: Vec, s: Settings, norm: (real, real) -> real, js: seq<nat>, j: nat)
    requires s.smoothingRadius > 0.0 && j < |pts|
    ensures SumOver(js + [j], DensityTerms(pts, q, s, norm))
         == SumOver(js, DensityTerms(pts, q, s, norm))
            + (if DistanceTo(pts, j, q, norm) >= s.smoothingRadius then 0.0
               else s.particleMass * SpikyFunctionPow2(s.smoothingRadius, DistanceTo(pts, j, q, norm)))
  {
    SumSnoc(js, j, DensityTerms(pts, q, s, norm));
  }

  lemma DensityTermIsScaledNaive(pts: seq<Vec>, q: Vec, j: nat, s: Settings, norm: (real, real) -> real)
    requires s.smoothingRadius > 0.0 && j < |pts|
    ensures DensityTerm(pts, q, j, s, norm) == s.particleMass * SpikyFunctionPow2(s.smoothingRadius, DistanceTo(pts, j, q, norm))
  {
  }

  /** With a positive mass every particle's density is positive: it always
      counts itself, at distance zero. */
  lemma DensityPositive(pts: seq<Vec>, i: nat, s: Settings, norm: (real, real) -> real)
    requires i < |pts| && ValidSettings(s) && EuclideanNorm(norm)
    ensures DensityAt(pts, i, s, norm) > 0.0
  {
    var r := s.smoothingRadius;
    var f := NaiveTerms(pts, pts[i], r, norm);
    IotaHasEach(|pts|);
    NormOfZero(norm);
    assert DistanceTo(pts, i, pts[i], norm) == 0.0;
    forall j | j in Iota(|pts|) ensures f(j) >= 0.0 {
      var d := DistanceTo(pts, j, pts[i], norm);
      assert d >= r || d < r;
    }
    SumPositive(Iota(|pts|), f, i);
    PositiveProduct(s.particleMass, NaiveDensity(pts, pts[i], r, norm));
  }

  // ---------------------------------------------------------------------------
  // Pressure

  ghost predicate PositiveDensities(dens: seq<real>) {
    forall k :: 0 <= k < |dens| ==> dens[k] > 0.0
  }

  /** The pressure neighbour j exerts on particle i: nothing from i itself or
      from beyond the radius; otherwise along the direction to j (a random
      one when the two coincide), scaled by the kernel slope and the mean of
      the two pressures, over the neighbour's density. */
  function PressureTerm(pts: seq<Vec>, dens: seq<real>, i: nat, j: nat, s: Settings, norm: (real, real) -> real,
                        randomDirection: Vec): Vec
    requires s.smoothingRadius > 0.0 && |dens| == |pts| && PositiveDensities(dens)
  {
    if i >= |pts| || j >= |pts| || j == i then Zero
    else
      var d := DistanceTo(pts, j, pts[i], norm);
      if d >= s.smoothingRadius then Zero
      else
        var direction := if d > 0.0 then Div(Sub(pts[j], pts[i]), d) else randomDirection;
        var pressure := PressureFromDensity(dens[i], s.targetDensity, s.pressureMultiplier);
        var neighbourPressure := PressureFromDensity(dens[j], s.targetDensity, s.pressureMultiplier);
        var sharedPressure := (pressure + neighbourPressure) * 0.5;
        Div(Scale(Scale(direction, SpikyFunctionPow2Derivative(s.smoothingRadius, d)), sharedPressure), dens[j])
  }

  function PressureTerms(pts: seq<Vec>, dens: seq<real>, i: nat, s: Settings, norm: (real, real) -> real,
                         randomDirection: nat -> Vec): nat -> Vec
    requires s.smoothingRadius > 0.0 && |dens| == |pts| && PositiveDensities(dens)
  {
    (j: nat) => PressureTerm(pts, dens, i, j, s, norm, randomDirection(j))
  }

  /** The pressure force on particle i: the terms of all particles. */
  function PressureForce(pts: seq<Vec>, dens: seq<real>, i: nat, s: Settings, norm: (real, real) -> real,
                         randomDirection: nat -> Vec): Vec
    requires s.smoothingRadius > 0.0 && |dens| == |pts| && PositiveDensities(dens)
  {
    VecSumOver(Iota(|pts|), PressureTerms(pts, dens, i, s, norm, randomDirection))
  }

  /** The 3x3 search visits every particle whose pressure term can be non-zero. */
  lemma PressureFromSearch(pts: seq<Vec>, dens: seq<real>, i: nat, s: Settings, norm: (real, real) -> real,
                           randomDirection: nat -> Vec)
    requires s.smoothingRadius > 0.0 && |dens| == |pts| && PositiveDensities(dens) && EuclideanNorm(norm)
    requires i < |pts|
    ensures VecSumOver(BlockMatches(TableOf(pts, s.smoothingRadius), GetCell(pts[i], s.smoothingRadius), |Offsets|),
                       PressureTerms(pts, dens, i, s, norm, randomDirection))
         == PressureForce(pts, dens, i, s, norm, randomDirection)
  {
    var r := s.smoothingRadius;
    SearchFindsNeighbours(pts, r, norm, pts[i]);
    IotaHasEach(|pts|);
    VecSumOverSubset(BlockMatches(TableOf(pts, r), GetCell(pts[i], r), |Offsets|), Iota(|pts|),
                     PressureTerms(pts, dens, i, s, norm, randomDirection));
  }

  /** A particle a pressure scan skips, the particle itself or one at or
      beyond the radius, adds nothing to the sum. */
  lemma PressureScanSkips(pts: seq<Vec>, dens: seq<real>, i: nat, s: Settings, norm: (real, real) -> real,
                          randomDirection: nat -> Vec, js: seq<nat>, j: nat)
    requires s.smoothingRadius > 0.0 && |dens| == |pts| && PositiveDensities(dens)
    requires i < |pts| && j < |pts| && (j == i || DistanceTo(pts, j, pts[i], norm) >= s.smoothingRadius)
    ensures VecSumOver(js + [j], PressureTerms(pts, dens, i, s, norm, randomDirection))
         == VecSumOver(js, PressureTerms(pts, dens, i, s, norm, randomDirection))
  {
    VecSumSnoc(js, j, PressureTerms(pts, dens, i, s, norm, randomDirection));
    PressureTermOutside(pts, dens, i, j, s, norm, randomDirection(j));
    AddZero(VecSumOver(js, PressureTerms(pts, dens, i, s, norm, randomDirection)));
  }

  /** Any other particle adds its pressure: along the offset to it (or the
      random direction when they coincide), scaled by the kernel slope and the
      mean of the two pressures, over its density. */
  lemma PressureScanAdds(pts: seq<Vec>, dens: seq<real>, i: nat, s: Settings, norm: (real, real) -> real,
                         randomDirection: nat -> Vec, js: seq<nat>, j: nat)
    requires s.smoothingRadius > 0.0 && |dens| == |pts| && PositiveDensities(dens)
    requires i < |pts| && j < |pts| && j != i && DistanceTo(pts, j, pts[i], norm) < s.smoothingRadius
    ensures var d := DistanceTo(pts, j, pts[i], norm);
            var direction := if d > 0.0 then Div(Sub(pts[j], pts[i]), d) else randomDirection(j);
            VecSumOver(js + [j], PressureTerms(pts, dens, i, s, norm, randomDirection))
            == Add(VecSumOver(js, PressureTerms(pts, dens, i, s, norm, randomDirection)),
                   Div(Scale(Scale(direction, SpikyFunctionPow2Derivative(s.smoothingRadius, d)),
                             (PressureFromDensity(dens[i], s.targetDensity, s.pressureMultiplier)
                              + PressureFromDensity(dens[j], s.targetDensity, s.pressureMultiplier)) * 0.5),
                       dens[j]))
  {
    VecSumSnoc(js, j, PressureTerms(pts, dens, i, s, norm, randomDirection));
    PressureTermInside(pts, dens, i, j, s, norm, randomDirection(j));
  }

  /** The pressure the pair shares is the mean of the two pressures, the same
      whichever particle of the pair is acting. */
  lemma SharedPressureOfPair(dens: seq<real>, i: nat, j: nat, s: Settings)
    requires i < |dens| && j < |dens|
    ensures (PressureFromDensity(dens[i], s.targetDensity, s.pressureMultiplier)
             + PressureFromDensity(dens[j], s.targetDensity, s.pressureMultiplier)) * 0.5
         == CalcualteSharedPressure(dens[i], dens[j], s.targetDensity, s.pressureMultiplier)
    ensures CalcualteSharedPressure(dens[i], dens[j], s.targetDensity, s.pressureMultiplier)
         == CalcualteSharedPressure(dens[j], dens[i], s.targetDensity, s.pressureMultiplier)
  {
    SharedPressureSymmetric(dens[i], dens[j], s.targetDensity, s.pressureMultiplier);
  }

  /** Newton's third law for two particles of equal density a positive
      distance apart: each pushes the other with the same force in the
      opposite direction. */
  lemma PressureTermsOpposite(pts: seq<Vec>, dens: seq<real>, i: nat, j: nat, s: Settings, norm: (real, real) -> real,
                              di: Vec, dj: Vec)
    requires s.smoothingRadius > 0.0 && |dens| == |pts| && PositiveDensities(dens) && EuclideanNorm(norm)
    requires i < |pts| && j < |pts| && dens[i] == dens[j]
    requires DistanceTo(pts, j, pts[i], norm) > 0.0
    ensures PressureTerm(pts, dens, i, j, s, norm, dj) == Scale(PressureTerm(pts, dens, j, i, s, norm, di), -1.0)
  {
    DistanceSymmetric(norm, pts[j], pts[i]);
    PressurePairOpposite(pts, dens, i, j, s, norm, di, dj);
  }

  lemma PressurePairOpposite(pts: seq<Vec>, dens: seq<real>, i: nat, j: nat, s: Settings, norm: (real, real) -> real,
                             di: Vec, dj: Vec)
    requires s.smoothingRadius > 0.0 && |dens| == |pts| && PositiveDensities(dens)
    requires i < |pts| && j < |pts| && dens[i] == dens[j]
    requires DistanceTo(pts, j, pts[i], norm) > 0.0
    requires DistanceTo(pts, j, pts[i], norm) == DistanceTo(pts, i, pts[j], norm)
    ensures PressureTerm(pts, dens, i, j, s, norm, dj) == Scale(PressureTerm(pts, dens, j, i, s, norm, di), -1.0)
  {
    if i != j && DistanceTo(pts, j, pts[i], norm) < s.smoothingRadius {
      PressurePairInside(pts, dens, i, j, s, norm, di, dj);
    } else {
      PressureTermOutside(pts, dens, i, j, s, norm, dj);
      PressureTermOutside(pts, dens, j, i, s, norm, di);
    }
  }

  lemma PressurePairInside(pts: seq<Vec>, dens: seq<real>, i: nat, j: nat, s: Settings, norm: (real, real) -> real,
                           di: Vec, dj: Vec)
    requires s.smoothingRadius > 0.0 && |dens| == |pts| && PositiveDensities(dens)
    requires i < |pts| && j < |pts| && i != j && dens[i] == dens[j]
    requires 0.0 < DistanceTo(pts, j, pts[i], norm) < s.smoothingRadius
    requires DistanceTo(pts, j, pts[i], norm) == DistanceTo(pts, i, pts[j], norm)
    ensures PressureTerm(pts, dens, i, j, s, norm, dj) == Scale(PressureTerm(pts, dens, j, i, s, norm, di), -1.0)
  {
    var d := DistanceTo(pts, j, pts[i], norm);
    var pi := PressureFromDensity(dens[i], s.targetDensity, s.pressureMultiplier);
    var pj := PressureFromDensity(dens[j], s.targetDensity, s.pressureMultiplier);
    PressureTermInside(pts, dens, i, j, s, norm, dj);
    PressureTermInside(pts, dens, j, i, s, norm, di);
    ReversedPressure(pts[i], pts[j], d, SpikyFunctionPow2Derivative(s.smoothingRadius, d), (pi + pj) * 0.5, (pj + pi) * 0.5, dens[j]);
  }

  /** Inside the radius, the pressure term points along the offset to the
      neighbour, or along the given random direction when the two coincide. */
  lemma PressureTermInside(pts: seq<Vec>, dens: seq<real>, i: nat, j: nat, s: Settings, norm: (real, real) -> real,
                           randomDirection: Vec)
    requires s.smoothingRadius > 0.0 && |dens| == |pts| && PositiveDensities(dens)
    requires i < |pts| && j < |pts| && i != j
    requires DistanceTo(pts, j, pts[i], norm) < s.smoothingRadius
    ensures var d := DistanceTo(pts, j, pts[i], norm);
            var direction := if d > 0.0 then Div(Sub(pts[j], pts[i]), d) else randomDirection;
            PressureTerm(pts, dens, i, j, s, norm, randomDirection)
            == Div(Scale(Scale(direction, SpikyFunctionPow2Derivative(s.smoothingRadius, d)),
                         (PressureFromDensity(dens[i], s.targetDensity, s.pressureMultiplier)
                          + PressureFromDensity(dens[j], s.targetDensity, s.pressureMultiplier)) * 0.5),
                   dens[j])
  {
  }

  /** From itself, from a missing particle or from beyond the radius the
      pressure term is zero. */
  lemma PressureTermOutside(pts: seq<Vec>, dens: seq<real>, i: nat, j: nat, s: Settings, norm: (real, real) -> real,
                            randomDirection: Vec)
    requires s.smoothingRadius > 0.0 && |dens| == |pts| && PositiveDensities(dens)
    ensures i >= |pts| || j >= |pts| || i == j || DistanceTo(pts, j, pts[i], norm) >= s.smoothingRadius
            ==> PressureTerm(pts, dens, i, j, s, norm, randomDirection) == Zero
  {
  }

  /** Reversing the offset of a pair flips the sign of its pressure term and
      nothing else. */
  lemma ReversedPressure(a: Vec, b: Vec, d: real, slope: real, shared: real, shared2: real, n: real)
    requires d != 0.0 && n != 0.0 && shared == shared2
    ensures Div(Scale(Scale(Div(Sub(b, a), d), slope), shared), n)
         == Scale(Div(Scale(Scale(Div(Sub(a, b), d), slope), shared2), n), -1.0)
  {
    ReversedPressureComponent(a.x, b.x, d, slope, shared, shared2, n);
    ReversedPressureComponent(a.y, b.y, d, slope, shared, shared2, n);
  }

  lemma ReversedPressureComponent(p: real, q: real, d: real, slope: real, shared: real, shared2: real, n: real)
    requires d != 0.0 && n != 0.0 && shared == shared2
    ensures (((q - p) / d) * slope * shared) / n == ((((p - q) / d) * slope * shared2) / n) * -1.0
  {
    assert (p - q) / d == -((q - p) / d);
  }

  /** UpdatePressureForce: the acceleration pressure / density is applied only
      above the density threshold. */
  function PressureUpdate(velocity: Vec, pressureForce: Vec, density: real, densityThreshhold: real): (v: Vec)
    requires density > densityThreshhold ==> density != 0.0
    ensures density <= densityThreshhold ==> v == velocity
    ensures density > densityThreshhold ==> Sub(v, velocity) == Div(pressureForce, density)
  {
    if density > densityThreshhold then Add(velocity, Div(pressureForce, density)) else velocity
  }

  // ---------------------------------------------------------------------------
  // Viscosity

  /** What neighbour j adds to the viscosity of particle i: the velocity
      difference weighted by the viscosity kernel, nothing from i itself or
      from beyond the radius. */
  function ViscosityTerm(pts: seq<Vec>, vel: seq<Vec>, i: nat, j: nat, s: Settings, norm: (real, real) -> real): Vec
    requires s.smoothingRadius > 0.0 && |vel| == |pts|
  {
    if i >= |pts| || j >= |pts| || j == i then Zero
    else
      var d := DistanceTo(pts, j, pts[i], norm);
      if d >= s.smoothingRadius then Zero
      else Scale(Sub(vel[j], vel[i]), SmoothFunctionPow3(s.smoothingRadius, d))
  }

  function ViscosityTerms(pts: seq<Vec>, vel: seq<Vec>, i: nat, s: Settings, norm: (real, real) -> real): nat -> Vec
    requires s.smoothingRadius > 0.0 && |vel| == |pts|
  {
    (j: nat) => ViscosityTerm(pts, vel, i, j, s, norm)
  }

  /** The viscosity force on particle i: the terms of all particles. */
  function ViscosityForce(pts: seq<Vec>, vel: seq<Vec>, i: nat, s: Settings, norm: (real, real) -> real): Vec
    requires s.smoothingRadius > 0.0 && |vel| == |pts|
  {
    VecSumOver(Iota(|pts|), ViscosityTerms(pts, vel, i, s, norm))
  }

  lemma ViscosityFromSearch(pts: seq<Vec>, vel: seq<Vec>, i: nat, s: Settings, norm: (real, real) -> real)
    requires s.smoothingRadius > 0.0 && |vel| == |pts| && EuclideanNorm(norm) && i < |pts|
    ensures VecSumOver(BlockMatches(TableOf(pts, s.smoothingRadius), GetCell(pts[i], s.smoothingRadius), |Offsets|),
                       ViscosityTerms(pts, vel, i, s, norm))
         == ViscosityForce(pts, vel, i, s, norm)
  {
    var r := s.smoothingRadius;
    SearchFindsNeighbours(pts, r, norm, pts[i]);
    IotaHasEach(|pts|);
    VecSumOverSubset(BlockMatches(TableOf(pts, r), GetCell(pts[i], r), |Offsets|), Iota(|pts|),
                     ViscosityTerms(pts, vel, i, s, norm));
  }

  /** A particle a viscosity scan skips, the particle itself or one at or
      beyond the radius, adds nothing to the sum. */
  lemma ViscosityScanSkips(pts: seq<Vec>, vel: seq<Vec>, i: nat, s: Settings, norm: (real, real) -> real,
                           js: seq<nat>, j: nat)
    requires s.smoothingRadius > 0.0 && |vel| == |pts|
    requires i < |pts| && j < |pts| && (j == i || DistanceTo(pts, j, pts[i], norm) >= s.smoothingRadius)
    ensures VecSumOver(js + [j], ViscosityTerms(pts, vel, i, s, norm)) == VecSumOver(js, ViscosityTerms(pts, vel, i, s, norm))
  {
    VecSumSnoc(js, j, ViscosityTerms(pts, vel, i, s, norm));
    ViscosityTermOutside(pts, vel, i, j, s, norm);
    AddZero(VecSumOver(js, ViscosityTerms(pts, vel, i, s, norm)));
  }

  /** Any other particle adds its velocity difference weighted by the
      viscosity kernel. */
  lemma ViscosityScanAdds(pts: seq<Vec>, vel: seq<Vec>, i: nat, s: Settings, norm: (real, real) -> real,
                          js: seq<nat>, j: nat)
    requires s.smoothingRadius > 0.0 && |vel| == |pts|
    requires i < |pts| && j < |pts| && j != i && DistanceTo(pts, j, pts[i], norm) < s.smoothingRadius
    ensures VecSumOver(js + [j], ViscosityTerms(pts, vel, i, s, norm))
         == Add(VecSumOver(js, ViscosityTerms(pts, vel, i, s, norm)),
                Scale(Sub(vel[j], vel[i]), SmoothFunctionPow3(s.smoothingRadius, DistanceTo(pts, j, pts[i], norm))))
  {
    VecSumSnoc(js, j, ViscosityTerms(pts, vel, i, s, norm));
    ViscosityTermInside(pts, vel, i, j, s, norm);
  }

  /** Viscosity exchanges momentum within a pair: what j adds to i, i adds to
      j with the opposite sign. */
  lemma ViscosityTermsOpposite(pts: seq<Vec>, vel: seq<Vec>, i: nat, j: nat, s: Settings, norm: (real, real) -> real)
    requires s.smoothingRadius > 0.0 && |vel| == |pts| && EuclideanNorm(norm)
    ensures ViscosityTerm(pts, vel, i, j, s, norm) == Scale(ViscosityTerm(pts, vel, j, i, s, norm), -1.0)
  {
    if i < |pts| && j < |pts| {
      DistanceSymmetric(norm, pts[j], pts[i]);
    }
    ViscosityPairOpposite(pts, vel, i, j, s, norm);
  }

  lemma ViscosityPairOpposite(pts: seq<Vec>, vel: seq<Vec>, i: nat, j: nat, s: Settings, norm: (real, real) -> real)
    requires s.smoothingRadius > 0.0 && |vel| == |pts|
    requires i < |pts| && j < |pts| ==>
               DistanceTo(pts, j, pts[i], norm) == DistanceTo(pts, i, pts[j], norm)
    ensures ViscosityTerm(pts, vel, i, j, s, norm) == Scale(ViscosityTerm(pts, vel, j, i, s, norm), -1.0)
  {
    if i < |pts| && j < |pts| && i != j && DistanceTo(pts, j, pts[i], norm) < s.smoothingRadius {
      ViscosityPairInside(pts, vel, i, j, s, norm);
    } else {
      ViscosityTermOutside(pts, vel, i, j, s, norm);
      ViscosityTermOutside(pts, vel, j, i, s, norm);
    }
  }

  lemma ViscosityPairInside(pts: seq<Vec>, vel: seq<Vec>, i: nat, j: nat, s: Settings, norm: (real, real) -> real)
    requires s.smoothingRadius > 0.0 && |vel| == |pts| && i < |pts| && j < |pts| && i != j
    requires DistanceTo(pts, j, pts[i], norm) == DistanceTo(pts, i, pts[j], norm)
    requires DistanceTo(pts, j, pts[i], norm) < s.smoothingRadius
    ensures ViscosityTerm(pts, vel, i, j, s, norm) == Scale(ViscosityTerm(pts, vel, j, i, s, norm), -1.0)
  {
    ViscosityTermInside(pts, vel, i, j, s, norm);
    ViscosityTermInside(pts, vel, j, i, s, norm);
    ReversedVecDifference(vel[j], vel[i], SmoothFunctionPow3(s.smoothingRadius, DistanceTo(pts, j, pts[i], norm)));
  }

  /** From itself, from a missing particle or from beyond the radius the
      viscosity term is zero. */
  lemma ViscosityTermOutside(pts: seq<Vec>, vel: seq<Vec>, i: nat, j: nat, s: Settings, norm: (real, real) -> real)
    requires s.smoothingRadius > 0.0 && |vel| == |pts|
    ensures i >= |pts| || j >= |pts| || i == j || DistanceTo(pts, j, pts[i], norm) >= s.smoothingRadius
            ==> ViscosityTerm(pts, vel, i, j, s, norm) == Zero
  {
  }

  /** Inside the radius the viscosity term is the weighted velocity difference. */
  lemma ViscosityTermInside(pts: seq<Vec>, vel: seq<Vec>, i: nat, j: nat, s: Settings, norm: (real, real) -> real)
    requires s.smoothingRadius > 0.0 && |vel| == |pts| && i < |pts| && j < |pts| && i != j
    requires DistanceTo(pts, j, pts[i], norm) < s.smoothingRadius
    ensures ViscosityTerm(pts, vel, i, j, s, norm)
         == Scale(Sub(vel[j], vel[i]), SmoothFunctionPow3(s.smoothingRadius, DistanceTo(pts, j, pts[i], norm)))
  {
  }

  lemma ReversedVecDifference(a: Vec, b: Vec, w: real)
    ensures Scale(Sub(a, b), w) == Scale(Scale(Sub(b, a), w), -1.0)
  {
    ReversedDifference(a.x, b.x, w);
    ReversedDifference(a.y, b.y, w);
  }

  lemma ReversedDifference(a: real, b: real, w: real)
    ensures (a - b) * w == ((b - a) * w) * -1.0
  {
  }

  // ---------------------------------------------------------------------------
  // External forces

  /** predictionFactor in Computing.py: a prediction one whole step ahead. */
  const PredictionFactor: real := 1.0

  /** The velocity after gravity and the pointer force: gravity alone when the
      pointer is idle or far; within the pointer radius the old velocity is
      cancelled and replaced by gravity plus a pull or push along the
      direction to the pointer (a random one when the particle is on it). */
  function ExternalVelocity(position: Vec, velocity: Vec, mousePos: Vec, s: Settings, norm: (real, real) -> real,
                            randomDirection: Vec): Vec
    requires s.mouseInteractionRadius != 0.0
  {
    var gravityAcceleration := Vec(0.0, s.gravity);
    var acceleration :=
      if s.mouseInput != 0 then
        var offsetToInput := Sub(mousePos, position);
        var distanceToInput := norm(offsetToInput.x, offsetToInput.y);
        var forceStrength := distanceToInput / s.mouseInteractionRadius;
        if distanceToInput < s.mouseInteractionRadius then
          var directionToInput := if distanceToInput > 0.0 then Div(offsetToInput, distanceToInput) else randomDirection;
          var pull := Scale(Scale(Scale(directionToInput, s.mouseInteractionStrength), s.mouseInput as real), forceStrength);
          Sub(Add(gravityAcceleration, pull), velocity)
        else gravityAcceleration
      else gravityAcceleration;
    Add(velocity, acceleration)
  }

  /** With the pointer idle, the external pass only adds gravity. */
  lemma ExternalIsGravityWhenIdle(position: Vec, velocity: Vec, mousePos: Vec, s: Settings, norm: (real, real) -> real,
                                  randomDirection: Vec)
    requires s.mouseInteractionRadius != 0.0 && s.mouseInput == 0
    ensures ExternalVelocity(position, velocity, mousePos, s, norm, randomDirection) == Vec(velocity.x, velocity.y + s.gravity)
  {
  }

  /** Away from a pressed pointer the external pass also only adds gravity. */
  lemma ExternalIsGravityAwayFromPointer(position: Vec, velocity: Vec, mousePos: Vec, s: Settings,
                                         norm: (real, real) -> real, randomDirection: Vec)
    requires s.mouseInteractionRadius != 0.0
    requires norm(mousePos.x - position.x, mousePos.y - position.y) >= s.mouseInteractionRadius
    ensures ExternalVelocity(position, velocity, mousePos, s, norm, randomDirection) == Vec(velocity.x, velocity.y + s.gravity)
  {
  }

  /** Under the pointer the new velocity forgets the old one entirely. */
  lemma ExternalForgetsVelocityUnderPointer(position: Vec, v1: Vec, v2: Vec, mousePos: Vec, s: Settings,
                                            norm: (real, real) -> real, randomDirection: Vec)
    requires s.mouseInteractionRadius != 0.0 && s.mouseInput != 0
    requires norm(mousePos.x - position.x, mousePos.y - position.y) < s.mouseInteractionRadius
    ensures ExternalVelocity(position, v1, mousePos, s, norm, randomDirection)
         == ExternalVelocity(position, v2, mousePos, s, norm, randomDirection)
  {
  }

  // ---------------------------------------------------------------------------
  // Boundary collision

  function Abs(x: real): real {
    if x < 0.0 then -x else x
  }

  /** np.sign. */
  function Sign(x: real): real {
    if x > 0.0 then 1.0 else if x < 0.0 then -1.0 else 0.0
  }

  datatype Axis = Axis(position: real, velocity: real)

  /** One axis of HandleCollisions: a coordinate at least `half` away from the
      centre `half` is put at half * sign(p) + half and its velocity is
      reversed and damped; any other is left alone. */
  function CollideAxis(p: real, v: real, half: real, damping: real): (r: Axis)
    ensures half >= 0.0 ==> 0.0 <= r.position <= 2.0 * half
  {
    if Abs(p - half) >= half then Axis(half * Sign(p) + half, v * (-1.0 * damping))
    else Axis(p, v)
  }

  /** The collision test is the test for leaving the open interval
      (0, 2 * half), and the landing point is 2 * half above it, 0 below it,
      and half at exactly zero. */
  lemma CollideAxisCases(p: real, v: real, half: real, damping: real)
    ensures CollideAxis(p, v, half, damping)
         == if 0.0 < p < 2.0 * half then Axis(p, v)
            else Axis(if p > 0.0 then 2.0 * half else if p < 0.0 then 0.0 else half, -damping * v)
  {
  }

  predicate InBounds(p: Vec, s: Settings) {
    0.0 <= p.x <= 2.0 * HalfBoundX(s) && 0.0 <= p.y <= 2.0 * HalfBoundY(s)
  }

  datatype State = State(position: Vec, velocity: Vec)

  /** HandleCollisions: the particle moves by its velocity, then each axis is
      collided with its half bound. */
  function HandleCollision(position: Vec, velocity: Vec, s: Settings): (r: State)
    ensures HalfBoundX(s) >= 0.0 && HalfBoundY(s) >= 0.0 ==> InBounds(r.position, s)
  {
    var newPosition := Add(position, velocity);
    var x := CollideAxis(newPosition.x, velocity.x, HalfBoundX(s), s.collisionDamping);
    var y := CollideAxis(newPosition.y, velocity.y, HalfBoundY(s), s.collisionDamping);
    State(Vec(x.position, y.position), Vec(x.velocity, y.velocity))
  }

  // ---------------------------------------------------------------------------
  // The last pass of a step

  datatype Motion = Motion(positions: seq<Vec>, velocities: seq<Vec>)

  ghost predicate Ready(pred: seq<Vec>, dens: seq<real>, s: Settings) {
    s.smoothingRadius > 0.0 && |dens| == |pred| && PositiveDensities(dens)
  }

  /** Particle i's turn in the last pass: pressure, then viscosity (which
      sees the velocities of the particles already settled), then the move
      and the collision. */
  function SettleParticle(m: Motion, i: nat, pred: seq<Vec>, dens: seq<real>, s: Settings, norm: (real, real) -> real,
                          randomDirection: nat -> Vec): (r: Motion)
    requires Ready(pred, dens, s) && |m.positions| == |pred| && |m.velocities| == |pred| && i < |pred|
    ensures |r.positions| == |pred| && |r.velocities| == |pred|
    ensures forall k :: 0 <= k < |pred| && k != i ==> r.positions[k] == m.positions[k]
    ensures HalfBoundX(s) >= 0.0 && HalfBoundY(s) >= 0.0 ==> InBounds(r.positions[i], s)
  {
    var v1 := PressureUpdate(m.velocities[i], PressureForce(pred, dens, i, s, norm, randomDirection), dens[i], s.densityThreshhold);
    var vel1 := m.velocities[i := v1];
    var v2 := Add(v1, Scale(ViscosityForce(pred, vel1, i, s, norm), s.viscosityStrength));
    var vel2 := vel1[i := v2];
    var c := HandleCollision(m.positions[i], v2, s);
    Motion(m.positions[i := c.position], vel2[i := c.velocity])
  }

  /** The last pass after its first k particles. */
  function SettleFirst(m: Motion, k: nat, pred: seq<Vec>, dens: seq<real>, s: Settings, norm: (real, real) -> real,
                       randomDirections: nat -> nat -> Vec): (r: Motion)
    requires Ready(pred, dens, s) && |m.positions| == |pred| && |m.velocities| == |pred| && k <= |pred|
    ensures |r.positions| == |pred| && |r.velocities| == |pred|
  {
    if k == 0 then m
    else SettleParticle(SettleFirst(m, k - 1, pred, dens, s, norm, randomDirections), k - 1, pred, dens, s, norm, randomDirections(k - 1))
  }

  /** Once settled, a particle lies inside the simulation area, and later
      turns do not move it. */
  lemma {:induction false} SettledInBounds(m: Motion, k: nat, pred: seq<Vec>, dens: seq<real>, s: Settings,
                                           norm: (real, real) -> real, randomDirections: nat -> nat -> Vec)
    requires Ready(pred, dens, s) && |m.positions| == |pred| && |m.velocities| == |pred| && k <= |pred|
    requires HalfBoundX(s) >= 0.0 && HalfBoundY(s) >= 0.0
    ensures forall p :: 0 <= p < k ==> InBounds(SettleFirst(m, k, pred, dens, s, norm, randomDirections).positions[p], s)
  {
    if k > 0 {
      SettledInBounds(m, k - 1, pred, dens, s, norm, randomDirections);
    }
  }

  // ---------------------------------------------------------------------------
  // A whole step

  /** Every density of a step is positive, so the pressure pass may divide by
      any of them. */
  lemma DensitiesPositive(pts: seq<Vec>, s: Settings, norm: (real, real) -> real)
    requires ValidSettings(s) && EuclideanNorm(norm)
    ensures PositiveDensities(Densities(pts, s, norm))
  {
    forall k | 0 <= k < |pts| ensures Densities(pts, s, norm)[k] > 0.0 {
      DensityPositive(pts, k, s, norm);
    }
  }

  /** The velocities after the first pass of a step. */
  function ExternalPass(positions: seq<Vec>, velocities: seq<Vec>, mousePos: Vec, s: Settings, norm: (real, real) -> real,
                        mouseDirections: nat -> Vec): (v: seq<Vec>)
    requires |velocities| == |positions| && s.mouseInteractionRadius != 0.0
    ensures |v| == |positions|
  {
    seq(|positions|, k requires 0 <= k < |positions| =>
      ExternalVelocity(positions[k], velocities[k], mousePos, s, norm, mouseDirections(k)))
  }

  /** Where each particle is predicted to be: one velocity step ahead. */
  function Predicted(positions: seq<Vec>, velocities: seq<Vec>): (p: seq<Vec>)
    requires |velocities| == |positions|
    ensures |p| == |positions|
  {
    seq(|positions|, k requires 0 <= k < |positions| => Add(positions[k], Scale(velocities[k], PredictionFactor)))
  }

  /** The positions and velocities after one step: the external pass, the
      prediction, the densities at the predicted positions, then the last
      pass over every particle in index order. */
  function StepOf(positions: seq<Vec>, velocities: seq<Vec>, mousePos: Vec, s: Settings, norm: (real, real) -> real,
                  mouseDirections: nat -> Vec, pairDirections: nat -> nat -> Vec): (m: Motion)
    requires ValidSettings(s) && EuclideanNorm(norm) && |velocities| == |positions|
    ensures |m.positions| == |positions| && |m.velocities| == |positions|
  {
    var ext := ExternalPass(positions, velocities, mousePos, s, norm, mouseDirections);
    var pred := Predicted(positions, ext);
    DensitiesPositive(pred, s, norm);
    SettleFirst(Motion(positions, ext), |positions|, pred, Densities(pred, s, norm), s, norm, pairDirections)
  }

  /** After a step every particle lies inside the simulation area, whatever
      the positions and velocities before it, as long as the area is not
      narrower than a particle. */
  lemma StepEndsInBounds(positions: seq<Vec>, velocities: seq<Vec>, mousePos: Vec, s: Settings, norm: (real, real) -> real,
                         mouseDirections: nat -> Vec, pairDirections: nat -> nat -> Vec)
    requires ValidSettings(s) && EuclideanNorm(norm) && |velocities| == |positions|
    requires HalfBoundX(s) >= 0.0 && HalfBoundY(s) >= 0.0
    ensures forall p :: 0 <= p < |positions| ==>
              InBounds(StepOf(positions, velocities, mousePos, s, norm, mouseDirections, pairDirections).positions[p], s)
  {
    var ext := ExternalPass(positions, velocities, mousePos, s, norm, mouseDirections);
    var pred := Predicted(positions, ext);
    DensitiesPositive(pred, s, norm);
    SettledInBounds(Motion(positions, ext), |positions|, pred, Densities(pred, s, norm), s, norm, pairDirections);
  }
}
