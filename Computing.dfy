/** The solver's state and its passes. The original keeps the particle arrays
    and the lookup table as module globals that every pass updates in place;
    here they are the fields of one Simulation object, and every pass is a
    method proved to leave the state the functions of Forces and
    SpatialLookup describe. */
module Computing {
  import opened Vectors
  import opened SpatialHash
  import opened FluidMaths
  import opened Sums
  import opened SpatialLookup
  import opened SimSettings
  import opened Forces

  class Simulation {
    /** The settings in force; the sliders and the pointer button replace
        some of them between steps. */
    var settings: Settings
    /** np.linalg.norm on a 2D offset. */
    const norm: (real, real) -> real
    const numOfParticles: nat
    /** The caller's list of positions, shared and updated in place. */
    const positions: array<Vec>
    const predictedPositions: array<Vec>
    const velocities: array<Vec>
    const densities: array<real>
    /** The lookup table, rebuilt (and replaced by its sorted copy) by
        UpdateSpatialHash. */
    var spatialIndices: seq<Entry>
    /** spatialOffsets[key]: the first sorted row of that key, or -1. */
    const spatialOffsets: array<int>

    /** Every array holds one slot per particle, the three vector arrays are
        distinct, and the settings are usable. */
    ghost predicate Shaped()
      reads this
    {
      positions.Length == numOfParticles && predictedPositions.Length == numOfParticles
      && velocities.Length == numOfParticles && densities.Length == numOfParticles
      && spatialOffsets.Length == numOfParticles && |spatialIndices| == numOfParticles
      && positions != predictedPositions && positions != velocities && predictedPositions != velocities
      && ValidSettings(settings)
    }

    /** Shaped, and norm is the Euclidean length. */
    ghost predicate Valid()
      reads this
    {
      Shaped() && EuclideanNorm(norm)
    }

    /** The sorted rows and the offsets agree: rows are in key order, name
        particles, carry the keys of their hashes, and every key's offset is
        the first row of that key (or -1). */
    ghost predicate Indexed()
      reads this, spatialOffsets
      requires Shaped()
    {
      SortedByKey(spatialIndices)
      && (forall p :: 0 <= p < numOfParticles ==> spatialIndices[p].particleIndex < numOfParticles)
      && (numOfParticles > 0 ==> KeysFollowHashes(spatialIndices, numOfParticles))
      && forall k :: 0 <= k < numOfParticles ==> spatialOffsets[k] == FirstWithKey(spatialIndices, k)
    }

    /** The table describes the predicted positions: its rows are their
        sorted rows, and it is indexed. */
    ghost predicate TableBuilt()
      reads this, predictedPositions, spatialOffsets
      requires Shaped()
    {
      Indexed() && spatialIndices == TableOf(predictedPositions[..], settings.smoothingRadius)
    }

    /** InitializeArrays: the positions are the caller's, the velocities
        start at rest, the other arrays are allocated and not yet filled. */
    constructor (settings: Settings, norm: (real, real) -> real, initialPositions: array<Vec>)
      requires ValidSettings(settings) && EuclideanNorm(norm)
      ensures Valid()
      ensures this.settings == settings && this.norm == norm
      ensures positions == initialPositions && numOfParticles == initialPositions.Length
      ensures forall k :: 0 <= k < numOfParticles ==> velocities[k] == Zero
      ensures fresh(predictedPositions) && fresh(velocities) && fresh(densities) && fresh(spatialOffsets)
    {
      this.settings := settings;
      this.norm := norm;
      positions := initialPositions;
      var n := initialPositions.Length;
      numOfParticles := n;
      predictedPositions := new Vec[n];
      velocities := new Vec[n](_ => Zero);
      densities := new real[n];
      spatialIndices := seq(n, _ => Entry(0, 0, 0));
      spatialOffsets := new int[n];
    }

    /** UpdateSettings: the values the settings screen and the pointer button
        may change between steps are taken from `values`; the screen, the
        mass and the density threshold stay as they were, and so do the
        particle arrays and the lookup table. */
    method UpdateSettings(values: Settings)
      requires Valid() && values.smoothingRadius > 0.0 && values.mouseInteractionRadius > 0.0
      modifies this`settings
      ensures Valid()
      ensures settings == old(settings).(particleSize := values.particleSize, gravity := values.gravity,
                                         collisionDamping := values.collisionDamping,
                                         smoothingRadius := values.smoothingRadius, targetDensity := values.targetDensity,
                                         pressureMultiplier := values.pressureMultiplier,
                                         viscosityStrength := values.viscosityStrength,
                                         mouseInteractionStrength := values.mouseInteractionStrength,
                                         mouseInteractionRadius := values.mouseInteractionRadius,
                                         mouseInput := values.mouseInput)
    {
      settings := settings.(particleSize := values.particleSize, gravity := values.gravity,
                            collisionDamping := values.collisionDamping,
                            smoothingRadius := values.smoothingRadius, targetDensity := values.targetDensity,
                            pressureMultiplier := values.pressureMultiplier,
                            viscosityStrength := values.viscosityStrength,
                            mouseInteractionStrength := values.mouseInteractionStrength,
                            mouseInteractionRadius := values.mouseInteractionRadius,
                            mouseInput := values.mouseInput);
    }

    /** HandleCollisions: the particle's next position and velocity. The
        velocity row is shared with the velocity array, so a bounce already
        writes the damped velocity back. */
    method HandleCollisions(particleIndex: nat) returns (newPosition: Vec, velocity: Vec)
      requires Shaped() && particleIndex < numOfParticles
      modifies velocities
      ensures State(newPosition, velocity) == HandleCollision(positions[particleIndex], old(velocities[particleIndex]), settings)
      ensures velocities[..] == old(velocities[..])[particleIndex := velocity]
    {
      newPosition := Add(positions[particleIndex], velocities[particleIndex]);
      velocity := velocities[particleIndex];
      var simAreaWidth := settings.screenWidth - settings.guiWidth;
      var halfBoundX := (simAreaWidth as real - settings.particleSize) * 0.5;
      var halfBoundY := (settings.screenHeight as real - settings.particleSize) * 0.5;
      if Abs(newPosition.x - halfBoundX) >= halfBoundX {
        newPosition := newPosition.(x := halfBoundX * Sign(newPosition.x) + halfBoundX);
        velocity := velocity.(x := velocity.x * (-1.0 * settings.collisionDamping));
        velocities[particleIndex] := velocity;
      }
      if Abs(newPosition.y - halfBoundY) >= halfBoundY {
        newPosition := newPosition.(y := halfBoundY * Sign(newPosition.y) + halfBoundY);
        velocity := velocity.(y := velocity.y * (-1.0 * settings.collisionDamping));
        velocities[particleIndex] := velocity;
      }
    }

    /** UpdateExternalForces: gravity and the pointer force change the
        particle's velocity, and its predicted position is one step ahead. */
    method UpdateExternalForces(particleIndex: nat, mousePos: Vec, randomDirection: Vec)
      requires Shaped() && particleIndex < numOfParticles
      modifies velocities, predictedPositions
      ensures velocities[..] == old(velocities[..])[particleIndex :=
                ExternalVelocity(positions[particleIndex], old(velocities[particleIndex]), mousePos, settings, norm, randomDirection)]
      ensures predictedPositions[..] == old(predictedPositions[..])[particleIndex :=
                Add(positions[particleIndex], Scale(velocities[particleIndex], PredictionFactor))]
    {
      var gravityAcceleration := Vec(0.0, settings.gravity);
      var velocity := velocities[particleIndex];
      if settings.mouseInput != 0 {
        var particlePos := positions[particleIndex];
        var offsetToInput := Sub(mousePos, particlePos);
        var distanceToInput := norm(offsetToInput.x, offsetToInput.y);
        var forceStrength := distanceToInput / settings.mouseInteractionRadius;
        if distanceToInput < settings.mouseInteractionRadius {
          var directionToInput := if distanceToInput > 0.0 then Div(offsetToInput, distanceToInput) else randomDirection;
          gravityAcceleration := Add(gravityAcceleration,
            Scale(Scale(Scale(directionToInput, settings.mouseInteractionStrength), settings.mouseInput as real), forceStrength));
          gravityAcceleration := Sub(gravityAcceleration, velocity);
        }
      }
      velocities[particleIndex] := Add(velocities[particleIndex], gravityAcceleration);
      var predictionFactor := PredictionFactor;
      predictedPositions[particleIndex] := Add(positions[particleIndex], Scale(velocities[particleIndex], predictionFactor));
    }

    /** UpdateSpatialHash: resets every offset, writes each particle's row,
        sorts the rows by key and records where each key's run starts. */
    method UpdateSpatialHash()
      requires Shaped()
      modifies this`spatialIndices, spatialOffsets
      ensures Shaped() && TableBuilt()
    {
      var n, radius := numOfParticles, settings.smoothingRadius;
      for particleIndex := 0 to n
        invariant |spatialIndices| == n
        invariant forall k :: 0 <= k < particleIndex ==> spatialOffsets[k] == -1
        invariant forall k :: 0 <= k < particleIndex ==>
                    spatialIndices[k] == EntryFor(k, predictedPositions[k], radius, n)
      {
        spatialOffsets[particleIndex] := -1;
        var cell := GetCell(predictedPositions[particleIndex], radius);
        var cellHash := HashCell(cell);
        var cellKey := GetKeyFromHash(cellHash, n);
        spatialIndices := spatialIndices[particleIndex := Entry(particleIndex, cellHash, cellKey)];
      }
      assert spatialIndices == EntriesOf(predictedPositions[..], radius);
      spatialIndices := SortByKey(spatialIndices);
      assert spatialIndices == TableOf(predictedPositions[..], radius);
      var t := spatialIndices;
      TableKeys(predictedPositions[..], radius);
      for particleIndex := 0 to n
        invariant spatialIndices == t
        invariant forall k :: 0 <= k < n ==> spatialOffsets[k] == FirstWithKey(t[..particleIndex], k)
      {
        var indexData := t[particleIndex];
        var previousIndexData := t[if particleIndex == 0 then n - 1 else particleIndex - 1];
        var cellKey := indexData.cellKey;
        var previousCellKey := if particleIndex == 0 then -1 else previousIndexData.cellKey;
        NewKeyStartsRun(t, particleIndex);
        forall k | 0 <= k < n {
          FirstWithKeyExtend(t, particleIndex, k);
        }
        if cellKey != previousCellKey {
          spatialOffsets[cellKey] := particleIndex;
        }
      }
      assert t[..n] == t;
    }

    /** The rows of one cell: starting at the offset of the cell's key, the
        scan reads rows while they carry that key and keeps the particles
        whose row carries the cell's hash. An offset of -1 reads the last row
        first, as Python's index -1 does, and stops there. */
    method ScanCell(cellHash: int, cellKey: int) returns (found: seq<nat>)
      requires Shaped() && Indexed() && numOfParticles > 0
      requires cellKey == GetKeyFromHash(cellHash, numOfParticles)
      ensures found == HashMatches(spatialIndices, cellHash)
    {
      var n, t := numOfParticles, spatialIndices;
      ghost var first := FirstWithKey(t, cellKey);
      ghost var done := false;
      var currIndex := spatialOffsets[cellKey];
      found := [];
      while currIndex < n
        invariant -1 <= currIndex <= n && !done
        invariant currIndex == -1 <==> first == -1
        invariant currIndex >= 0 ==> 0 <= first <= currIndex
        invariant forall q :: first <= q < currIndex ==> t[q].cellKey == cellKey
        invariant currIndex >= 0 ==> found == HashMatches(t[first..currIndex], cellHash)
        invariant currIndex == -1 ==> found == []
        decreases n - currIndex
      {
        var row := if currIndex == -1 then n - 1 else currIndex;
        var indexData := t[row];
        currIndex := currIndex + 1;
        if indexData.cellKey != cellKey {
          if first == -1 {
            NoRunNoMatches(t, cellHash, n);
          } else {
            RunMatches(t, cellHash, n, first, currIndex - 1);
          }
          done := true;
          break;
        }
        HashMatchesExtend(t, first, row, cellHash);
        if indexData.cellHash != cellHash {
          continue;
        }
        found := found + [indexData.particleIndex];
      }
      if !done {
        RunMatches(t, cellHash, n, first, n);
        assert t[first..currIndex] == t[first..n];
      }
    }

    /** The 3x3 neighbour search around a position: the particles of the
        nine cells of the block, cell by cell in the order of Offsets. */
    method NeighbourCandidates(position: Vec) returns (candidates: seq<nat>)
      requires Shaped() && Indexed() && numOfParticles > 0
      ensures candidates == BlockMatches(spatialIndices, GetCell(position, settings.smoothingRadius), |Offsets|)
      ensures forall k :: 0 <= k < |candidates| ==> candidates[k] < numOfParticles
    {
      var originCell := GetCell(position, settings.smoothingRadius);
      candidates := [];
      for i := 0 to |Offsets|
        invariant candidates == BlockMatches(spatialIndices, originCell, i)
      {
        var neighbourHash := HashCell(AddCell(originCell, Offsets[i]));
        var neighbourKey := GetKeyFromHash(neighbourHash, numOfParticles);
        var found := ScanCell(neighbourHash, neighbourKey);
        candidates := candidates + found;
      }
      SearchStaysInTable(spatialIndices, originCell, numOfParticles);
    }

    /** CalculateDensityNaive: the unit-mass density at a point, summed over
        every particle's current position. */
    method CalculateDensityNaive(samplePoint: Vec) returns (density: real)
      requires Valid()
      ensures density == NaiveDensity(positions[..], samplePoint, settings.smoothingRadius, norm)
    {
      var pts := positions[..];
      var terms := NaiveTerms(pts, samplePoint, settings.smoothingRadius, norm);
      density := 0.0;
      var mass := 1.0;
      for p := 0 to numOfParticles
        invariant density == SumOver(Iota(p), terms)
      {
        var point := positions[p];
        var offset := Sub(point, samplePoint);
        var dst := norm(offset.x, offset.y);
        var influence := SpikyFunctionPow2(settings.smoothingRadius, dst);
        assert Iota(p + 1) == Iota(p) + [p];
        SumSnoc(Iota(p), p, terms);
        density := density + mass * influence;
      }
    }

    /** CalculateDensity: the particle's density from the 3x3 search, which
        counts the particle itself. It equals the brute-force density at its
        predicted position, scaled by the mass, and so is positive. */
    method CalculateDensity(particleIndex: nat) returns (density: real)
      requires Valid() && TableBuilt() && particleIndex < numOfParticles
      ensures density == DensityAt(predictedPositions[..], particleIndex, settings, norm)
      ensures density > 0.0
    {
      var position := predictedPositions[particleIndex];
      var candidates := NeighbourCandidates(position);
      density := AccumulateDensity(position, candidates);
      DensityOfSearch(predictedPositions[..], particleIndex, settings, norm);
    }

    /** The inner loop of the density scan: over the particles the search
        visits, the mass-weighted kernel of every one within the radius. */
    method AccumulateDensity(position: Vec, candidates: seq<nat>) returns (density: real)
      requires Shaped()
      requires forall k :: 0 <= k < |candidates| ==> candidates[k] < numOfParticles
      ensures density == SumOver(candidates, DensityTerms(predictedPositions[..], position, settings, norm))
    {
      var pts, r := predictedPositions[..], settings.smoothingRadius;
      density := 0.0;
      for c := 0 to |candidates|
        invariant density == SumOver(candidates[..c], DensityTerms(pts, position, settings, norm))
      {
        var neighbourIndex := candidates[c];
        assert candidates[..c + 1] == candidates[..c] + [neighbourIndex];
        DensityScanStep(pts, position, settings, norm, candidates[..c], neighbourIndex);
        var neighbourPosition := predictedPositions[neighbourIndex];
        var offsetToNeighbour := Sub(neighbourPosition, position);
        var distanceToNeighbour := norm(offsetToNeighbour.x, offsetToNeighbour.y);
        assert distanceToNeighbour == DistanceTo(pts, neighbourIndex, position, norm);
        if distanceToNeighbour >= r {
          continue;
        }
        density := density + settings.particleMass * SpikyFunctionPow2(r, distanceToNeighbour);
      }
      assert candidates[..|candidates|] == candidates;
    }

    /** UpdateDensity: stores the particle's density. */
    method UpdateDensity(particleIndex: nat)
      requires Valid() && TableBuilt() && particleIndex < numOfParticles
      modifies densities
      ensures densities[..] == old(densities[..])[particleIndex := DensityAt(predictedPositions[..], particleIndex, settings, norm)]
    {
      var density := CalculateDensity(particleIndex);
      densities[particleIndex] := density;
    }

    /** CalculatePressureForce: the sum over the 3x3 search of the pressure
        terms, which skip the particle itself and everything beyond the
        radius. It equals the pressure force summed over all particles. */
    method CalculatePressureForce(particleIndex: nat, randomDirection: nat -> Vec) returns (pressureForce: Vec)
      requires Valid() && TableBuilt() && particleIndex < numOfParticles
      requires PositiveDensities(densities[..])
      ensures pressureForce == PressureForce(predictedPositions[..], densities[..], particleIndex, settings, norm, randomDirection)
    {
      var position := predictedPositions[particleIndex];
      var candidates := NeighbourCandidates(position);
      pressureForce := AccumulatePressure(particleIndex, candidates, randomDirection);
      PressureFromSearch(predictedPositions[..], densities[..], particleIndex, settings, norm, randomDirection);
    }

    /** The inner loop of the pressure scan: over the particles the search
        visits, the pressure term of every other particle within the radius. */
    method AccumulatePressure(particleIndex: nat, candidates: seq<nat>, randomDirection: nat -> Vec) returns (pressureForce: Vec)
      requires Shaped() && particleIndex < numOfParticles && PositiveDensities(densities[..])
      requires forall k :: 0 <= k < |candidates| ==> candidates[k] < numOfParticles
      ensures pressureForce == VecSumOver(candidates, PressureTerms(predictedPositions[..], densities[..], particleIndex, settings, norm, randomDirection))
    {
      var pts, dens, r := predictedPositions[..], densities[..], settings.smoothingRadius;
      var position := predictedPositions[particleIndex];
      var density := densities[particleIndex];
      var pressure := PressureFromDensity(density, settings.targetDensity, settings.pressureMultiplier);
      pressureForce := Zero;
      for c := 0 to |candidates|
        invariant pressureForce == VecSumOver(candidates[..c], PressureTerms(pts, dens, particleIndex, settings, norm, randomDirection))
      {
        var neighbourIndex := candidates[c];
        assert candidates[..c + 1] == candidates[..c] + [neighbourIndex];
        if neighbourIndex == particleIndex {
          PressureScanSkips(pts, dens, particleIndex, settings, norm, randomDirection, candidates[..c], neighbourIndex);
          continue;
        }
        var neighbourPosition := predictedPositions[neighbourIndex];
        assert neighbourPosition == pts[neighbourIndex] && position == pts[particleIndex];
        var offsetToNeighbour := Sub(neighbourPosition, position);
        var distanceToNeighbour := norm(offsetToNeighbour.x, offsetToNeighbour.y);
        assert distanceToNeighbour == DistanceTo(pts, neighbourIndex, pts[particleIndex], norm);
        if distanceToNeighbour >= r {
          PressureScanSkips(pts, dens, particleIndex, settings, norm, randomDirection, candidates[..c], neighbourIndex);
          continue;
        }
        PressureScanAdds(pts, dens, particleIndex, settings, norm, randomDirection, candidates[..c], neighbourIndex);
        assert offsetToNeighbour == Sub(pts[neighbourIndex], pts[particleIndex]);
        var directionToNeighbour := if distanceToNeighbour > 0.0 then Div(offsetToNeighbour, distanceToNeighbour)
                                    else randomDirection(neighbourIndex);
        var neighbourDensity := densities[neighbourIndex];
        assert density == dens[particleIndex] && neighbourDensity == dens[neighbourIndex];
        var neighbourPressure := PressureFromDensity(neighbourDensity, settings.targetDensity, settings.pressureMultiplier);
        var sharedPressure := (pressure + neighbourPressure) * 0.5;
        pressureForce := Add(pressureForce,
          Div(Scale(Scale(directionToNeighbour, SpikyFunctionPow2Derivative(r, distanceToNeighbour)), sharedPressure), neighbourDensity));
      }
      assert candidates[..|candidates|] == candidates;
    }

    method UpdatePressureForce(particleIndex: nat, randomDirection: nat -> Vec)
      requires Valid() && TableBuilt() && particleIndex < numOfParticles
      requires PositiveDensities(densities[..])
      modifies velocities
      ensures velocities[..] == old(velocities[..])[particleIndex :=
                PressureUpdate(old(velocities[particleIndex]),
                               PressureForce(predictedPositions[..], densities[..], particleIndex, settings, norm, randomDirection),
                               densities[particleIndex], settings.densityThreshhold)]
    {
      var density := densities[particleIndex];
      var pressureForce := CalculatePressureForce(particleIndex, randomDirection);
      if density > settings.densityThreshhold {
        var acceleration := Div(pressureForce, density);
        velocities[particleIndex] := Add(velocities[particleIndex], acceleration);
      }
    }

    /** CalculateViscosityForce: the sum over the 3x3 search of the velocity
        differences weighted by the smoothing kernel, skipping the particle
        itself and everything beyond the radius. It equals the viscosity force
        summed over all particles. */
    method CalculateViscosityForce(particleIndex: nat) returns (viscosityForce: Vec)
      requires Valid() && TableBuilt() && particleIndex < numOfParticles
      ensures viscosityForce == ViscosityForce(predictedPositions[..], velocities[..], particleIndex, settings, norm)
    {
      var position := predictedPositions[particleIndex];
      var candidates := NeighbourCandidates(position);
      viscosityForce := AccumulateViscosity(particleIndex, candidates);
      ViscosityFromSearch(predictedPositions[..], velocities[..], particleIndex, settings, norm);
    }

    /** The inner loop of the viscosity scan: over the particles the search
        visits, the weighted velocity difference of every other particle
        within the radius. */
    method AccumulateViscosity(particleIndex: nat, candidates: seq<nat>) returns (viscosityForce: Vec)
      requires Shaped() && particleIndex < numOfParticles
      requires forall k :: 0 <= k < |candidates| ==> candidates[k] < numOfParticles
      ensures viscosityForce == VecSumOver(candidates, ViscosityTerms(predictedPositions[..], velocities[..], particleIndex, settings, norm))
    {
      var pts, vel, r := predictedPositions[..], velocities[..], settings.smoothingRadius;
      var position := predictedPositions[particleIndex];
      viscosityForce := Zero;
      var velocity := velocities[particleIndex];
      for c := 0 to |candidates|
        invariant viscosityForce == VecSumOver(candidates[..c], ViscosityTerms(pts, vel, particleIndex, settings, norm))
      {
        var neighbourIndex := candidates[c];
        assert candidates[..c + 1] == candidates[..c] + [neighbourIndex];
        if neighbourIndex == particleIndex {
          ViscosityScanSkips(pts, vel, particleIndex, settings, norm, candidates[..c], neighbourIndex);
          continue;
        }
        var neighbourPosition := predictedPositions[neighbourIndex];
        assert neighbourPosition == pts[neighbourIndex] && position == pts[particleIndex];
        var offsetToNeighbour := Sub(neighbourPosition, position);
        var distanceToNeighbour := norm(offsetToNeighbour.x, offsetToNeighbour.y);
        assert distanceToNeighbour == DistanceTo(pts, neighbourIndex, pts[particleIndex], norm);
        if distanceToNeighbour >= r {
          ViscosityScanSkips(pts, vel, particleIndex, settings, norm, candidates[..c], neighbourIndex);
          continue;
        }
        ViscosityScanAdds(pts, vel, particleIndex, settings, norm, candidates[..c], neighbourIndex);
        var neighbourVelocity := velocities[neighbourIndex];
        assert velocity == vel[particleIndex] && neighbourVelocity == vel[neighbourIndex];
        viscosityForce := Add(viscosityForce, Scale(Sub(neighbourVelocity, velocity), SmoothFunctionPow3(r, distanceToNeighbour)));
      }
      assert candidates[..|candidates|] == candidates;
    }

    method UpdateViscosity(particleIndex: nat)
      requires Valid() && TableBuilt() && particleIndex < numOfParticles
      modifies velocities
      ensures velocities[..] == old(velocities[..])[particleIndex :=
                Add(old(velocities[particleIndex]),
                    Scale(ViscosityForce(predictedPositions[..], old(velocities[..]), particleIndex, settings, norm),
                          settings.viscosityStrength))]
    {
      var viscosityForce := CalculateViscosityForce(particleIndex);
      velocities[particleIndex] := Add(velocities[particleIndex], Scale(viscosityForce, settings.viscosityStrength));
    }

    /** UpdatePosition: the particle takes the position and velocity
        HandleCollisions computes. */
    method UpdatePosition(particleIndex: nat)
      requires Shaped() && particleIndex < numOfParticles
      modifies positions, velocities
      ensures positions[..] == old(positions[..])[particleIndex :=
                HandleCollision(old(positions[particleIndex]), old(velocities[particleIndex]), settings).position]
      ensures velocities[..] == old(velocities[..])[particleIndex :=
                HandleCollision(old(positions[particleIndex]), old(velocities[particleIndex]), settings).velocity]
      ensures HalfBoundX(settings) >= 0.0 && HalfBoundY(settings) >= 0.0 ==> InBounds(positions[particleIndex], settings)
    {
      var newPosition, newVelocity := HandleCollisions(particleIndex);
      positions[particleIndex] := newPosition;
      velocities[particleIndex] := newVelocity;
    }

    /** SimulationStep: the external pass over all particles, the table
        rebuild on the predicted positions, the density pass, then pressure,
        viscosity and the move particle by particle. The new positions and
        velocities are those StepOf describes, so every particle ends inside
        the simulation area. */
    method SimulationStep(mousePos: Vec, mouseDirections: nat -> Vec, pairDirections: nat -> nat -> Vec)
      requires Valid()
      modifies this`spatialIndices, positions, predictedPositions, velocities, densities, spatialOffsets
      ensures Valid() && TableBuilt()
      ensures predictedPositions[..]
           == Predicted(old(positions[..]), ExternalPass(old(positions[..]), old(velocities[..]), mousePos, settings, norm, mouseDirections))
      ensures densities[..] == Densities(predictedPositions[..], settings, norm)
      ensures Motion(positions[..], velocities[..])
           == StepOf(old(positions[..]), old(velocities[..]), mousePos, settings, norm, mouseDirections, pairDirections)
      ensures HalfBoundX(settings) >= 0.0 && HalfBoundY(settings) >= 0.0 ==>
                forall p :: 0 <= p < numOfParticles ==> InBounds(positions[p], settings)
    {
      ghost var p0, v0, s := positions[..], velocities[..], settings;
      ExternalForcesPass(mousePos, mouseDirections);
      ghost var ext := ExternalPass(p0, v0, mousePos, s, norm, mouseDirections);
      assert positions[..] == p0 && velocities[..] == ext;
      UpdateSpatialHash();
      DensityPass();
      ghost var pred, dens := predictedPositions[..], densities[..];
      assert pred == Predicted(p0, ext) && dens == Densities(pred, s, norm);
      ParticlePass(pairDirections);
      assert Motion(positions[..], velocities[..]) == SettleFirst(Motion(p0, ext), numOfParticles, pred, dens, s, norm, pairDirections);
      if HalfBoundX(s) >= 0.0 && HalfBoundY(s) >= 0.0 {
        StepEndsInBounds(p0, v0, mousePos, s, norm, mouseDirections, pairDirections);
      }
    }

    /** The first loop of SimulationStep: UpdateExternalForces for every
        particle in turn. */
    method ExternalForcesPass(mousePos: Vec, mouseDirections: nat -> Vec)
      requires Shaped()
      modifies velocities, predictedPositions
      ensures velocities[..] == ExternalPass(positions[..], old(velocities[..]), mousePos, settings, norm, mouseDirections)
      ensures predictedPositions[..] == Predicted(positions[..], velocities[..])
    {
      var n := numOfParticles;
      ghost var ext := ExternalPass(positions[..], velocities[..], mousePos, settings, norm, mouseDirections);
      for particleIndex := 0 to n
        invariant forall k :: 0 <= k < particleIndex ==> velocities[k] == ext[k]
        invariant forall k :: particleIndex <= k < n ==> velocities[k] == old(velocities[k])
        invariant forall k :: 0 <= k < particleIndex ==> predictedPositions[k] == Add(positions[k], Scale(ext[k], PredictionFactor))
      {
        UpdateExternalForces(particleIndex, mousePos, mouseDirections(particleIndex));
      }
      assert velocities[..] == ext;
    }

    /** The second loop of SimulationStep: UpdateDensity for every particle. */
    method DensityPass()
      requires Valid() && TableBuilt()
      modifies densities
      ensures densities[..] == Densities(predictedPositions[..], settings, norm)
      ensures PositiveDensities(densities[..])
    {
      ghost var dens := Densities(predictedPositions[..], settings, norm);
      for particleIndex := 0 to numOfParticles
        invariant forall k :: 0 <= k < particleIndex ==> densities[k] == dens[k]
      {
        UpdateDensity(particleIndex);
      }
      assert densities[..] == dens;
      DensitiesPositive(predictedPositions[..], settings, norm);
    }

    /** The last loop of SimulationStep: pressure, viscosity and the move for
        every particle in turn, each seeing the velocities the particles
        before it have left. */
    method ParticlePass(pairDirections: nat -> nat -> Vec)
      requires Valid() && TableBuilt() && PositiveDensities(densities[..])
      modifies positions, velocities
      ensures Motion(positions[..], velocities[..])
           == SettleFirst(Motion(old(positions[..]), old(velocities[..])), numOfParticles,
                          predictedPositions[..], densities[..], settings, norm, pairDirections)
    {
      ghost var m0, pred, dens := Motion(positions[..], velocities[..]), predictedPositions[..], densities[..];
      for particleIndex := 0 to numOfParticles
        invariant Motion(positions[..], velocities[..]) == SettleFirst(m0, particleIndex, pred, dens, settings, norm, pairDirections)
      {
        UpdateParticle(particleIndex, pairDirections(particleIndex));
      }
    }

    /** The body of the last loop of a step for one particle: pressure, then
        viscosity, then the move and the wall bounce. */
    method UpdateParticle(particleIndex: nat, randomDirection: nat -> Vec)
      requires Valid() && TableBuilt() && PositiveDensities(densities[..]) && particleIndex < numOfParticles
      modifies positions, velocities
      ensures Motion(positions[..], velocities[..])
           == SettleParticle(Motion(old(positions[..]), old(velocities[..])), particleIndex,
                             predictedPositions[..], densities[..], settings, norm, randomDirection)
    {
      UpdatePressureForce(particleIndex, randomDirection);
      UpdateViscosity(particleIndex);
      UpdatePosition(particleIndex);
    }

    /** GetPositions: the shared positions array itself. */
    method GetPositions() returns (r: array<Vec>)
      ensures r == positions
    {
      r := positions;
    }
  }
}
