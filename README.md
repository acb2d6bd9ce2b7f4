# PPYFluidSim solver core in Dafny

PPYFluidSim is a 2D smoothed-particle-hydrodynamics (SPH) fluid simulator. This project models the engine that advances the particles, and proves properties of that model:

- **The uniform-grid spatial hash.** A point maps to a cell by truncating toward zero. A cell maps to a linear hash, and a hash maps to a table key. A 3x3 block of offsets gives the neighbour cells.
- **The lookup table.** It is rebuilt every step:
  - one `[particleIndex, cellHash, cellKey]` row per particle;
  - the rows are stably sorted by key;
  - each key's run start is recorded in an offset array.
- **The neighbour scan.** The density, pressure and viscosity passes use it.
- **The smoothing kernels and pressure helpers.**
- **The pass order of one simulation step.** This covers the boundary collision and the grid layout of the initial particles.

Modules:

- **`SpatialHash`** (`SpatialHash.py`): offsets, cells, hashes and keys.
- **`FluidMaths`** (`FluidMaths.py`): the kernels and pressure helpers, over `real`.
- **`SpatialLookup`** (`Computing.py` table):
  - the rows (`EntriesOf`) and the stable sort (`SortByKey`, an insertion sort with Python `sorted` semantics);
  - the rebuilt table (`TableOf`) and the first row of each key (`FirstWithKey`);
  - the particles one cell's scan yields (`HashMatches`) and the particles the nine-cell search yields (`BlockMatches`).
- **`Forces`**:
  - the per-neighbour terms of the three sums, and their brute-force totals over all particles;
  - the external-force update and the collision;
  - the order in which the last pass settles the particles.

  These are the specifications that the methods of `Computing` are proved against.
- **`Computing`** (`Computing.py`): the module-level arrays become the fields of one `Simulation` object. Every pass is a method that updates those arrays in place.
- **`SimSetup`** (`SimSetup.py`): the grid spawn.
- **`Vectors`, `Sums`, `SimSettings`**: shared support:
  - 2D vectors, and the Euclidean norm as an abstract function;
  - sums over index lists;
  - the settings record.

The central results:

- **Density equals the brute-force filter.** The density the hashed scan computes equals the brute-force sum over every particle within the smoothing radius, the particle itself included. This is `Forces.DensityOfSearch`, and `Computing.Simulation.CalculateDensity` is proved to compute it.
- **The search is exact.** The nine-cell search yields every in-radius particle exactly once (`SpatialLookup.SearchFindsNeighbours`). One cell's scan yields exactly the rows of the table whose hash is that cell's (`Computing.Simulation.ScanCell`). This includes the case where the offset is -1 and the scan reads the last row.
- **A step ends in bounds.** After a step every particle lies inside the simulation area (`Computing.Simulation.SimulationStep`, `Forces.StepEndsInBounds`).

## Model

| member | source | states |
|---|---|---|
| SpatialHash.OffsetsAreTheBlock | SpatialHash.py:4-14 | The offset list has nine entries, each in {-1,0,1}², pairwise distinct, so it is the whole 3x3 block with each vector once. |
| SpatialHash.OffsetIndex | SpatialHash.py:4-14 | Every vector of the 3x3 block, (0,0) included, stands somewhere in the offset list. |
| SpatialHash.Trunc | SpatialHash.py:25 | Python's `int()` on a quotient truncates toward zero: a non-negative quotient goes to the integer at or below it, a negative one to the integer at or above it, always less than one away. |
| SpatialHash.GetCellTruncates | SpatialHash.py:20-25 | GetCell puts each coordinate over the radius and truncates it toward zero, with the same bounds stated per axis of the cell. |
| SpatialHash.HashOfShift | SpatialHash.py:27-36 | HashCell on Python integers is exactly the linear form x * 15823 + y * 9737333, so shifting a cell by an offset shifts its hash by offset.x * 15823 + offset.y * 9737333. |
| SpatialHash.HashInjectiveNearby | SpatialHash.py:27-36 | Two cells whose x coordinates differ by at most 615 have equal hashes if and only if they are the same cell. |
| SpatialHash.HashCollides | SpatialHash.py:17-18 | The hash is not injective: the cell (9737333, -15823) hashes like (0, 0), which is why the scan compares hashes and the passes compare distances. |
| SpatialHash.NeighbourHashesDistinct | SpatialHash.py:4-18 | For every cell, the nine hashes of its 3x3 block are pairwise distinct, so no cell is scanned twice in one search. |
| SpatialHash.GetKeyFromHash | SpatialHash.py:38-43 | For any hash, negative ones included, and a positive table size, the key lies in [0, tableSize) and differs from the hash by a multiple of the table size (Python's non-negative modulo). |
| SpatialHash.CellsAdjacentWithinRadius | SpatialHash.py:20-25 | For radius > 0, two coordinates less than one radius apart fall in cells at most one apart. |
| SpatialHash.NearPointInBlock | SpatialHash.py:4-25 | A point within one radius of q on both axes lies in one of the nine cells of q's block, and the lemma returns which offset. |
| FluidMaths.SpikyFunctionPow2 | FluidMaths.py:6-16 | Zero at and beyond the radius; strictly positive inside it for a positive radius. |
| FluidMaths.SpikyPow2Decreasing | FluidMaths.py:14-16 | Inside the radius the kernel strictly decreases with distance. |
| FluidMaths.SpikyFunctionPow3 | FluidMaths.py:19-28 | Zero at and beyond the radius; strictly positive inside it. |
| FluidMaths.SmoothFunctionPow3 | FluidMaths.py:31-41 | Zero at and beyond the radius; never negative; strictly positive for distances in (-radius, radius). |
| FluidMaths.SmoothPow3PeakAtZero | FluidMaths.py:38-41 | The smooth kernel is largest at distance zero. |
| FluidMaths.SmoothPow3Decreasing | FluidMaths.py:31-41 | For distances in [0, radius) the smooth kernel strictly decreases with distance. |
| FluidMaths.SpikyFunctionPow2Derivative | FluidMaths.py:44-55 | Zero at and beyond the radius; strictly negative inside it (the slope). |
| FluidMaths.SpikyPow2DerivativeIsSlope | FluidMaths.py:44-55 | Inside the radius the derivative is the slope of the spiky kernel: the kernel's change between two distances is their difference times the mean of the derivative at both ends. |
| FluidMaths.SpikyFunctionPow3Derivative | FluidMaths.py:58-68 | Zero at and beyond the radius; strictly negative inside it. |
| FluidMaths.PressureFromDensity | FluidMaths.py:72-78 | Zero at the target density. With a positive multiplier: negative if and only if the density is below the target, positive if and only if above. |
| FluidMaths.CalcualteSharedPressure | FluidMaths.py:81-90 | The shared pressure lies between the two particles' own pressures. |
| FluidMaths.SharedPressureSymmetric | FluidMaths.py:81-90 | The shared pressure of (a, b) equals that of (b, a). |
| FluidMaths.SharedPressureOfEqualDensities | FluidMaths.py:81-90 | For equal densities the shared pressure is the particles' own pressure. |
| SpatialLookup.EntryFor | Computing.py:179-183 | A particle's row names the particle and carries a key in [0, N) that is the key of the row's hash. |
| SpatialLookup.EntriesOf | Computing.py:174-183 | Before sorting there is exactly one row per particle, row i describing particle i. |
| SpatialLookup.InsertByKeyPermutes | Computing.py:186 | One insertion step of SortByKey adds exactly the inserted row: the multiset grows by that row and the length by one. |
| SpatialLookup.InsertByKeySorted | Computing.py:186 | Inserting a row into rows in key order (InsertByKey) leaves them in key order. |
| SpatialLookup.InsertByKeyStable | Computing.py:186 | Inserting a row whose particle index is below every other keeps equal keys in ascending particle order, and no particle twice. |
| SpatialLookup.SortByKeySorts | Computing.py:186 | SortByKey, the model of `sorted(..., key=cellKey)`, keeps the length, is a permutation of the rows, and leaves them in key order. |
| SpatialLookup.SortByKeyStable | Computing.py:186 | Rows with equal keys keep ascending particle order, as Python's stable `sorted` does, and no particle gets two rows. |
| SpatialLookup.TableFacts | Computing.py:174-186 | The rebuilt table has N rows in key order, stable among equal keys. Each row is the row of the particle it names, and every particle's row is in it. |
| SpatialLookup.TableKeys | Computing.py:174-186 | Every key of the rebuilt table lies in [0, N), each row's key is the key of its hash, and each row names a particle. |
| SpatialLookup.FirstWithKey | Computing.py:189-199 | The first row of a key: -1 if and only if no row has that key; otherwise a row with that key and none before it. |
| SpatialLookup.FirstWithKeyExtend | Computing.py:189-199 | Reading one more row changes a key's first row only when the key had none and the new row carries it. |
| SpatialLookup.NewKeyStartsRun | Computing.py:192-199 | In a sorted table, the test "first row, or a key different from the previous row's" holds exactly when the row's key has not occurred before. |
| SpatialLookup.HashMatchesMembers | Computing.py:232-241 | A particle is yielded for a hash if and only if some row carries that hash and names it. |
| SpatialLookup.NoRunNoMatches | Computing.py:230-237 | When a key has no rows, no particle has any hash of that key. |
| SpatialLookup.RunMatches | Computing.py:232-239 | In a sorted table, the particles with a given hash are exactly those yielded by the run of rows carrying its key. |
| SpatialLookup.BlockMatchesMembers | Computing.py:227-241 | The nine-cell search yields a particle if and only if a row names it and carries the hash of one of the first m cells of the block. |
| SpatialLookup.BlockMatchesNoDups | Computing.py:227-241 | In a table with one row per particle, the nine-cell search yields no particle twice. |
| SpatialLookup.SearchStaysInTable | Computing.py:227-241 | Every particle the search yields is a valid particle index. |
| SpatialLookup.SearchFindsNeighbours | Computing.py:227-248 | On the rebuilt table the search yields each particle at most once, only valid indices, and every particle strictly within one radius of the query point. |
| Forces.Densities | Computing.py:405-406 | The density pass gives one density per particle, each that particle's density. |
| Forces.DensityFromSearch | Computing.py:202-253 | The hashed density sum at any point equals the particle mass times the brute-force density over every particle. |
| Forces.DensitySearchCoversAll | Computing.py:227-251 | Summing density terms over the search result equals summing them over all particles, because the terms the search misses are zero. |
| Forces.DensityOfSearch | Computing.py:218-253 | A particle's hashed density equals its brute-force density, which includes itself, and it is strictly positive. |
| Forces.DensityScanStep | Computing.py:241-251 | One more scanned neighbour adds nothing at or beyond the radius, and mass times the kernel inside it. |
| Forces.DensityPositive | Computing.py:241-251 | A particle always contributes to its own density, so every density is positive. |
| Forces.DensitiesPositive | Computing.py:405-409 | After the density pass every density is positive, so the pressure pass never divides by zero. |
| Forces.PressureFromSearch | Computing.py:276-310 | The hashed pressure sum equals the pressure force summed over all particles. |
| Forces.PressureScanSkips | Computing.py:290-299 | The particle itself, or a neighbour at or beyond the radius, adds nothing to the pressure sum. |
| Forces.PressureScanAdds | Computing.py:294-308 | Any other neighbour adds the kernel slope along the direction to it, times the mean of the two pressures, over its density. The direction is a random one when the two particles coincide. |
| Forces.PressureTermOutside | Computing.py:290-299 | The pressure term of self, of an out-of-range index or of a far particle is zero. |
| Forces.PressureTermInside | Computing.py:301-308 | A near particle's pressure term is the slope along the direction times the shared pressure over the neighbour's density. |
| Forces.SharedPressureOfPair | Computing.py:304-306 | The inline mean of the two pressures equals the shared-pressure helper and is symmetric in the pair. |
| Forces.PressureTermsOpposite | Computing.py:301-308 | Between two particles of equal density at a positive distance, each pressure term is the negation of the other. |
| Forces.PressureUpdate | Computing.py:313-325 | At or below the density threshold the velocity is unchanged. Above it, the velocity changes by exactly the pressure force over the density. |
| Forces.ViscosityFromSearch | Computing.py:339-368 | The hashed viscosity sum equals the viscosity force summed over all particles. |
| Forces.ViscosityScanSkips | Computing.py:353-362 | The particle itself, or a neighbour at or beyond the radius, adds nothing to the viscosity sum. |
| Forces.ViscosityScanAdds | Computing.py:357-366 | Any other neighbour adds its velocity difference times the smooth kernel. |
| Forces.ViscosityTermOutside | Computing.py:353-362 | The viscosity term of self, of an out-of-range index or of a far particle is zero. |
| Forces.ViscosityTermsOpposite | Computing.py:357-366 | The viscosity terms of a pair are each other's negation. |
| Forces.ExternalIsGravityWhenIdle | Computing.py:139-157 | ExternalVelocity with no pointer input only adds gravity to the velocity. |
| Forces.ExternalIsGravityAwayFromPointer | Computing.py:143-157 | ExternalVelocity for a particle at or beyond the pointer radius only adds gravity to the velocity. |
| Forces.ExternalForgetsVelocityUnderPointer | Computing.py:143-157 | Within the pointer radius the new velocity does not depend on the old one. |
| Forces.CollideAxis | Computing.py:122-130 | For a non-negative half bound, a collided coordinate lies in [0, 2H]. |
| Forces.CollideAxisCases | Computing.py:122-130 | Nothing changes strictly inside (0, 2H). Otherwise the coordinate goes to 2H for p > 0, 0 for p < 0 and H for p == 0, and the velocity is multiplied by -damping. |
| Forces.HandleCollision | Computing.py:107-132 | With non-negative half bounds the new position lies inside the simulation area. |
| Forces.SettleParticle | Computing.py:409-411 | One particle's turn of the last pass moves only that particle, and leaves it inside the area. |
| Forces.SettledInBounds | Computing.py:408-411 | After the first k turns of the last pass, the first k particles lie inside the area. |
| Forces.StepOf | Computing.py:389-411 | The specification of one step (external pass, prediction, densities, then the particles settled in index order) keeps one position and one velocity per particle. |
| Forces.StepEndsInBounds | Computing.py:389-411 | After StepOf every particle lies inside the area, whatever the state before it. |
| Computing.Simulation.constructor | Computing.py:60-77 | The object holds the caller's positions array itself, with N equal to its length. The velocities start at zero, and every other array is fresh with N slots. |
| Computing.Simulation.UpdateSettings | Computing.py:94-104 | Between steps, the ten values the settings screen and the pointer button may change take their new values, and every other setting is kept. The particle arrays and the lookup table are untouched. |
| Computing.Simulation.HandleCollisions | Computing.py:107-132 | Returns the collided position and velocity, and the particle's velocity slot already holds the damped velocity through the alias. |
| Computing.Simulation.UpdateExternalForces | Computing.py:135-161 | Only the particle's velocity changes, to the external-force update. Its predicted position becomes its position plus the new velocity. |
| Computing.Simulation.UpdateSpatialHash | Computing.py:164-199 | Afterwards the table is the stably sorted rows of the predicted positions. Every offset slot is the first row of its key, or -1. |
| Computing.Simulation.ScanCell | Computing.py:230-239 | The scan from a key's offset terminates and yields exactly the table's particles with the cell's hash, in table order. This includes the -1 offset that reads the last row. |
| Computing.Simulation.NeighbourCandidates | Computing.py:227-239 | The nine scans yield the block's matches in offset order, all valid particle indices. |
| Computing.Simulation.CalculateDensityNaive | Computing.py:202-215 | Returns the unit-mass brute-force density at the point over the current positions. |
| Computing.Simulation.CalculateDensity | Computing.py:218-253 | Returns the particle's density over the predicted positions, which is positive. |
| Computing.Simulation.AccumulateDensity | Computing.py:241-251 | The inner loop sums the density terms of the candidates in order. |
| Computing.Simulation.UpdateDensity | Computing.py:256-261 | Only the particle's density slot changes, to its density. |
| Computing.Simulation.CalculatePressureForce | Computing.py:264-310 | Returns the particle's pressure force over all particles. |
| Computing.Simulation.AccumulatePressure | Computing.py:290-308 | The inner loop sums the pressure terms of the candidates, skipping self and far ones. |
| Computing.Simulation.UpdatePressureForce | Computing.py:313-325 | Only the particle's velocity changes, by the threshold-guarded pressure update. |
| Computing.Simulation.CalculateViscosityForce | Computing.py:328-368 | Returns the particle's viscosity force over all particles, using the current velocities. |
| Computing.Simulation.AccumulateViscosity | Computing.py:353-366 | The inner loop sums the viscosity terms of the candidates, skipping self and far ones. |
| Computing.Simulation.UpdateViscosity | Computing.py:371-376 | Only the particle's velocity changes, by the viscosity force times the strength. |
| Computing.Simulation.UpdatePosition | Computing.py:379-386 | Only the particle's position and velocity change, to the collision result, and the position ends inside the area. |
| Computing.Simulation.ExternalForcesPass | Computing.py:400-401 | The first loop of a step applies external forces to every particle and predicts every position. |
| Computing.Simulation.DensityPass | Computing.py:405-406 | The density loop leaves every density equal to the particle's density, and all positive. |
| Computing.Simulation.UpdateParticle | Computing.py:408-411 | One turn of the last loop (pressure, viscosity, move) leaves the state its specification gives. |
| Computing.Simulation.ParticlePass | Computing.py:408-411 | The last loop settles the particles one after another in index order. |
| Computing.Simulation.SimulationStep | Computing.py:389-411 | The passes run in the source order: external forces, then the table rebuild, then densities at the predicted positions, then the per-particle pass. The new state is the step's specification, and every particle ends inside the area. |
| Computing.Simulation.GetPositions | Computing.py:414-418 | Returns the positions array itself, shared with the caller. |
| SimSetup.ISqrtIsFloorRoot | SimSetup.py:22 | ISqrt, the model of `int(math.sqrt(n))`, is the integer square root: its square is at most n, and the next square exceeds n. |
| SimSetup.RowsArePositive | SimSetup.py:22-23 | With at least one particle there is at least one particle per row. |
| SimSetup.GridHoldsAll | SimSetup.py:22-28 | ppr >= 1 and ppr * ppc >= n, so every particle's row index is below the column count. |
| SimSetup.GridPositionsDistinct | SimSetup.py:27-28 | With a non-zero spacing, two indices share a GridPosition (column i % ppr, row i / ppr) if and only if they are equal. |
| SimSetup.SpawnParticlesInGrid | SimSetup.py:6-32 | Returns a fresh array of exactly n positions, particle i at column i % ppr and row i / ppr, centred on the screen, one spacing apart. |

## Left out

**Numerics**

- Floating point is modelled as exact `real` arithmetic.
  - `np.linalg.norm` is a function parameter `norm`. The lemmas assume only that it is a Euclidean length (`Vectors.EuclideanNorm`); the methods take it as given.
  - Rounding, overflow to infinity and NaN are not modelled.
  - The constant π is written to double precision.
- HashCell: the model hashes every cell exactly, as Python integers do. This matches the table rebuild (Computing.py:179-180), where the cell is a list of Python integers. It does not match the neighbour scans at Computing.py:228, 278 and 340 for cells far from the origin:
  - there the cell is `originCell + offsets[i]`, a numpy int64 array, so SpatialHash.py:33-36 multiplies and adds 64-bit integers, which wrap;
  - the model and the program agree when |x| * 15823 + |y| * 9737333 < 2^63 for every cell of the block, roughly |y| below 9.4e11 cells and |x| below 5.8e14 cells;
  - beyond that, a scan hash can differ from the table row of the same cell, and the program can miss neighbours, the particle itself included. The model does not capture this.

**Randomness, input and I/O**

- `FluidMaths.GetRandomDirection` (FluidMaths.py:93) is left out. The direction it supplies becomes an input:
  - in the external pass, one per particle (`mouseDirections`);
  - in the pressure pass, one per pair (`pairDirections`).
- `SimSetup.SpawnParticlesRandomly` is left out because it draws random positions.
- The pointer position is an input of each step (`mousePos`). The button state is `Settings.mouseInput`, which `Computing.Simulation.UpdateSettings` changes between steps.
- Not modelled, because they are the pygame event loop, the GUI sliders, drawing and superseded prototypes:
  - `Simulation.py`, `Gui.py`, `Rendering.py`;
  - the scripts under `old/`.

**Settings**

- `InitializeValues` (Computing.py:80-91) assigns module globals by name. Here the constructor takes the whole settings record.
- `UpdateSettings` (Computing.py:94-104) assigns any subset of ten globals by keyword. `Computing.Simulation.UpdateSettings` takes a record and copies those ten fields from it. A call that names only some keywords corresponds to a record carrying the current values in the other fields.
- `SimSettings.ValidSettings` requires a positive smoothing radius, a positive pointer radius and a positive particle mass:
  - with a zero radius the source divides by zero when computing cells and the pointer force;
  - with a non-positive mass, densities can be zero and the pressure pass divides by them.

**Structure**

- The source's kernel wrappers `DensityFunction`, `DensityDerivatice` and `ViscosityFunction` (Computing.py:39-58) only call the kernels. The model calls `FluidMaths.SpikyFunctionPow2`, `SpikyFunctionPow2Derivative` and `SmoothFunctionPow3` directly.
- The three passes each inline the same neighbour search. In the model they share it:
  - `Computing.Simulation.NeighbourCandidates` and `ScanCell` enumerate the candidates in the source's visit order (offset order, then table order);
  - `AccumulateDensity`, `AccumulatePressure` and `AccumulateViscosity` then run the distance filter and the sum.

  The results and the order of summation are the same as the interleaved loops.
- The three loops of `SimulationStep` are the methods `ExternalForcesPass`, `DensityPass` and `ParticlePass`. The body of the last loop is `UpdateParticle`.
- The table rows before the first rebuild are placeholders: the source leaves them empty, and every rebuild overwrites all of them.
- The viscosity sum starts from the scalar 0, which numpy broadcasts. Here it starts from the zero vector.
- `SimSetup.SpawnParticlesInGrid` computes the row as `int(i / ppr)` with float division. It is modelled as the integer quotient `i / ppr`, which is the same for every index a float represents exactly.

**Preconditions and weaker contracts**

- `Computing.Simulation.CalculatePressureForce`, `AccumulatePressure`, `UpdatePressureForce` and `ParticlePass` require every density to be positive. The source calls them only after the density loop, and `Forces.DensitiesPositive` proves that loop establishes it.
- `Computing.Simulation.UpdateSettings` requires the new smoothing radius and pointer radius to be positive, as `SimSettings.ValidSettings` does for the initial settings.
- `SimSetup.SpawnParticlesInGrid` requires at least one particle: with none, the source divides by a zero row count.
- Forces.PressureTermsOpposite: the pressure terms of a pair are proved opposite only at a positive distance and for equal densities. Each term divides by the other particle's density, so unequal densities give unequal magnitudes. At distance zero the two directions are independent random inputs.
- Forces.CollideAxisCases: a coordinate that lands exactly on 0 is moved to the middle of the axis (`np.sign(0) == 0`). This is kept as written; it still lies inside the area.
- Computing.Simulation.UpdatePosition and SimulationStep promise positions inside the area only when both half bounds are non-negative. A screen narrower than a particle has no such area.
