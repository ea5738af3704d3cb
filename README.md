# simpar: grid-approximated particle gravity on the unit torus

This project models `simpar-omp.c` in Dafny and proves properties of the model. The program moves point masses on the unit torus [0,1) x [0,1). The torus is divided into ncside x ncside cells. At every time step each cell keeps its mass and a centre-of-mass estimate. Each particle is accelerated by the cells of the 3 x 3 window around its own cell.

The model has four modules:

- `Torus` (torus.dfy) covers the integer and wrap-around arithmetic:
  - `(long)(x * ncside)` as C truncation (`Trunc`, `CellIndex`);
  - the three-wide neighbour window with its wrap flag, as written (`WindowAsWritten`) and corrected (`NeighbourWindow`);
  - the two `while` loops that wrap a coordinate back into [0,1) (`WrapUnit`, specified by `Frac`).
- `Gravity` (gravity.dfy) holds the constants `G` and `EPSLON` and the per-neighbour force term with its dead band.
- `Particles` (particles.dfy) covers the records and the sums that specify the grid:
  - records: `particle_t` as `Particle`, `MATRIX` as `Cell`;
  - per-cell and total sums: `CellMass`, `CellMoment`, `CellCentre`, `TotalMass`, `ScaledMoment`;
  - the cell contents after each accumulation pass: `MassPass`, `CentrePass` and `RunningPass`;
  - a particle's velocity phase (`Moved`) and a free step (`Drifted`, `Ballistic`).
- `Simpar` (simulation.dfy) holds the class `Simulation`:
  - `par` is the `array<Particle>` and `mtr` the `array2<Cell>`;
  - each loop of `centerofmassinit` and `wrapcalc` is a method that updates them in place;
  - `Simpar.Simulate` is the run that `main` starts.

Every OpenMP loop is modelled as the plain sequential loop in source order. So the x-phase loop finishes before the y-phase loop starts, and the y-phase sees the new x positions. `double` is modelled as `real`.

Decisions the code forced:

- **Five draws per particle.** The initialisation loop (simpar-omp.c:53-59) draws five deviates per particle: x, y, vx, vy, m. The deviates are an input sequence of `Draw` values.
- **Raw centre coordinate as the separation.** The force term uses the neighbour cell's raw `cmx` (`cmy`), not its distance from the particle. The model reproduces this exactly.
- **Positive masses.** The model requires every mass deviate to be strictly positive (see "Left out").

## Model

| member | source | states |
|---|---|---|
| Torus.Trunc | simpar-omp.c:75-76 | the C conversion `(long)` truncates toward zero: for v >= 0 the result t is the integer with 0 <= t <= v < t + 1, and for v < 0 the integer with t - 1 < v <= t <= 0 |
| Torus.CellIndex | simpar-omp.c:75-76 | for 0 <= x < 1 and ncside > 0 the cell index lies in [0, ncside), so `mtr[ix][jy]` is in bounds; for x >= 0 it is the floor of x * ncside |
| Torus.WindowAsWritten | simpar-omp.c:122-128 | the window exactly as the code computes it: for ncside >= 2 and home in range, all three entries are in range, m[0] = m[1]-1 and m[2] = m[1]+1 modulo ncside, and the wrap flag is set exactly when m[1] is 0 or ncside-1 |
| Torus.OneCellWindowReadsOutside | simpar-omp.c:124-126 | for ncside = 1 the `else if` leaves m[0] at -1, an index outside the grid |
| Torus.NeighbourWindow | simpar-omp.c:122-128 | the corrected window: the same guarantees for every ncside >= 1, and equal to the code's window whenever ncside >= 2 |
| Torus.CornerWindow | simpar-omp.c:122-128 | on a 4 x 4 grid, cell 0 has the window {3, 0, 1} with the wrap flag set, under both definitions |
| Torus.Frac | simpar-omp.c:139-140 | the wrapped coordinate lies in [0,1) and differs from the unwrapped one by an integer |
| Torus.FracOfUnit | simpar-omp.c:139-140 | a coordinate already in [0,1) is left unchanged by the wrap loops |
| Torus.ShiftIsFloor | simpar-omp.c:139-140 | the only integer shift that lands a value in [0,1) is its floor, so the wrap result is unique |
| Torus.FracShift | simpar-omp.c:138-140 | wrapping, then adding b and wrapping again, equals adding b and wrapping once |
| Torus.WrapUnit | simpar-omp.c:139-140 | the two `while` loops terminate, and their result is the representative in [0,1) of the input |
| Gravity.ForceTerm | simpar-omp.c:130-134 | after the sign flip on a wrapped window: a separation within EPSLON contributes 0; otherwise the term times 9r^2 is +G*mass or -G*mass with the sign of r; zero mass contributes 0; for positive mass the term's sign is the separation's sign |
| Gravity.ForceTermWrapFlips | simpar-omp.c:131 | the wrap flag only negates the term |
| Particles.Seeded | simpar-omp.c:53-59 | one particle from five deviates: position in [0,1), velocity deviate / (10 ncside), mass deviate * ncside / (G 1e6 n_part), positive exactly when its deviate is, and calloc's zero cell indices |
| Particles.Located | simpar-omp.c:75-76 | after the index assignment, the stored `ix`, `jy` are the cell indices of the position and lie in range; nothing else changes |
| Particles.Moved | simpar-omp.c:137-140 | a velocity phase changes only that axis's velocity (by the force) and coordinate (to the wrapped new position); it keeps the particle on the torus |
| Particles.TotalMass | simpar-omp.c:78 | with positive masses the total mass is positive for a non-empty set of particles |
| Particles.CellMass | simpar-omp.c:77 | with positive masses a cell's mass lies between 0 and the total mass |
| Particles.TotalMassOfMasses | simpar-omp.c:137-165 | particles that keep their masses keep their total mass |
| Particles.UnforcedIsDrift | simpar-omp.c:137-163 | with zero force on both axes, the two velocity phases move each coordinate by exactly its velocity and leave the velocities unchanged |
| Particles.BallisticStep | simpar-omp.c:137-165 | a free step after l free steps is l + 1 free steps; the wraps can be taken once at the end |
| Particles.OrbitStep | simpar-omp.c:138-140 | one coordinate after l free steps and one more wrapped step is the coordinate after l + 1 steps |
| Particles.BallisticZero | simpar-omp.c:110 | zero iterations leave a particle on the torus where it is |
| Particles.DriftMore | simpar-omp.c:137-177 | a particle located after l free iterations, which then drifts and is located again, has made l + 1 free iterations |
| Particles.TrajectoryStep | simpar-omp.c:110-177 | if every particle of the sequence is one free iteration and a relocation past the particles after l free iterations, the sequence is the particles after l + 1 free iterations |
| Particles.RowCellMassSnoc | simpar-omp.c:77 | adding a particle raises the row sum of cell masses by its mass exactly when its cell is in the summed columns |
| Particles.GridCellMassSnoc | simpar-omp.c:77 | adding a particle raises the grid sum of cell masses by its mass exactly when its cell is in the summed rows |
| Particles.MassConservation | simpar-omp.c:74-79 | mass is conserved: for particles on the torus, the cells' masses add up to the total particle mass |
| Particles.EmptyRowMass | simpar-omp.c:74-79 | with no particles, every row of cells holds mass 0 |
| Particles.EmptyGridMass | simpar-omp.c:74-79 | with no particles, the whole grid holds mass 0 |
| Particles.CellMassCovers | simpar-omp.c:82-83 | the divisor `mtr[ix][jy].mass` of the centre pass is at least the particle's own mass, so it is positive |
| Particles.VacantCell | simpar-omp.c:77-83 | a cell no particle maps to keeps mass 0 and mass moment 0 |
| Particles.ScaledMomentIsQuotient | simpar-omp.c:182-183 | summing m*x/masssum particle by particle equals (sum of m*x) / masssum |
| Particles.MomentBounds | simpar-omp.c:182-183 | with positive masses on the torus, 0 <= sum of m*x <= total mass, strictly below it when there are particles |
| Particles.SystemCentreInUnit | simpar-omp.c:181-184 | the system centre of mass of positive masses on the torus lies in [0,1) |
| Particles.CellSnoc | simpar-omp.c:77-83 | adding a particle changes only its own cell's mass and mass moment, each by its own contribution |
| Particles.PartialCentreSnoc | simpar-omp.c:82-83 | the centre pass adds m*coordinate/mass to the particle's own cell only |
| Particles.MassPassSnoc | simpar-omp.c:77 | the mass pass adds a particle's mass to its own cell only |
| Particles.CentrePassSnoc | simpar-omp.c:82-83 | the centre pass adds m*x/mass and m*y/mass, with the cell's final mass, to the particle's own cell only |
| Particles.RunningPassSnoc | simpar-omp.c:178-180 | the single pass adds the mass, then m*x and m*y divided by the mass so far including the particle's own, to its own cell only |
| Particles.RunningCentreIsNotCentre | simpar-omp.c:178-180 | two unit masses at x = 0.1 and x = 0.2 in cell (0,0) of a 2 x 2 grid: the running centre is 0.2, the centre of mass is 0.15 |
| Simpar.Simulation.RowMassIs | simpar-omp.c:77 | a row of the stored grid sums to the row sum of the specified cell masses |
| Simpar.Simulation.GridMassIs | simpar-omp.c:77 | the stored grid sums to the grid sum of the specified cell masses |
| Simpar.Simulation.StoredMassConserved | simpar-omp.c:74-79 | a grid holding each cell's specified mass holds the total particle mass |
| Simpar.Simulation.constructor | simpar-omp.c:224-230 | the allocated arrays: one particle per draw as the initialisation loop derives it, and every cell empty as calloc leaves it |
| Simpar.Simulation.AggregateInit | simpar-omp.c:72-86 | every particle is located; the returned masssum is the input plus the total mass; each cell holds its particles' mass and true centre of mass; the cells hold the total mass |
| Simpar.Simulation.MassLoop | simpar-omp.c:74-79 | every particle is located; the returned sum is the input plus the total mass; each cell holds exactly its particles' mass and centre 0 |
| Simpar.Simulation.MassUpdate | simpar-omp.c:77 | adding one particle's mass to its cell turns the mass pass over the earlier particles into the mass pass including it |
| Simpar.Simulation.CentreLoop | simpar-omp.c:81-85 | from the mass pass's grid, each cell ends with its particles' mass and true centre of mass |
| Simpar.Simulation.CentreUpdate | simpar-omp.c:82-83 | adding one particle's m*x/mass and m*y/mass to its cell extends the centre pass by that particle |
| Simpar.Simulation.ResetMass | simpar-omp.c:112-114 | every cell's mass becomes 0, and its centre fields are unchanged |
| Simpar.Simulation.ResetCentres | simpar-omp.c:170-172 | every cell's cmx and cmy become 0, and its mass is unchanged |
| Simpar.Simulation.ComputeForce | simpar-omp.c:129-136 | the nested t, u loops compute the sum of the force terms over the particle's 3 x 3 window |
| Simpar.Simulation.RowForceZero | simpar-omp.c:129-136 | over a grid of zero masses, each row of the window contributes 0 |
| Simpar.Simulation.WindowForceZero | simpar-omp.c:129-136 | over a grid of zero masses, the whole window contributes 0 |
| Simpar.Simulation.ZeroMassNoForce | simpar-omp.c:112-136 | over a grid whose masses are all 0, as line 113 leaves it, every particle's force is 0 on both axes |
| Simpar.Simulation.Advance | simpar-omp.c:119-141 | a velocity phase (x here; y at lines 144-166): each particle gets the force from its window, its velocity and coordinate on that axis are updated, and the coordinate is wrapped; the grid is not written |
| Simpar.Simulation.Reaggregate | simpar-omp.c:175-185 | every particle is relocated; each cell holds its mass and the running, single-pass centre; the cells hold the total mass; on the last iteration the system centre adds sum of m*x/masssum |
| Simpar.Simulation.RunningUpdate | simpar-omp.c:178-180 | adding one particle's mass to its cell and then m*x and m*y over the new mass extends the single pass by that particle |
| Simpar.Simulation.Step | simpar-omp.c:110-186 | one iteration as written: each particle moves by exactly its unchanged velocity on both axes, is relocated, and the grid holds the running centres |
| Simpar.Simulation.Kicked | simpar-omp.c:129-165 | both velocity phases over a grid: vx grows by the x force and x moves by the new vx plus half of that force; vy grows by the y force, computed at the new x, and y moves by the new vy plus half of that force; the mass and the torus are kept |
| Simpar.Simulation.SystemCentre | simpar-omp.c:181-184 | the system-centre accumulation over all particles yields sum of m*x/masssum and sum of m*y/masssum |
| Simpar.Simulation.StepCorrected | simpar-omp.c:110-186 | the corrected iteration: forces from the grid of the previous aggregation, then an exact two-pass re-aggregation giving the true cell centres |
| Simpar.Simulation.WrapCalc | simpar-omp.c:99-186 | `wrapcalc` as written: after any n > 0 iterations, every particle is at its start position plus n times its initial velocity, wrapped and located; xcm, ycm is the system centre of the final positions |
| Simpar.Simulation.WrapCalcCorrected | simpar-omp.c:110-186 | repeated corrected iterations keep every mass, leave the true cell centres in the grid, and return the system centre of the final positions |
| Simpar.Simulate | simpar-omp.c:212-236 | the run on accepted arguments: the printed first particle's position is its initial position plus `iters` times its initial velocity, wrapped; the printed system centre is the mass-weighted average of the final positions (sum of m*x divided by the total mass, likewise for y) and lies in [0,1) |

## Left out

- OpenMP parallelism (`#pragma omp` at simpar-omp.c:73, 80, 116-118, 143, 169, 174) is not modelled; every loop is sequential in source order. The model therefore does not show two data races:
  - the unsynchronised `+=` into shared cells at lines 77 and 178-180;
  - the two `nowait` loops: the y-phase loop reads the `par[k].x` that the x-phase loop writes.
- IEEE-754 `double` is not modelled: there is no rounding, overflow or NaN. In doubles the wrap loops can return exactly 1.0 for a tiny negative input; `real` has no such case.
- The pseudorandom generator (`srandom`/`random`, `RND0_1` at simpar-omp.c:11, 51) is not modelled. The deviates are a parameter, one `Draw` of five values in [0,1) per particle.
- Zero masses are excluded. `Simpar.Simulation.constructor` and `Simpar.Simulate` require every mass deviate to be strictly positive. `RND0_1` can return 0, and a lone zero-mass particle in a cell makes line 82 compute 0/0. That NaN has no `real` counterpart.
- `main` and `usage` (simpar-omp.c:198-236) are not modelled: argument parsing, allocation failure and `exit`. `Simpar.Simulate` takes the values `main` accepts: ncside >= 1, at least one particle, at least one iteration.
- The two `printf` calls (simpar-omp.c:187-188) are not modelled. `Simpar.Simulate` returns the four printed values instead.
- opari.tab.c is not part of this model: it is a generated instrumentation table with no logic.
- ncside = 1: the source reads `mtr[-1]` there, which is undefined behaviour. `Simpar.Simulation.Force` uses the corrected window, which equals the source's for every ncside >= 2.
- Simpar.Simulation.WrapCalcCorrected: does not give the final positions in closed form, because they depend on the forces; it states the masses, the grid and the system centre.
- Simpar.Simulation.StepCorrected: the order it restores (update first, then reset and re-aggregate) is an inference from the comments at lines 112 and 181, not something the source states.

## Findings

| source | as written | input that shows it | evidently intended | confidence | as-written member | corrected member |
|---|---|---|---|---|---|---|
| simpar-omp.c:125-128 | the low-side wrap is an `else if` of the high-side wrap | ncside = 1, particle in cell 0: m[2] wraps to 0, so m[0] stays -1 and line 131 reads `mtr[-1]` | the two wrap tests are independent, so m[0] = ncside - 1 | high; not executed | Torus.OneCellWindowReadsOutside | Torus.NeighbourWindow |
| simpar-omp.c:112-136 | every cell mass is set to 0 before the force loops read `mtr[..].mass` | any state: every force term is 0, so velocities never change and each particle only drifts | the force loops use the masses of the previous aggregation; the reset follows the update | high; not executed | Simpar.Simulation.ZeroMassNoForce | Simpar.Simulation.StepCorrected |
| simpar-omp.c:178-180 | each particle's m*x is divided by the cell mass accumulated so far | two unit masses at x = 0.1 and x = 0.2 in one cell: cmx = 0.1/1 + 0.2/2 = 0.2 instead of 0.15 | divide by the cell's final mass, as the two-pass `centerofmassinit` does | high; not executed | Particles.RunningCentreIsNotCentre | Simpar.Simulation.StepCorrected |
