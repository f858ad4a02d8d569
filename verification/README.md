# Cloth sketches: lattice, constraints, anchors, wind lookup, stepping and surface sampling

This project models the logic of two cloth sketches, `sketch/4/4.js` (the *dense* cloth) and
`sketch/4/82.js` (the *sparse* cloth). It covers the part of each sketch that wraps the
physics library, and it proves properties of that model in Dafny. Each sketch:

- places an (Nx+1) x (Ny+1) lattice of particle bodies flat at floor height;
- ties neighbouring particles with distance constraints whose rest length is their initial
  distance:
  - the dense sketch uses structural and diagonal constraints;
  - the sparse sketch uses structural constraints only;
- creates four zero-mass anchor bodies:
  - the dense sketch tethers four particles around the centre to them;
  - the sparse sketch puts them on the footprint corners and ties nothing to them;
- on every animation frame:
  - runs a fixed-step scheduler over `lastCallTime`;
  - in the sparse sketch, first sets gravity from a 2-second ramp;
  - looks up each particle's flow-field cell for the wind;
  - copies every particle position into the flat vertex buffer of the cloth mesh.

Modules, one per component:

| module | file | models |
|---|---|---|
| `Lattice` | `lattice.dfy` | configuration, particle bodies, hanging positions, mass, the placement loops |
| `Topology` | `topology.dfy` | the constraint loops of both variants, `connectParticles`, rest lengths |
| `Anchors` | `anchors.dfy` | anchor points and bodies, the tethered particles, the tether constraints |
| `Setup` | `setup.dfy` | the setup sequence of each sketch, end to end |
| `Wind` | `wind.dfy` | flow-field grid, the clamped cell lookup, the per-particle wind pass |
| `Stepping` | `stepping.dfy` | the step count, the cold/warm scheduler, the gravity ramp, the `Stepper` state |
| `Sampler` | `sampler.dfy` | the position buffer, its slot layout and the write loop |

Modelling choices:

- **Numbers.** Positions and times are exact `real`s. Lattice indices are `int`s.
- **Rest lengths are stored squared.** `Constraint.restSq` is the square of the length the
  sketch passes to the constraint, so no square root is needed.
- **`world.step` is a counted call.** `Stepper.WorldStep` increments `stepCount`. The
  proofs are about how many steps each frame runs.
- **Clock reads are parameters.** Each `performance.now()` is a parameter in milliseconds.
  The sparse sketch reads the clock twice per frame (82.js:286 and 82.js:289), so
  `AdvanceWithRamp` takes two parameters, `now` and `rampNow`.
- **The noise-driven wind vectors are a parameter.** `CreateFlowField` takes a function
  `sample(x, y)` in place of them.
- **`lastCallTime` is an `Option<real>`.** `!lastCallTime` is true both when it is unset
  and when it is `0`, and `IsCold` reproduces that.
- **`Math.ceil` is written out.** It is `-((-r).Floor)`. A non-positive step count runs the
  step loop zero times.

Where the code and the sketches' own comments or stated intent differ, the model follows the code:

- **Ramp values.** The ramp comment says gravity goes "from 1 to -5" in two seconds. The code
  does something else:
  - it starts at 2 and falls linearly towards -4;
  - at 2000 ms it jumps to -5 (`RampEndsAboveFinal`);
  - the world is created with gravity 1 (`p.gravity`, 82.js:37), so the first frame raises
    it to 2.
- **Tether position.** The dense sketch's tethers hold the particles around the centre,
  `(floor(Nx/2) ± 1, floor(Ny/2) ± 1)`, not the cloth corners. The anchors stand at
  `(±1, floor + 2, ±1)`.
- **Particle mass.** The per-particle mass is `(clothMass / Nx) * Ny`. That is not a share of
  the total: with Nx == Ny each particle weighs `clothMass`.
- **Step cap.** The scheduler has no cap on catch-up steps. A long stall runs
  `ceil(dt / timeStep)` steps, however many that is.

## Model

| member | source | states |
|---|---|---|
| Lattice.Config.RestDistanceX | sketch/4/4.js:131 | restDistanceX is positive and Nx of them make up the cloth width |
| Lattice.Config.RestDistanceY | sketch/4/4.js:132 | restDistanceY is positive and Ny of them make up the cloth height |
| Lattice.SketchConfigs | sketch/4/82.js:25-40 | both sketches' parameters are valid and square (Nx == Ny), the dense one has at least 2 segments per axis as its tethers need, and the sparse sketch's particles weigh 3 |
| Lattice.HangingPosition | sketch/4/4.js:148-152 | particle (x, y) starts at height floor, x·restDistanceX − width/2 across and y·restDistanceY − height/2 deep |
| Lattice.ParticleMass | sketch/4/82.js:131 | mass·Nx = clothMass·Ny; positive for a positive clothMass; equal to clothMass on a square lattice |
| Lattice.PlaceParticles | sketch/4/4.js:145-165 | the placement loops build Nx+1 columns of Ny+1 bodies, body (x, y) at its hanging position, at rest, with the common mass and damping 0.5 |
| Lattice.InitialBody | sketch/4/4.js:154-160 | the options of each particle body (hanging position, zero velocity, the common mass, damping 0.5); its meaning is stated by UniformParticles and PlaceParticles |
| Lattice.HangingSpan | sketch/4/4.js:131-152 | every particle lies in [−width/2, width/2] x [−height/2, height/2] at floor height; the first and last column and row lie exactly on the edges |
| Lattice.NeighbourDistances | sketch/4/82.js:145-149 | neighbouring columns are restDistanceX apart and neighbouring rows restDistanceY apart; both diagonals have squared length rx² + ry² |
| Lattice.HangingPositionInjective | sketch/4/4.js:148-152 | distinct lattice cells start at distinct positions |
| Lattice.UniformParticles | sketch/4/82.js:151-157 | every particle has the same positive mass, zero velocity and damping 0.5 |
| Topology.CellLinksMembers | sketch/4/4.js:170-182 | one iteration (x, y) creates distinct links, exactly the generated links whose first particle is (x, y) |
| Topology.RowLinksMembers | sketch/4/4.js:169-183 | the inner loop up to row y creates distinct links, exactly the generated ones of column x below row y |
| Topology.LoopLinksMembers | sketch/4/4.js:168-184 | the outer loop up to column x creates distinct links, exactly the generated ones left of column x |
| Topology.LinksExactly | sketch/4/4.js:168-184 | the loops create each link once, and a link is created iff it is a structural edge that fits, a down-right diagonal of a quad, or (dense only) an up-right diagonal from rows 1 .. Ny−1 |
| Topology.LinksInLattice | sketch/4/82.js:165-176 | every constraint joins two particles in 0..Nx x 0..Ny; the sparse loops create only vertical and horizontal constraints |
| Topology.NoDuplicatePairs | sketch/4/4.js:168-184 | no two constraints join the same unordered pair of particles |
| Topology.StructuralEdgeOnce | sketch/4/82.js:165-176 | every horizontal and every vertical lattice edge is joined by exactly one constraint, in both variants |
| Topology.LastRowAntiDiagonalMissing | sketch/4/4.js:175-181 | no constraint joins (x, Ny) to (x+1, Ny−1): the y == Ny branch adds only the horizontal edge |
| Topology.LinksCount | sketch/4/4.js:168-184 | the dense loops create 4·Nx·Ny + Ny constraints; the sparse loops create Nx·(Ny+1) + Ny·(Nx+1) |
| Topology.BuildConstraints | sketch/4/4.js:168-184 | the constraint loops produce, in order, the connectParticles constraint of every generated link |
| Topology.ConnectColumn | sketch/4/82.js:166-175 | the inner loop produces the constraints of column x in row order |
| Topology.ConnectCell | sketch/4/4.js:170-182 | the if-chain of one iteration calls connectParticles for exactly the links of that cell, in call order |
| Topology.Connect | sketch/4/4.js:136-143 | connectParticles: a constraint between the two particles whose rest length is their current distance (squared); LinkRestSq and LatticeRestLengths state the resulting lengths on the hanging lattice |
| Topology.LatticeRestLengths | sketch/4/4.js:136-143 | built on the hanging lattice, a horizontal constraint rests at restDistanceX, a vertical one at restDistanceY and a diagonal at sqrt(rx² + ry²) (all squared); every rest length is positive |
| Anchors.TetherAnchorPoints | sketch/4/4.js:187-193 | four distinct anchor points, all at height floor + anchorDistance, at x, z = ±1 |
| Anchors.CornerAnchorsOnCorners | sketch/4/82.js:179-185 | each sparse anchor starts exactly where its corner particle (0,0), (Nx,0), (Nx,Ny), (0,Ny) hangs |
| Anchors.CornerAnchorPoints | sketch/4/82.js:180-185 | the four corner anchor points at floor + 0; CornerAnchorsOnCorners states that they coincide with the corner particles |
| Anchors.CreateAnchors | sketch/4/4.js:195-204 | one anchor body per point, in order, each with mass 0 at its point |
| Anchors.TetheredCellsValid | sketch/4/4.js:206-213 | from Nx, Ny ≥ 2 the four tethered particles are in the lattice and pairwise distinct |
| Anchors.TetheredCells | sketch/4/4.js:206-213 | the cornerParticles choice (floor(Nx/2) ± 1, floor(Ny/2) ± 1) in anchor order; TetheredCellsValid and TetheredCellsOutside state when it is in range |
| Anchors.TetheredCellsOutside | sketch/4/4.js:206-213 | below 2 segments on either axis the first tethered particle has a negative index |
| Anchors.AttachTethers | sketch/4/4.js:215-220 | particle i is tied to anchor i, with rest length anchorDistance, not a measured distance |
| Setup.SetupDense | sketch/4/4.js:131-220 | dense setup: hanging lattice; 4 anchors at the tether points; 4·Nx·Ny + Ny lattice constraints followed by 4 tethers of length 2; every endpoint exists; each tethered particle has exactly one constraint to an anchor, the one to its own anchor |
| Setup.SetupSparse | sketch/4/82.js:128-210 | sparse setup: hanging lattice; 4 anchors on the corners; Nx·(Ny+1) + Ny·(Nx+1) constraints, all between two lattice particles, none touching an anchor |
| Setup.LatticeEndpoints | sketch/4/4.js:136-143 | every lattice constraint joins two particles of the lattice and no anchor |
| Wind.Clamp | sketch/4/4.js:297-298 | Math.max(lo, Math.min(hi, v)) lies in [lo, hi], leaves in-range values unchanged and sends values below or above to lo or hi |
| Wind.WindCell | sketch/4/4.js:294-298 | the cell index is in [0, size−1], equals the raw floor index when that is in range, and is clamped to the nearer end otherwise |
| Wind.RawCell | sketch/4/4.js:337-338 | the unclamped Math.floor index; WindCell, InteriorNeedsNoClamp and FarEdgeClamped state its range and its clamping |
| Wind.WindAt | sketch/4/4.js:337-342 | flowField[gridY][gridX] for a position; WindAtSample states that it is the generator's sample of cell (gridX, gridY) |
| Wind.InteriorNeedsNoClamp | sketch/4/82.js:319-323 | a coordinate in [−extent/2, extent/2) needs no clamping |
| Wind.FarEdgeClamped | sketch/4/4.js:294-298 | the far edge +extent/2, where the last lattice column and row start, maps to index size and is clamped to size−1 |
| Wind.WindCellMonotone | sketch/4/4.js:337-341 | a larger coordinate never gives a smaller cell index |
| Wind.CreateFlowField | sketch/4/4.js:260-280 | the flow field is size rows of size vectors, row y column x holding the sample of cell (x, y) |
| Wind.WindAtSample | sketch/4/4.js:342 | indexing flowField[gridY][gridX] hands a particle the sample of cell (gridX, gridY) |
| Wind.WindForces | sketch/4/4.js:333-346 | the wind pass gives particle (x, y) the vector of the clamped cell its current position falls in |
| Wind.WindColumn | sketch/4/82.js:316-327 | the inner wind loop does the same for the particles of one column |
| Stepping.Ceil | sketch/4/4.js:321 | Math.ceil: the result n satisfies n − 1 < r ≤ n |
| Stepping.NumSteps | sketch/4/4.js:320-321 | (n−1)·timeStep < dt ≤ n·timeStep; n ≤ 0 for dt ≤ 0 and n ≥ 1 for dt > 0 |
| Stepping.NumStepsUnique | sketch/4/4.js:321 | the bracket (n−1)·timeStep < dt ≤ n·timeStep determines n |
| Stepping.NumStepsMonotone | sketch/4/4.js:320-324 | a longer interval never runs fewer steps |
| Stepping.StepsFor | sketch/4/4.js:315-325 | a cold call runs stepsPerFrame = 2 steps; a warm call with dt ≤ 0 runs none; a warm call with dt > 0 runs n steps with (n−1)·timeStep < dt ≤ n·timeStep |
| Stepping.IsCold | sketch/4/4.js:315 | `!lastCallTime`: unset or zero; StepsFor states that a cold call runs stepsPerFrame steps |
| Stepping.StepsForMonotone | sketch/4/82.js:297-307 | with the same previous call, a later call never runs fewer steps |
| Stepping.RampGravity | sketch/4/82.js:289-295 | gravity is 2 at elapsed 0, stays in (−4, 2] during the first 2000 ms and is −5 from then on |
| Stepping.RampStrictlyDecreasing | sketch/4/82.js:290-292 | during the ramp gravity strictly decreases |
| Stepping.RampNonIncreasing | sketch/4/82.js:289-295 | over all time gravity never increases |
| Stepping.RampEndsAboveFinal | sketch/4/82.js:288-295 | just before 2000 ms gravity is arbitrarily close to −4, yet at 2000 ms it is −5 |
| Stepping.Stepper.constructor | sketch/4/82.js:274-278 | the stepper starts with no last call, no steps and the setup time and gravity recorded |
| Stepping.Stepper.WorldStep | sketch/4/4.js:317 | world.step adds one to the step count |
| Stepping.Stepper.Advance | sketch/4/4.js:313-326 | one animate call runs StepsFor(previous lastCallTime, now/1000) steps and sets lastCallTime to now/1000 |
| Stepping.Stepper.AdvanceWithRamp | sketch/4/82.js:286-308 | the sparse animate call sets gravity to the ramp value at the elapsed time, then steps as Advance does |
| Stepping.TwoFrames | sketch/4/4.js:313-326 | a first call at a non-zero time runs 2 steps, and the next call runs exactly the steps covering the time between the two |
| Sampler.AllocatePositions | sketch/4/4.js:223-229 | the position buffer holds 3·(Nx+1)·(Ny+1) floats, all zero |
| Sampler.SlotOrder | sketch/4/4.js:349-352 | the slots of a particle visited earlier come before those of a particle visited later |
| Sampler.Slot | sketch/4/4.js:352 | the slot (x·(Nx+1)+y)·3 + k; SlotInjective, SlotSurjective and SlotHoldsCoord state its layout |
| Sampler.FlatCoord | sketch/4/4.js:352-355 | the coordinate a slot receives, found by div/mod; SlotHoldsCoord states that slot (x·(Nx+1)+y)·3 + k gets coordinate k of particle (x, y) |
| Sampler.SlotInRange | sketch/4/82.js:334-337 | with Nx == Ny every slot (x·(Nx+1)+y)·3 + k lies inside the buffer |
| Sampler.SlotInjective | sketch/4/4.js:352-355 | distinct (particle, coordinate) triples go to distinct slots |
| Sampler.SlotDecompose | sketch/4/4.js:352 | a slot decomposes back into its column, row and coordinate |
| Sampler.SlotSurjective | sketch/4/82.js:213-219 | with Nx == Ny every slot of the buffer belongs to some particle and coordinate |
| Sampler.NonSquareStrideFails | sketch/4/82.js:334 | the stride Nx+1 needs Nx == Ny: with fewer columns than rows two particles share a slot; with more, the last particle's slots fall outside the buffer |
| Sampler.WritePositions | sketch/4/4.js:348-357 | after the write loop every slot of the buffer holds the coordinate FlatCoord assigns it |
| Sampler.VertexSlots | sketch/4/4.js:351-355 | the three slots of particle (x, y) are in the buffer and are the slots FlatCoord assigns to its x, y and z coordinates |
| Sampler.SlotHoldsCoord | sketch/4/82.js:330-339 | read back per particle: after the write loop, coordinate k of particle (x, y) sits in slot (x·(Nx+1)+y)·3 + k |

## Left out

- The physics of `world.step`: integration, gravity, damping and the distance-constraint solver
  belong to the cannon-es library, which is not part of this model. Steps are only counted, so
  nothing here says particles converge to their rest lengths or that anchors stay still.
- `particle.applyForce`: the wind pass computes which flow-field vector each particle receives;
  the force accumulation inside the physics library is not modelled.
- The noise and vector arithmetic inside `createFlowField` (the `noise3D` calls, `normalize`,
  the mouse-driven intensity): a foreign library and floating point; the grid is built from an
  uninterpreted `sample(x, y)`.
- Diagonal rest lengths are kept squared, as every rest length is; their square roots are not
  computed.
- Floating-point rounding: all arithmetic is exact, so e.g. 1/60 and the hanging positions are
  exact values.
- The dense sketch's warm-up loop (4.js:289-305), whose bound `1 + Math.random() + 20` is random;
  its body is the same wind pass and one step, modelled by `WindForces` and `WorldStep`.
- Rendering, camera, lights, materials, controls, the ground body, event listeners,
  `requestAnimationFrame`, stats, `dispose` and the `paused` flag (always false in both
  sketches): presentation and browser plumbing.
- The global `constraints` array and `world.addBody`/`world.addConstraint` registration: the
  model returns the constraint and body lists instead of registering them.
- Stepping.Stepper.Advance: the `p.wind` branch and the sampler run after the stepping in the
  same animate call; they are modelled separately by `WindForces` and `WritePositions`, not
  sequenced inside `Advance`.
- Sampler.WritePositions: requires Nx == Ny, as both sketches configure (`SketchConfigs`); the non-square case is
  characterised by `NonSquareStrideFails` instead of being modelled as out-of-bounds writes.
- Anchors.CornerAnchorPoints: its own contract gives only the count; the corner positions are
  stated by `CornerAnchorsOnCorners`.
