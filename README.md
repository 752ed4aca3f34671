# Population balance: growth, breakage and agglomeration

A Dafny model of the particle-population update engine of the two C++
programs of this repository. `growth_breakage_agglomeration.cpp` is the
console program. `graphical.cpp` is the SFML program, which keeps a circle
shape for every particle. Each simulation step applies three passes to a
vector of particle sizes:

- **growth**: an explicit Euler step of `growthRate` per particle;
- **breakage**: one random draw per particle; a broken particle is erased
  and its two equal daughters are appended after the scan;
- **agglomeration**: one draw per examined pair `(i, j)`, `i < j`; on a
  merge `sizes[i]` absorbs `sizes[j]`, `j` is erased and `--j` re-examines
  the element that slid into slot `j`.

The console program then lowers the supersaturation `c0` and clamps it at
`c_star`. The graphical program never changes `c0`.

Modules:

- `Rng` (`rng.dfy`): `rand()` becomes an injected stream of draws in
  `[0, RAND_MAX]`. Every pass takes a cursor into the stream and returns
  the cursor just past the last draw it used, so the number of draws per
  pass is part of each contract.
- `Kinetics` (`kinetics.dfy`): the rate helpers, which are identical in both
  programs, and the uniform initial size.
- `Mass` (`mass.dfy`): the total size of a population and the arithmetic
  facts about it.
- `Engine` (`engine.dfy`): each pass as a pure function of the population
  and the stream, with the lemmas about those functions.
- `Headless` (`headless.dfy`): the console program's loops. They work on
  local copies of the vector, as the source mutates its own vector, and each
  is proved to compute the matching `Engine` function.
- `Graphical` (`graphical.dfy`): the SFML program's loops over two parallel
  vectors, `sizes` and the circles `particles`. They are proved against
  `Engine` and against companion functions for the circles.
  `Drawn(sizes, particles)` is the lockstep invariant: equal lengths, every
  circle drawn at `size * PARTICLE_SCALE`, and every circle inside the
  window.

Behaviour of the code worth noting:

- The sign of `growthRate` is not fixed by `c - c_star` alone. Because of
  the factor `1/x - 1/(2 delta)`, a supersaturated solution shrinks every
  particle larger than `2 delta` (`Kinetics.GrowthRateSign`).
- A threshold of exactly 1 does not always trigger. `rand()/RAND_MAX` can
  equal 1 and the comparison is strict, so breakage is certain only when
  the threshold exceeds 1 (`Engine.BreakageCertainty`).
- Daughters are not examined again for breakage in the step that creates them.
  They are appended before the agglomeration pass, though, so they can
  merge in that same step (`Headless.Stepped`, `Graphical.Framed`).
- With the console program's constants, the first update already lowers
  `c0` to `c_star` (1.0 − 1000 · 0.01 < 0.8). From then on the growth pass
  changes nothing (`Headless.MainGrowthStopsAfterFirstStep`). The graphical
  program keeps `c0 = 1.0`, so growth never stops there
  (`Graphical.GrowthNeverStops`).
- Nothing guards the growth update against producing a non-positive size.
  The model proves that breakage and agglomeration preserve positivity, and
  claims nothing of the kind for growth.

## Model

| member | source | states |
|---|---|---|
| Rng.Unit | growth_breakage_agglomeration.cpp:74 | `rand()/RAND_MAX` lies in [0, 1]; it is 0 exactly for draw 0 and 1 exactly for draw RAND_MAX |
| Kinetics.GrowthRateSign | growth_breakage_agglomeration.cpp:8-10 | for positive x, D, rho_c and delta, the growth rate is positive iff (c > c_star and x < 2 delta) or (c < c_star and x > 2 delta); negative in the mirrored cases; zero iff c == c_star or x == 2 delta |
| Kinetics.BreakageRateLinear | growth_breakage_agglomeration.cpp:13-15 | breakageRate is additive and homogeneous in the size |
| Kinetics.AgglomerationKernel | growth_breakage_agglomeration.cpp:18-20 | the kernel lies between the two sizes, and is positive when both are |
| Kinetics.KernelSymmetric | growth_breakage_agglomeration.cpp:18-20 | the kernel does not depend on the order of the pair |
| Kinetics.GenerateDaughters | growth_breakage_agglomeration.cpp:23-25 | exactly two daughters, equal, summing to the parent |
| Kinetics.SampleSize | growth_breakage_agglomeration.cpp:31 | the initial size lies between minSize and maxSize (in either order), and equals minSize on draw 0 and maxSize on draw RAND_MAX |
| Engine.Grown | growth_breakage_agglomeration.cpp:62-65 | the growth pass keeps the length, and element k is the Euler step of element k alone |
| Engine.GrowthIdleAtCritical | growth_breakage_agglomeration.cpp:62-65 | at c == c_star the growth pass returns the population unchanged |
| Engine.BreakageCertainty | growth_breakage_agglomeration.cpp:71-74 | every draw breaks the particle iff breakageRate * dt > 1; no draw does iff it is <= 0 |
| Engine.Fates | growth_breakage_agglomeration.cpp:69-74 | particle i breaks iff draw pos + i falls below its threshold; one fate per particle |
| Engine.Survivors | growth_breakage_agglomeration.cpp:78-83 | the scan keeps at most one entry per examined particle (contents in Engine.SurvivorsAreKept) |
| Engine.SurvivorStep | growth_breakage_agglomeration.cpp:78-83 | erasing the broken entry at the iterator, or stepping past a kept one, keeps "survivors so far, then the unexamined rest" |
| Engine.Selected | growth_breakage_agglomeration.cpp:69-84 | the kept or broken indices are all below the number of particles scanned |
| Engine.SelectedIncreasing | growth_breakage_agglomeration.cpp:69-84 | the selected indices are in strictly increasing scan order |
| Engine.SelectedExactly | growth_breakage_agglomeration.cpp:69-84 | an index is selected iff its fate is the one asked for |
| Engine.SelectedPartition | growth_breakage_agglomeration.cpp:69-84 | every scanned particle is either kept or broken, never both |
| Engine.SurvivorsAreKept | growth_breakage_agglomeration.cpp:78-83 | the survivors are exactly the kept particles, with their values, in order |
| Engine.DaughtersAreHalves | growth_breakage_agglomeration.cpp:75-77 | the daughters come in pairs, one pair per broken particle in scan order; both halves are equal and sum to the parent |
| Engine.BreakageKeeps | growth_breakage_agglomeration.cpp:69-84 | survivors keep their values and order; a particle survives iff its draw does not trigger |
| Engine.BreakageSplits | growth_breakage_agglomeration.cpp:68-87 | the result is the survivors followed by the daughters; a particle is broken iff its draw triggers; length is survivors + 2 * broken = n + broken |
| Engine.SplitConservesMass | growth_breakage_agglomeration.cpp:74-83 | survivors and daughters of the first n particles carry the size of those n particles |
| Engine.BreakageConservesMass | growth_breakage_agglomeration.cpp:68-87 | the breakage pass keeps the total size |
| Engine.SurvivorsPositive | growth_breakage_agglomeration.cpp:78-83 | survivors of a positive population are positive |
| Engine.DaughtersPositive | growth_breakage_agglomeration.cpp:75-77 | daughters of positive particles are positive |
| Engine.BreakagePreservesPositivity | growth_breakage_agglomeration.cpp:68-87 | the breakage pass keeps every size positive |
| Engine.Absorb | growth_breakage_agglomeration.cpp:96-99 | a merge event removes exactly one entry |
| Engine.AbsorbTo | growth_breakage_agglomeration.cpp:96-99 | after a merge event, entry m is the new value at i, the old entry m for the other m before j, and old entry m + 1 from j on |
| Engine.EraseAfterUpdate | growth_breakage_agglomeration.cpp:96-99 | overwriting slot i and then erasing slot j, as the loops do, is exactly that merge event |
| Engine.MergeInto | growth_breakage_agglomeration.cpp:95-99 | a merge event shortens the population by one |
| Engine.MergeIntoMass | growth_breakage_agglomeration.cpp:95-99 | a merge event keeps the total size |
| Engine.MergeIntoPositive | growth_breakage_agglomeration.cpp:95-99 | a merge event keeps every size positive |
| Engine.Sweep | growth_breakage_agglomeration.cpp:91-102 | the inner loop for one i takes one draw per examined pair (j runs to the end of the current vector), and its length drops by one per merge |
| Engine.SweepUnfold | growth_breakage_agglomeration.cpp:92-101 | one iteration: on a merge the same j is examined next on the merged vector, otherwise j + 1; one draw either way |
| Engine.AggFrom | growth_breakage_agglomeration.cpp:90-103 | from index i on, length + merges is invariant and the cursor never moves back |
| Engine.Agglomerated | growth_breakage_agglomeration.cpp:90-103 | final length = initial length − number of merges |
| Engine.SweepConservesMass | growth_breakage_agglomeration.cpp:91-102 | the inner loop keeps the total size |
| Engine.AggFromConservesMass | growth_breakage_agglomeration.cpp:90-103 | the outer loop from i on keeps the total size |
| Engine.AgglomerationConservesMass | growth_breakage_agglomeration.cpp:90-103 | the agglomeration pass keeps the total size |
| Engine.SweepPreservesPositivity | growth_breakage_agglomeration.cpp:91-102 | the inner loop keeps every size positive |
| Engine.AggFromPreservesPositivity | growth_breakage_agglomeration.cpp:90-103 | the outer loop keeps every size positive |
| Engine.AgglomerationPreservesPositivity | growth_breakage_agglomeration.cpp:90-103 | the agglomeration pass keeps every size positive |
| Engine.AgglomerationOfSingleton | growth_breakage_agglomeration.cpp:90-91 | on 0 or 1 particles the pass changes nothing, merges nothing and takes no draw |
| Engine.SweepCollapses | growth_breakage_agglomeration.cpp:91-102 | when every draw triggers, particle 0 absorbs every later particle in one sweep |
| Engine.AgglomerationCollapses | growth_breakage_agglomeration.cpp:90-103 | when every draw triggers, n >= 1 positive particles collapse into [total size] after n − 1 merges and n − 1 draws |
| Headless.InitializeParticles | growth_breakage_agglomeration.cpp:28-34 | n >= 0: n sizes, size i from draw pos + i, within [minSize, maxSize], n draws; n < 0: the length error and no draw |
| Headless.GrowthPass | growth_breakage_agglomeration.cpp:62-65 | the in-place loop computes Engine.Grown |
| Headless.BreakagePass | growth_breakage_agglomeration.cpp:68-87 | the iterator loop computes Engine.Broken and takes exactly one draw per particle present at the start (daughters are not examined again) |
| Headless.ExaminePair | growth_breakage_agglomeration.cpp:92-101 | one body of the inner loop takes one draw and advances Sweep by one iteration; the decrement of j stays within nat |
| Headless.AbsorbLater | growth_breakage_agglomeration.cpp:91-102 | the inner loop computes Engine.Sweep, sizes and cursor |
| Headless.AgglomerationPass | growth_breakage_agglomeration.cpp:90-103 | the nested loops compute Engine.Agglomerated, sizes and cursor |
| Headless.NextSupersaturation | growth_breakage_agglomeration.cpp:116-117 | c0 becomes max(c_star, c0 − nucleationRate * dt) |
| Headless.Step | growth_breakage_agglomeration.cpp:61-117 | one step computes Stepped (growth, breakage, agglomeration, clamp) and leaves c0 >= c_star |
| Headless.StepMass | growth_breakage_agglomeration.cpp:61-103 | a step changes the total size only through growth, and keeps a positive grown population positive |
| Headless.EmptyStep | growth_breakage_agglomeration.cpp:60-118 | an empty population stays empty, takes no draw, and only c0 changes |
| Headless.Run | growth_breakage_agglomeration.cpp:59-118 | the step loop computes Simulated |
| Headless.SupersaturationStaysAboveCritical | growth_breakage_agglomeration.cpp:115-117 | a run started at c0 >= c_star keeps c0 >= c_star |
| Headless.MainGrowthStopsAfterFirstStep | growth_breakage_agglomeration.cpp:115-117 | with main's constants c0 is clamped to c_star after the first step, stays there, and growth then changes nothing |
| Headless.MainStepCount | growth_breakage_agglomeration.cpp:59 | main runs 100 steps |
| Headless.Simulation | growth_breakage_agglomeration.cpp:41-60 | main at its own constants: the initial population has 1000 sizes, size i drawn from draw i between 1e-6 and 1e-3; the run is the 100-step Simulated run from c0 = 1.0 with the draws after them, and it ends with c0 >= c_star |
| Graphical.NewCircle | graphical.cpp:41-44 | a new circle has radius size * PARTICLE_SCALE and a position inside the window |
| Graphical.InitializeParticles | graphical.cpp:34-47 | appends max(n, 0) entries to both vectors and keeps the old entries; entry m takes draws pos + 3m (size), + 3m + 1 (x) and + 3m + 2 (y); sizes are within the bounds; lockstep is kept |
| Graphical.Redrawn | graphical.cpp:90 | each circle gets radius size * PARTICLE_SCALE and keeps its position |
| Graphical.GrowthPass | graphical.cpp:87-91 | sizes become Engine.Grown; each circle changes only its radius, to the new size; lockstep is kept |
| Graphical.Spawned | graphical.cpp:101-107 | two circles, drawn at the daughters' sizes, at the parent's position |
| Graphical.DaughterCircles | graphical.cpp:96-113 | one circle per daughter size |
| Graphical.SurvivorsInStep | graphical.cpp:108-109 | erasing by the same fates keeps the two vectors the same length |
| Graphical.BrokenCircles | graphical.cpp:93-115 | the circle vector after breakage has as many entries as the sizes |
| Graphical.BreakagePass | graphical.cpp:93-115 | the lockstep loop computes Engine.Broken on the sizes and BrokenCircles on the circles, with one draw per particle present at the start |
| Graphical.SurvivorsDrawn | graphical.cpp:108-109 | erasing the same entries from both vectors keeps lockstep |
| Graphical.DaughtersDrawn | graphical.cpp:101-107 | the daughters' sizes and circles are in lockstep |
| Graphical.BreakageKeepsDrawn | graphical.cpp:93-115 | the breakage pass keeps the vectors in lockstep |
| Graphical.DaughtersAtParents | graphical.cpp:100-107 | the daughters' circles come in pairs, one pair per broken particle in scan order, at that parent's position |
| Graphical.BreakageMovesNoCircle | graphical.cpp:93-115 | surviving circles are unchanged and in order; each broken particle's two circles are at its position |
| Graphical.SweepCircles | graphical.cpp:119-129 | the circles alongside the inner loop have as many entries as the sizes |
| Graphical.SweepCirclesUnfold | graphical.cpp:120-128 | one iteration on the circles: on a merge circle i is redrawn and circle j erased, otherwise nothing changes |
| Graphical.AggFromCircles | graphical.cpp:118-130 | the circles alongside the outer loop have as many entries as the sizes |
| Graphical.AgglomeratedCircles | graphical.cpp:118-130 | after agglomeration there are as many circles as sizes |
| Graphical.MergeKeepsDrawn | graphical.cpp:123-126 | a merge event on both vectors keeps lockstep |
| Graphical.SweepKeepsDrawn | graphical.cpp:119-129 | the inner loop keeps lockstep |
| Graphical.AggFromKeepsDrawn | graphical.cpp:118-130 | the outer loop keeps lockstep |
| Graphical.AgglomerationKeepsDrawn | graphical.cpp:118-130 | the agglomeration pass keeps lockstep |
| Graphical.MergePair | graphical.cpp:123-126 | sizes[i] becomes the sum, circle i is redrawn at it, and entry j is erased from both vectors |
| Graphical.ExaminePair | graphical.cpp:120-128 | one body of the inner loop advances both Sweep and SweepCircles by one iteration with one draw; the decrement of j stays within nat |
| Graphical.AbsorbLater | graphical.cpp:119-129 | the inner loop computes Engine.Sweep on the sizes and SweepCircles on the circles |
| Graphical.AgglomerationPass | graphical.cpp:118-130 | the nested loops compute Engine.Agglomerated and AgglomeratedCircles |
| Graphical.Framed | graphical.cpp:86-130 | a frame's update keeps the two vectors the same length |
| Graphical.Frame | graphical.cpp:86-130 | one frame's update computes Framed, at the fixed c0 |
| Graphical.FrameKeepsDrawn | graphical.cpp:86-130 | a frame keeps lockstep |
| Graphical.FrameMass | graphical.cpp:86-130 | a frame changes the total size only through growth |
| Graphical.Run | graphical.cpp:77-84 | the frame loop computes Played; the frame in which the window is closed still updates, and the loop stops after it |
| Graphical.PlayedKeepsDrawn | graphical.cpp:77-130 | every frame of a run keeps lockstep |
| Graphical.NewScene | graphical.cpp:68-71 | creating n particles into two empty vectors gives n sizes and n circles in lockstep, particle m from draws 3m, 3m + 1 and 3m + 2, and uses 3n draws |
| Graphical.Simulate | graphical.cpp:68-77 | set-up followed by the frame loop: the run is Played from the new scene, its draws following the set-up's, and the final vectors are in lockstep |
| Graphical.Simulation | graphical.cpp:54-77 | main at its own constants: 100 particles with sizes drawn between 1e-6 and 1e-4, then at most 5000 frames at c0 = 1.0, ending in lockstep |
| Graphical.GrowthNeverStops | graphical.cpp:88-89 | at the fixed c0 = 1.0, a positive size is unchanged by growth iff it equals 2 delta |

## Left out

- `simulation.py` is not part of this model.
- IEEE-754 doubles are modelled as reals: rounding, overflow, infinities
  and NaN are not modelled. The `float` radius and the float cast of the
  position are also reals and integers. Positions below 800 are exact in
  `float`.
- A zero size makes `growthRate` divide by zero. In the source this yields
  infinities or NaN; the runs (`Headless.Run`, `Graphical.Run`) instead stop
  with `Singular` at the first step whose population holds a zero.
- `srand(time(0))` and the generator behind `rand()` are left out: the draws
  come from an injected stream. RAND_MAX is glibc's value, 2147483647.
- Console output (growth_breakage_agglomeration.cpp:105-113): no effect on
  the state.
- SFML window, event polling and rendering (graphical.cpp:74, 79-84,
  132-137) are left out. Closing the window is a parameter `closedAt` saying
  in which frame a Closed event arrives. The fill colour is left out; it is
  always white.
- The evaluation order of the two `rand()` calls in `setPosition`
  (graphical.cpp:43-44) is unspecified in C++. The model takes x before y.
- The daughters' range-for (graphical.cpp:101-107) is modelled as one append
  of both daughter circles and one of both daughter sizes. This is the same
  order as the loop's two iterations.
- Headless.InitializeParticles fills an array of `numParticles` entries.
  When `numParticles` is negative, `std::vector`'s size constructor throws;
  the model reports that as `lengthError` and does not model the exception.
- Engine.Survivors: contract states only the length bound; the contents are in Engine.SurvivorsAreKept and Engine.BreakageKeeps.
- Engine.Sweep: contract states lengths and draw count; mass and positivity are in Engine.SweepConservesMass and Engine.SweepPreservesPositivity.
- Engine.AggFrom: contract states length and cursor; mass and positivity are in the AggFrom lemmas.
- Engine.Absorb: contract states only the length; the contents are in Engine.AbsorbTo and Engine.EraseAfterUpdate.
- Engine.MergeInto: contract states only the length; mass and positivity are in Engine.MergeIntoMass and Engine.MergeIntoPositive.
- Graphical.DaughterCircles: contract states only the length; positions and radii are in Graphical.DaughtersAtParents and Graphical.DaughtersDrawn.
- Graphical.BrokenCircles: contract states only the length; the contents are in Graphical.BreakageMovesNoCircle and Graphical.BreakageKeepsDrawn.
- Graphical.SweepCircles: contract states only the length; lockstep is in Graphical.SweepKeepsDrawn.
- Graphical.AggFromCircles: contract states only the length; lockstep is in Graphical.AggFromKeepsDrawn.
- Graphical.AgglomeratedCircles: contract states only the length; lockstep is in Graphical.AgglomerationKeepsDrawn.
- Graphical.Framed: contract states only equal lengths; lockstep and mass are in Graphical.FrameKeepsDrawn and Graphical.FrameMass.
- Growth keeping sizes positive is not claimed: it does not hold for every
  size and time step, and the source does not guard it.
