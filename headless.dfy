/** growth_breakage_agglomeration.cpp: the console program. Its main keeps
    the population in a local vector and the supersaturation in a local
    scalar and changes both in place, step after step. */
module Headless {
  import opened Rng
  import opened Kinetics
  import opened Mass
  import opened Engine

  // The constants main is written with.
  const INITIAL_PARTICLES: int := 1000
  const MIN_SIZE: real := 0.000001
  const MAX_SIZE: real := 0.001
  const INITIAL_C0: real := 1.0
  const TOTAL_TIME: real := 1.0
  const MainParams: Params := Params(
    D := 0.0000000001, rho_c := 1000.0, delta := 0.000001, c_star := 0.8,
    breakageConstant := 10000.0, agglomerationConstant := 0.0001,
    timeStep := 0.01, nucleationRate := 1000.0)

  /** static_cast<int>(totalTime / timeStep): the number of steps main runs. */
  const STEPS: int := (TOTAL_TIME / MainParams.timeStep).Floor

  /** Fills a vector of numParticles sizes, one draw each, in index order.
      A negative count makes std::vector's size constructor throw
      std::length_error; that outcome is reported in lengthError. */
  method InitializeParticles(numParticles: int, minSize: real, maxSize: real, draws: Stream, pos: nat)
    returns (particles: seq<real>, next: nat, lengthError: bool)
    ensures lengthError <==> numParticles < 0
    ensures lengthError ==> particles == [] && next == pos
    ensures !lengthError ==> |particles| == numParticles && next == pos + numParticles
    ensures forall i :: 0 <= i < |particles| ==> particles[i] == SampleSize(minSize, maxSize, draws(pos + i))
    ensures minSize <= maxSize ==> forall i :: 0 <= i < |particles| ==> minSize <= particles[i] <= maxSize
  {
    if numParticles < 0 {
      return [], pos, true;
    }
    var a := new real[numParticles](_ => 0.0);
    next := pos;
    for i := 0 to numParticles
      invariant next == pos + i
      invariant forall m :: 0 <= m < i ==> a[m] == SampleSize(minSize, maxSize, draws(pos + m))
    {
      a[i] := SampleSize(minSize, maxSize, draws(next));
      next := next + 1;
    }
    particles, lengthError := a[..], false;
  }

  /** The growth loop: each size is replaced, through a reference, by its
      Euler step. */
  method GrowthPass(particles: seq<real>, c0: real, p: Params) returns (grown: seq<real>)
    requires p.Valid() && NoZero(particles)
    ensures grown == Grown(particles, c0, p)
  {
    grown := particles;
    for i := 0 to |grown|
      invariant |grown| == |particles|
      invariant forall m :: 0 <= m < i ==> grown[m] == Euler(particles[m], c0, p)
      invariant forall m :: i <= m < |grown| ==> grown[m] == particles[m]
    {
      var G := GrowthRate(grown[i], c0, p.D, p.rho_c, p.delta, p.c_star);
      grown := grown[i := grown[i] + G * p.timeStep];
    }
  }

  /** The breakage loop: an iterator walks the vector; a broken particle is
      erased (the iterator then already points at the next one) and its
      daughters are buffered, to be appended once the scan is over. One draw
      per particle present when the pass starts. */
  method BreakagePass(particles: seq<real>, k: real, dt: real, draws: Stream, pos: nat)
    returns (result: seq<real>, next: nat)
    ensures result == Broken(particles, k, dt, draws, pos)
    ensures next == pos + |particles|
  {
    var ps := particles;
    var newParticles: seq<real> := [];
    var it: nat := 0;
    next := pos;
    ghost var n: nat := 0;
    ghost var fates := Fates(particles, |particles|, k, dt, draws, pos);
    while it < |ps|
      invariant n <= |particles| && it <= |ps| && next == pos + n
      invariant ps[..it] == Survivors(particles, fates, n)
      invariant ps[it..] == particles[n..]
      invariant newParticles == Daughters(particles, fates, n)
      decreases |ps| - it
    {
      SurvivorStep(ps, it, particles, fates, n);
      var size := ps[it];
      var breakageProb := BreakageThreshold(size, k, dt);
      assert fates[n] == (Unit(draws(next)) < breakageProb);
      if Unit(draws(next)) < breakageProb {
        var daughters := GenerateDaughters(size);
        newParticles := newParticles + daughters;
        ps := ps[..it] + ps[it + 1..];
      } else {
        it := it + 1;
        assert Daughters(particles, fates, n + 1) == newParticles;
      }
      next := next + 1;
      n := n + 1;
    }
    assert ps == ps[..it];
    result := ps + newParticles;
  }

  /** One pass of the inner agglomeration loop's body: the pair (i, j)
      takes one draw; on a merge sizes[i] absorbs sizes[j], j is erased and
      --j makes the loop examine again the element that slid into slot j
      (j is unsigned in the source; here it is a nat, so the decrement is
      proved never to go below zero); then ++j. */
  method ExaminePair(particles: seq<real>, i: nat, j: nat, a: real, dt: real, draws: Stream, cur: nat, ghost merges: nat)
    returns (merged: seq<real>, jNext: nat, next: nat, ghost mergesOut: nat)
    requires i < j < |particles|
    ensures i < jNext <= |merged|
    ensures |merged| - jNext < |particles| - j && next == cur + 1
    ensures Sweep(merged, i, jNext, a, dt, draws, next, mergesOut) == Sweep(particles, i, j, a, dt, draws, cur, merges)
  {
    merged, jNext, mergesOut := particles, j, merges;
    var kernel := MergeThreshold(particles[i], particles[j], a, dt);
    var merge := Unit(draws(cur)) < kernel;
    SweepUnfold(particles, i, j, a, dt, draws, cur, merges, merge);
    if merge {
      var newSize := particles[i] + particles[j];
      merged := merged[i := newSize];
      merged := merged[..j] + merged[j + 1..];
      EraseAfterUpdate(particles, i, j, newSize);
      jNext := jNext - 1;
      mergesOut := mergesOut + 1;
    }
    next := cur + 1;
    jNext := jNext + 1;
  }

  /** The inner agglomeration loop for one i: every later j is examined with
      one draw. */
  method AbsorbLater(particles: seq<real>, i: nat, a: real, dt: real, draws: Stream, pos: nat, ghost merges: nat)
    returns (merged: seq<real>, next: nat)
    requires i < |particles|
    ensures merged == Sweep(particles, i, i + 1, a, dt, draws, pos, merges).sizes
    ensures next == Sweep(particles, i, i + 1, a, dt, draws, pos, merges).next
  {
    merged, next := particles, pos;
    ghost var count := merges;
    ghost var sweep := Sweep(particles, i, i + 1, a, dt, draws, pos, merges);
    var j: nat := i + 1;
    while j < |merged|
      invariant i < j <= |merged|
      invariant Sweep(merged, i, j, a, dt, draws, next, count) == sweep
      decreases |merged| - j
    {
      merged, j, next, count := ExaminePair(merged, i, j, a, dt, draws, next, count);
    }
  }

  /** The outer agglomeration loop: each particle in turn absorbs some of the
      particles after it. The bound |particles| is re-read on every
      iteration, as the source's loop condition does. */
  method AgglomerationPass(particles: seq<real>, a: real, dt: real, draws: Stream, pos: nat)
    returns (merged: seq<real>, next: nat)
    ensures merged == Agglomerated(particles, a, dt, draws, pos).sizes
    ensures next == Agglomerated(particles, a, dt, draws, pos).next
  {
    merged, next := particles, pos;
    ghost var merges: nat := 0;
    var i: nat := 0;
    while i < |merged|
      invariant AggFrom(merged, i, a, dt, draws, next, merges) == Agglomerated(particles, a, dt, draws, pos)
      decreases |merged| - i
    {
      ghost var s := Sweep(merged, i, i + 1, a, dt, draws, next, merges);
      merged, next := AbsorbLater(merged, i, a, dt, draws, next, merges);
      merges := s.merges;
      i := i + 1;
    }
  }

  /** c0 -= nucleationRate * timeStep, then clamped from below at c_star:
      the result is max(c_star, c0 - nucleationRate * timeStep). */
  function NextSupersaturation(c0: real, p: Params): (c: real)
    ensures c >= p.c_star
    ensures c == p.c_star || c == c0 - p.nucleationRate * p.timeStep
    ensures c0 - p.nucleationRate * p.timeStep >= p.c_star ==> c == c0 - p.nucleationRate * p.timeStep
  {
    var lowered := c0 - p.nucleationRate * p.timeStep;
    if lowered < p.c_star then p.c_star else lowered
  }

  /** What main keeps between steps: the population, the supersaturation and
      the position in the random stream. */
  datatype State = State(particles: seq<real>, c0: real, next: nat)

  /** One step: growth, breakage, agglomeration, then the supersaturation
      update. */
  function Stepped(s: State, p: Params, draws: Stream): State
    requires p.Valid() && NoZero(s.particles)
  {
    var grown := Grown(s.particles, s.c0, p);
    var broken := Broken(grown, p.breakageConstant, p.timeStep, draws, s.next);
    var merged := Agglomerated(broken, p.agglomerationConstant, p.timeStep, draws, s.next + |grown|);
    State(merged.sizes, NextSupersaturation(s.c0, p), merged.next)
  }

  /** The body of main's step loop (console output left out). */
  method Step(particles: seq<real>, c0: real, p: Params, draws: Stream, pos: nat)
    returns (after: seq<real>, c1: real, next: nat)
    requires p.Valid() && NoZero(particles)
    ensures after == Stepped(State(particles, c0, pos), p, draws).particles
    ensures c1 == Stepped(State(particles, c0, pos), p, draws).c0
    ensures next == Stepped(State(particles, c0, pos), p, draws).next
    ensures c1 >= p.c_star
  {
    var grown := GrowthPass(particles, c0, p);
    var broken, afterBreakage := BreakagePass(grown, p.breakageConstant, p.timeStep, draws, pos);
    after, next := AgglomerationPass(broken, p.agglomerationConstant, p.timeStep, draws, afterBreakage);
    c1 := NextSupersaturation(c0, p);
  }

  /** Breakage and agglomeration conserve mass: a step changes the total
      size only through growth, and keeps positive sizes positive. */
  lemma StepMass(s: State, p: Params, draws: Stream)
    requires p.Valid() && NoZero(s.particles)
    ensures Sum(Stepped(s, p, draws).particles) == Sum(Grown(s.particles, s.c0, p))
    ensures AllPositive(Grown(s.particles, s.c0, p)) ==> AllPositive(Stepped(s, p, draws).particles)
  {
    var grown := Grown(s.particles, s.c0, p);
    var broken := Broken(grown, p.breakageConstant, p.timeStep, draws, s.next);
    BreakageConservesMass(grown, p.breakageConstant, p.timeStep, draws, s.next);
    AgglomerationConservesMass(broken, p.agglomerationConstant, p.timeStep, draws, s.next + |grown|);
    if AllPositive(grown) {
      BreakagePreservesPositivity(grown, p.breakageConstant, p.timeStep, draws, s.next);
      AgglomerationPreservesPositivity(broken, p.agglomerationConstant, p.timeStep, draws, s.next + |grown|);
    }
  }

  /** On an empty population a step takes no draw and only the
      supersaturation feedback acts. */
  lemma EmptyStep(c0: real, pos: nat, p: Params, draws: Stream)
    requires p.Valid()
    ensures Stepped(State([], c0, pos), p, draws) == State([], NextSupersaturation(c0, p), pos)
  {
    assert Broken([], p.breakageConstant, p.timeStep, draws, pos) == [];
    AgglomerationOfSingleton([], p.agglomerationConstant, p.timeStep, draws, pos);
  }

  /** How a run of main's step loop ends: after all steps, or at the first
      step whose population holds a zero size, where growthRate would divide
      by zero. */
  datatype Outcome = Finished(state: State) | Singular(state: State, stepsLeft: nat)

  function Simulated(s: State, p: Params, steps: nat, draws: Stream): Outcome
    requires p.Valid()
    decreases steps
  {
    if steps == 0 then Finished(s)
    else if !NoZero(s.particles) then Singular(s, steps)
    else Simulated(Stepped(s, p, draws), p, steps - 1, draws)
  }

  /** main's step loop. */
  method Run(particles: seq<real>, c0: real, p: Params, steps: nat, draws: Stream, pos: nat)
    returns (out: Outcome)
    requires p.Valid()
    ensures out == Simulated(State(particles, c0, pos), p, steps, draws)
  {
    var s := State(particles, c0, pos);
    var step := 0;
    while step < steps
      invariant step <= steps
      invariant Simulated(s, p, steps - step, draws) == Simulated(State(particles, c0, pos), p, steps, draws)
    {
      if !NoZero(s.particles) {
        return Singular(s, steps - step);
      }
      var after, c1, next := Step(s.particles, s.c0, p, draws, s.next);
      s := State(after, c1, next);
      step := step + 1;
    }
    return Finished(s);
  }

  /** main without its console output: the initial population of
      INITIAL_PARTICLES sizes, then STEPS steps from c0 = INITIAL_C0, the
      steps' draws following the initial sizes' draws. */
  method Simulation(draws: Stream) returns (initial: seq<real>, out: Outcome)
    ensures |initial| == INITIAL_PARTICLES
    ensures forall i :: 0 <= i < |initial| ==> initial[i] == SampleSize(MIN_SIZE, MAX_SIZE, draws(i))
    ensures out == Simulated(State(initial, INITIAL_C0, INITIAL_PARTICLES), MainParams, STEPS, draws)
    ensures out.state.c0 >= MainParams.c_star
  {
    var next, lengthError;
    initial, next, lengthError := InitializeParticles(INITIAL_PARTICLES, MIN_SIZE, MAX_SIZE, draws, 0);
    out := Run(initial, INITIAL_C0, MainParams, STEPS, draws, next);
    SupersaturationStaysAboveCritical(State(initial, INITIAL_C0, next), MainParams, STEPS, draws);
  }

  /** Once a run has started at or above c_star, its supersaturation never
      drops below c_star. */
  lemma {:induction false} SupersaturationStaysAboveCritical(s: State, p: Params, steps: nat, draws: Stream)
    requires p.Valid() && s.c0 >= p.c_star
    ensures Simulated(s, p, steps, draws).state.c0 >= p.c_star
    decreases steps
  {
    if steps > 0 && NoZero(s.particles) {
      SupersaturationStaysAboveCritical(Stepped(s, p, draws), p, steps - 1, draws);
    }
  }

  /** With main's constants the first update already clamps c0 to c_star
      (1.0 - 1000 * 0.01 < 0.8), c_star is then kept, and at c_star the
      growth pass changes nothing: from the second step on, particles only
      break and agglomerate. */
  lemma MainGrowthStopsAfterFirstStep(s: State, draws: Stream)
    requires NoZero(s.particles) && s.c0 == MainParams.c_star
    ensures NextSupersaturation(INITIAL_C0, MainParams) == MainParams.c_star
    ensures Stepped(s, MainParams, draws).c0 == MainParams.c_star
    ensures Grown(s.particles, s.c0, MainParams) == s.particles
  {
    GrowthIdleAtCritical(s.particles, MainParams);
  }

  /** main runs totalTime / timeStep = 100 steps. */
  lemma MainStepCount()
    ensures STEPS == 100
  {
  }
}
