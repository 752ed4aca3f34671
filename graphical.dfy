/** graphical.cpp: the same engine with an SFML window. main keeps two
    parallel vectors, the sizes and the circle shapes that draw them, and
    changes both in place and in lockstep. Its supersaturation c0 is a
    constant: no frame changes it. */
module Graphical {
  import opened Rng
  import opened Kinetics
  import opened Mass
  import opened Engine

  const WINDOW_WIDTH: int := 800
  const WINDOW_HEIGHT: int := 600
  /** Pixels of radius per unit of size. */
  const PARTICLE_SCALE: real := 100.0

  // The constants main is written with.
  const INITIAL_PARTICLES: int := 100
  const MIN_SIZE: real := 0.000001
  const MAX_SIZE: real := 0.0001
  const C0: real := 1.0
  const SIMULATION_STEPS: nat := 5000
  const MainParams: Params := Params(
    D := 0.0000000001, rho_c := 1000.0, delta := 0.000001, c_star := 0.8,
    breakageConstant := 10000.0, agglomerationConstant := 0.0001,
    timeStep := 0.01, nucleationRate := 1000.0)

  /** What the program sets on an sf::CircleShape: its radius and its
      position, always a whole number of pixels. The fill colour is always
      white. */
  datatype Circle = Circle(radius: real, x: int, y: int)

  /** The two vectors in lockstep: one circle per size, drawn at
      size * PARTICLE_SCALE, at a position inside the window. */
  predicate Drawn(sizes: seq<real>, particles: seq<Circle>)
  {
    && |particles| == |sizes|
    && (forall k :: 0 <= k < |sizes| ==> particles[k].radius == sizes[k] * PARTICLE_SCALE)
    && (forall k :: 0 <= k < |particles| ==> InWindow(particles[k]))
  }

  /** The circle c is drawn where the circle o is. */
  predicate AtPosition(c: Circle, o: Circle)
  {
    c.x == o.x && c.y == o.y
  }

  predicate InWindow(c: Circle)
  {
    0 <= c.x < WINDOW_WIDTH && 0 <= c.y < WINDOW_HEIGHT
  }

  lemma DrawnConcat(s1: seq<real>, c1: seq<Circle>, s2: seq<real>, c2: seq<Circle>)
    requires Drawn(s1, c1) && Drawn(s2, c2)
    ensures Drawn(s1 + s2, c1 + c2)
  {
    forall k | |s1| <= k < |s1| + |s2|
      ensures (c1 + c2)[k].radius == (s1 + s2)[k] * PARTICLE_SCALE && InWindow((c1 + c2)[k])
    {
      assert (c1 + c2)[k] == c2[k - |s1|] && (s1 + s2)[k] == s2[k - |s1|];
    }
  }

  // ------------------------------------------------------- initialization

  /** The circle created for a new particle: drawn at its size and placed at
      (rand() % WINDOW_WIDTH, rand() % WINDOW_HEIGHT), inside the window. */
  function NewCircle(size: real, dx: Draw, dy: Draw): (c: Circle)
    ensures c.radius == size * PARTICLE_SCALE
    ensures InWindow(c)
  {
    Circle(size * PARTICLE_SCALE, dx % WINDOW_WIDTH, dy % WINDOW_HEIGHT)
  }

  /** How many particles for (int i = 0; i < numParticles; ++i) creates. */
  function Created(numParticles: int): nat
  {
    if numParticles < 0 then 0 else numParticles
  }

  /** Appends numParticles new particles to both vectors, which are passed
      by reference. Each particle takes three draws, in this order: its size,
      then the x and the y of its position. */
  method InitializeParticles(particles: seq<Circle>, sizes: seq<real>, numParticles: int, minSize: real, maxSize: real,
                             draws: Stream, pos: nat)
    returns (particlesOut: seq<Circle>, sizesOut: seq<real>, next: nat)
    ensures |sizesOut| == |sizes| + Created(numParticles)
    ensures |particlesOut| == |particles| + Created(numParticles)
    ensures sizesOut[..|sizes|] == sizes && particlesOut[..|particles|] == particles
    ensures next == pos + 3 * Created(numParticles)
    ensures forall m :: 0 <= m < Created(numParticles) ==>
      && sizesOut[|sizes| + m] == SampleSize(minSize, maxSize, draws(pos + 3 * m))
      && particlesOut[|particles| + m] == NewCircle(sizesOut[|sizes| + m], draws(pos + 3 * m + 1), draws(pos + 3 * m + 2))
    ensures minSize <= maxSize ==> forall k :: |sizes| <= k < |sizesOut| ==> minSize <= sizesOut[k] <= maxSize
    ensures Drawn(sizes, particles) ==> Drawn(sizesOut, particlesOut)
  {
    particlesOut, sizesOut, next := particles, sizes, pos;
    var i := 0;
    while i < numParticles
      invariant 0 <= i <= Created(numParticles)
      invariant |sizesOut| == |sizes| + i && |particlesOut| == |particles| + i
      invariant sizesOut[..|sizes|] == sizes && particlesOut[..|particles|] == particles
      invariant next == pos + 3 * i
      invariant forall m :: 0 <= m < i ==>
        && sizesOut[|sizes| + m] == SampleSize(minSize, maxSize, draws(pos + 3 * m))
        && particlesOut[|particles| + m] == NewCircle(sizesOut[|sizes| + m], draws(pos + 3 * m + 1), draws(pos + 3 * m + 2))
      invariant minSize <= maxSize ==> forall k :: |sizes| <= k < |sizesOut| ==> minSize <= sizesOut[k] <= maxSize
      invariant Drawn(sizes, particles) ==> Drawn(sizesOut, particlesOut)
    {
      var size := SampleSize(minSize, maxSize, draws(next));
      sizesOut := sizesOut + [size];
      var circle := NewCircle(size, draws(next + 1), draws(next + 2));
      particlesOut := particlesOut + [circle];
      next := next + 3;
      i := i + 1;
    }
  }

  // ---------------------------------------------------------------- growth

  /** The circles redrawn at new sizes, each keeping its position. */
  function Redrawn(sizes: seq<real>, particles: seq<Circle>, n: nat): (r: seq<Circle>)
    requires n <= |sizes| && n <= |particles|
    ensures |r| == n
    ensures forall k :: 0 <= k < n ==> r[k] == particles[k].(radius := sizes[k] * PARTICLE_SCALE)
  {
    if n == 0 then []
    else Redrawn(sizes, particles, n - 1) + [particles[n - 1].(radius := sizes[n - 1] * PARTICLE_SCALE)]
  }

  /** The growth loop: each size takes its Euler step and its circle is
      redrawn at the new size; nothing else changes. */
  method GrowthPass(particles: seq<Circle>, sizes: seq<real>, c0: real, p: Params)
    returns (particlesOut: seq<Circle>, sizesOut: seq<real>)
    requires p.Valid() && NoZero(sizes) && |particles| == |sizes|
    ensures sizesOut == Grown(sizes, c0, p)
    ensures particlesOut == Redrawn(sizesOut, particles, |particles|)
    ensures Drawn(sizes, particles) ==> Drawn(sizesOut, particlesOut)
  {
    particlesOut, sizesOut := particles, sizes;
    for i := 0 to |sizesOut|
      invariant |sizesOut| == |sizes| && |particlesOut| == |particles|
      invariant forall m :: 0 <= m < i ==> sizesOut[m] == Euler(sizes[m], c0, p)
      invariant forall m :: 0 <= m < i ==> particlesOut[m] == particles[m].(radius := sizesOut[m] * PARTICLE_SCALE)
      invariant forall m :: i <= m < |sizesOut| ==> sizesOut[m] == sizes[m] && particlesOut[m] == particles[m]
    {
      var G := GrowthRate(sizesOut[i], c0, p.D, p.rho_c, p.delta, p.c_star);
      sizesOut := sizesOut[i := sizesOut[i] + G * p.timeStep];
      particlesOut := particlesOut[i := particlesOut[i].(radius := sizesOut[i] * PARTICLE_SCALE)];
    }
  }

  // -------------------------------------------------------------- breakage

  /** The circles created for the daughters of a broken particle: one per
      daughter, drawn at the daughter's size, at the parent's position. */
  function Spawned(parentSize: real, parent: Circle): (r: seq<Circle>)
    ensures |r| == 2
    ensures forall m :: 0 <= m < 2 ==> r[m].radius == GenerateDaughters(parentSize)[m] * PARTICLE_SCALE
    ensures forall m :: 0 <= m < 2 ==> r[m].x == parent.x && r[m].y == parent.y
  {
    var d := GenerateDaughters(parentSize);
    [Circle(d[0] * PARTICLE_SCALE, parent.x, parent.y), Circle(d[1] * PARTICLE_SCALE, parent.x, parent.y)]
  }

  /** The circles of the daughters of the first n particles that break, in
      the order their parents were scanned. */
  function DaughterCircles(sizes: seq<real>, particles: seq<Circle>, fates: seq<bool>, n: nat): (r: seq<Circle>)
    requires n <= |sizes| && n <= |particles| && n <= |fates|
    ensures |r| == |Daughters(sizes, fates, n)|
  {
    if n == 0 then []
    else
      var tail := if fates[n - 1] then Spawned(sizes[n - 1], particles[n - 1]) else [];
      DaughterCircles(sizes, particles, fates, n - 1) + tail
  }

  /** Filtering two vectors by the same fates keeps them the same length. */
  lemma {:induction false} SurvivorsInStep<A, B>(xs: seq<A>, ys: seq<B>, fates: seq<bool>, n: nat)
    requires n <= |xs| && n <= |ys| && n <= |fates|
    ensures |Survivors(xs, fates, n)| == |Survivors(ys, fates, n)|
  {
    if n > 0 {
      SurvivorsInStep(xs, ys, fates, n - 1);
    }
  }

  /** The circle vector after the breakage loop: the circles of the
      survivors, then the daughters' circles. The fates are those of the
      sizes, so both vectors lose and gain the same entries. */
  function BrokenCircles(sizes: seq<real>, particles: seq<Circle>, k: real, dt: real, draws: Stream, pos: nat): (r: seq<Circle>)
    requires |particles| == |sizes|
    ensures |r| == |Broken(sizes, k, dt, draws, pos)|
  {
    var fates := Fates(sizes, |sizes|, k, dt, draws, pos);
    SurvivorsInStep(sizes, particles, fates, |sizes|);
    Survivors(particles, fates, |sizes|) + DaughterCircles(sizes, particles, fates, |sizes|)
  }

  /** The breakage loop on both vectors: a broken particle's size and circle
      are erased together, its daughters' sizes and circles are buffered and
      appended once the scan is over. One draw per particle present when the
      pass starts. */
  method BreakagePass(particles: seq<Circle>, sizes: seq<real>, k: real, dt: real, draws: Stream, pos: nat)
    returns (particlesOut: seq<Circle>, sizesOut: seq<real>, next: nat)
    requires |particles| == |sizes|
    ensures sizesOut == Broken(sizes, k, dt, draws, pos)
    ensures particlesOut == BrokenCircles(sizes, particles, k, dt, draws, pos)
    ensures next == pos + |sizes|
  {
    var ss, cs := sizes, particles;
    var newParticles: seq<Circle> := [];
    var newSizes: seq<real> := [];
    var i: nat := 0;
    next := pos;
    ghost var n: nat := 0;
    ghost var fates := Fates(sizes, |sizes|, k, dt, draws, pos);
    while i < |ss|
      invariant n <= |sizes| && i <= |ss| && |cs| == |ss| && next == pos + n
      invariant ss[..i] == Survivors(sizes, fates, n)
      invariant cs[..i] == Survivors(particles, fates, n)
      invariant ss[i..] == sizes[n..]
      invariant cs[i..] == particles[n..]
      invariant newSizes == Daughters(sizes, fates, n)
      invariant newParticles == DaughterCircles(sizes, particles, fates, n)
      decreases |ss| - i
    {
      SurvivorStep(ss, i, sizes, fates, n);
      SurvivorStep(cs, i, particles, fates, n);
      var breakageProb := BreakageThreshold(ss[i], k, dt);
      assert fates[n] == (Unit(draws(next)) < breakageProb);
      if Unit(draws(next)) < breakageProb {
        var daughters := GenerateDaughters(ss[i]);
        newParticles := newParticles + Spawned(ss[i], cs[i]);
        newSizes := newSizes + daughters;
        ss := ss[..i] + ss[i + 1..];
        cs := cs[..i] + cs[i + 1..];
      } else {
        i := i + 1;
        assert Daughters(sizes, fates, n + 1) == newSizes;
        assert DaughterCircles(sizes, particles, fates, n + 1) == newParticles;
      }
      next := next + 1;
      n := n + 1;
    }
    assert ss == ss[..i] && cs == cs[..i];
    particlesOut := cs + newParticles;
    sizesOut := ss + newSizes;
  }

  lemma {:induction false} SurvivorsDrawn(sizes: seq<real>, particles: seq<Circle>, fates: seq<bool>, n: nat)
    requires Drawn(sizes, particles) && n <= |sizes| && n <= |fates|
    ensures Drawn(Survivors(sizes, fates, n), Survivors(particles, fates, n))
  {
    if n > 0 {
      SurvivorsDrawn(sizes, particles, fates, n - 1);
      var ts := if fates[n - 1] then [] else [sizes[n - 1]];
      var tc := if fates[n - 1] then [] else [particles[n - 1]];
      assert Survivors(sizes, fates, n) == Survivors(sizes, fates, n - 1) + ts;
      assert Survivors(particles, fates, n) == Survivors(particles, fates, n - 1) + tc;
      assert Drawn(ts, tc);
      DrawnConcat(Survivors(sizes, fates, n - 1), Survivors(particles, fates, n - 1), ts, tc);
    }
  }

  lemma {:induction false} DaughtersDrawn(sizes: seq<real>, particles: seq<Circle>, fates: seq<bool>, n: nat)
    requires Drawn(sizes, particles) && n <= |sizes| && n <= |fates|
    ensures Drawn(Daughters(sizes, fates, n), DaughterCircles(sizes, particles, fates, n))
  {
    if n > 0 {
      DaughtersDrawn(sizes, particles, fates, n - 1);
      var ts := if fates[n - 1] then GenerateDaughters(sizes[n - 1]) else [];
      var tc := if fates[n - 1] then Spawned(sizes[n - 1], particles[n - 1]) else [];
      assert Daughters(sizes, fates, n) == Daughters(sizes, fates, n - 1) + ts;
      assert DaughterCircles(sizes, particles, fates, n) == DaughterCircles(sizes, particles, fates, n - 1) + tc;
      assert InWindow(particles[n - 1]);
      assert Drawn(ts, tc);
      DrawnConcat(Daughters(sizes, fates, n - 1), DaughterCircles(sizes, particles, fates, n - 1), ts, tc);
    }
  }

  /** Breakage keeps the vectors in lockstep: every remaining size and every
      daughter has its own circle, drawn at its size, inside the window. */
  lemma BreakageKeepsDrawn(sizes: seq<real>, particles: seq<Circle>, k: real, dt: real, draws: Stream, pos: nat)
    requires Drawn(sizes, particles)
    ensures Drawn(Broken(sizes, k, dt, draws, pos), BrokenCircles(sizes, particles, k, dt, draws, pos))
  {
    var fates := Fates(sizes, |sizes|, k, dt, draws, pos);
    SurvivorsDrawn(sizes, particles, fates, |sizes|);
    DaughtersDrawn(sizes, particles, fates, |sizes|);
    DrawnConcat(Survivors(sizes, fates, |sizes|), Survivors(particles, fates, |sizes|),
                Daughters(sizes, fates, |sizes|), DaughterCircles(sizes, particles, fates, |sizes|));
  }

  /** The daughters' circles come in pairs, one pair per broken particle in
      scan order, both at that parent's position. */
  lemma {:induction false} DaughtersAtParents(sizes: seq<real>, particles: seq<Circle>, fates: seq<bool>, n: nat)
    requires n <= |sizes| && n <= |particles| && n <= |fates|
    ensures |DaughterCircles(sizes, particles, fates, n)| == 2 * |Selected(fates, n, true)|
    ensures var dc, idx := DaughterCircles(sizes, particles, fates, n), Selected(fates, n, true);
      forall m :: 0 <= m < |idx| ==> AtPosition(dc[2 * m], particles[idx[m]]) && AtPosition(dc[2 * m + 1], particles[idx[m]])
  {
    if n > 0 {
      DaughtersAtParents(sizes, particles, fates, n - 1);
      var dc', idx' := DaughterCircles(sizes, particles, fates, n - 1), Selected(fates, n - 1, true);
      var dc, idx := DaughterCircles(sizes, particles, fates, n), Selected(fates, n, true);
      if fates[n - 1] {
        var g := Spawned(sizes[n - 1], particles[n - 1]);
        assert dc == dc' + g;
        assert idx == idx' + [n - 1];
        forall m | 0 <= m < |idx|
          ensures AtPosition(dc[2 * m], particles[idx[m]]) && AtPosition(dc[2 * m + 1], particles[idx[m]])
        {
          if m < |idx'| {
            assert dc[2 * m] == dc'[2 * m] && dc[2 * m + 1] == dc'[2 * m + 1];
            assert idx[m] == idx'[m];
          } else {
            assert dc[2 * m] == g[0] && dc[2 * m + 1] == g[1];
          }
        }
      } else {
        assert dc == dc' && idx == idx';
      }
    }
  }

  /** Where the circles go in a breakage pass: the survivors keep their own
      circles, unchanged and in order, and the two daughters of each broken
      particle are drawn where their parent was. */
  lemma BreakageMovesNoCircle(sizes: seq<real>, particles: seq<Circle>, k: real, dt: real, draws: Stream, pos: nat)
    requires |particles| == |sizes|
    ensures var fates := Fates(sizes, |sizes|, k, dt, draws, pos);
      var kept, broken := Selected(fates, |sizes|, false), Selected(fates, |sizes|, true);
      var r := BrokenCircles(sizes, particles, k, dt, draws, pos);
      && |r| == |kept| + 2 * |broken|
      && (forall m :: 0 <= m < |kept| ==> r[m] == particles[kept[m]])
      && (forall m :: 0 <= m < |broken| ==>
            AtPosition(r[|kept| + 2 * m], particles[broken[m]]) && AtPosition(r[|kept| + 2 * m + 1], particles[broken[m]]))
  {
    var fates := Fates(sizes, |sizes|, k, dt, draws, pos);
    var kept, broken := Selected(fates, |sizes|, false), Selected(fates, |sizes|, true);
    var s, dc := Survivors(particles, fates, |sizes|), DaughterCircles(sizes, particles, fates, |sizes|);
    SurvivorsAreKept(particles, fates, |sizes|);
    DaughtersAtParents(sizes, particles, fates, |sizes|);
    var r := BrokenCircles(sizes, particles, k, dt, draws, pos);
    assert r == s + dc;
    forall m | 0 <= m < |broken|
      ensures AtPosition(r[|kept| + 2 * m], particles[broken[m]]) && AtPosition(r[|kept| + 2 * m + 1], particles[broken[m]])
    {
      assert r[|kept| + 2 * m] == dc[2 * m] && r[|kept| + 2 * m + 1] == dc[2 * m + 1];
    }
  }

  // --------------------------------------------------------- agglomeration

  /** The circle vector alongside Sweep: on a merge, circle i is redrawn at
      the summed size (its position kept) and circle j is erased. */
  function SweepCircles(ps: seq<real>, cs: seq<Circle>, i: nat, j: nat, a: real, dt: real, draws: Stream, cur: nat, merges: nat): (r: seq<Circle>)
    requires i < j <= |ps| && |cs| == |ps|
    ensures |r| == |Sweep(ps, i, j, a, dt, draws, cur, merges).sizes|
    decreases |ps| - j
  {
    if j == |ps| then cs
    else if Merges(ps[i], ps[j], a, dt, draws(cur)) then
      SweepCircles(MergeInto(ps, i, j), Absorb(cs, i, j, cs[i].(radius := (ps[i] + ps[j]) * PARTICLE_SCALE)),
                   i, j, a, dt, draws, cur + 1, merges + 1)
    else
      SweepCircles(ps, cs, i, j + 1, a, dt, draws, cur + 1, merges)
  }

  lemma SweepCirclesUnfold(ps: seq<real>, cs: seq<Circle>, i: nat, j: nat, a: real, dt: real, draws: Stream, cur: nat, merges: nat, merge: bool)
    requires i < j < |ps| && |cs| == |ps|
    requires merge == Merges(ps[i], ps[j], a, dt, draws(cur))
    ensures merge ==>
      SweepCircles(ps, cs, i, j, a, dt, draws, cur, merges)
        == SweepCircles(MergeInto(ps, i, j), Absorb(cs, i, j, cs[i].(radius := (ps[i] + ps[j]) * PARTICLE_SCALE)),
                        i, j, a, dt, draws, cur + 1, merges + 1)
    ensures !merge ==>
      SweepCircles(ps, cs, i, j, a, dt, draws, cur, merges) == SweepCircles(ps, cs, i, j + 1, a, dt, draws, cur + 1, merges)
  {
  }

  /** The circle vector alongside AggFrom. */
  function AggFromCircles(ps: seq<real>, cs: seq<Circle>, i: nat, a: real, dt: real, draws: Stream, cur: nat, merges: nat): (r: seq<Circle>)
    requires |cs| == |ps|
    ensures |r| == |AggFrom(ps, i, a, dt, draws, cur, merges).sizes|
    decreases |ps| - i
  {
    if i >= |ps| then cs
    else
      var s := Sweep(ps, i, i + 1, a, dt, draws, cur, merges);
      AggFromCircles(s.sizes, SweepCircles(ps, cs, i, i + 1, a, dt, draws, cur, merges), i + 1, a, dt, draws, s.next, s.merges)
  }

  /** The circle vector after the agglomeration pass. */
  function AgglomeratedCircles(ps: seq<real>, cs: seq<Circle>, a: real, dt: real, draws: Stream, pos: nat): (r: seq<Circle>)
    requires |cs| == |ps|
    ensures |r| == |Agglomerated(ps, a, dt, draws, pos).sizes|
  {
    AggFromCircles(ps, cs, 0, a, dt, draws, pos, 0)
  }

  /** A merge event on both vectors keeps them in lockstep. */
  lemma MergeKeepsDrawn(ps: seq<real>, cs: seq<Circle>, i: nat, j: nat)
    requires i < j < |ps| && Drawn(ps, cs)
    ensures Drawn(MergeInto(ps, i, j), Absorb(cs, i, j, cs[i].(radius := (ps[i] + ps[j]) * PARTICLE_SCALE)))
  {
    var v := cs[i].(radius := (ps[i] + ps[j]) * PARTICLE_SCALE);
    var r, q := MergeInto(ps, i, j), Absorb(cs, i, j, v);
    forall m | 0 <= m < |r|
      ensures q[m].radius == r[m] * PARTICLE_SCALE && InWindow(q[m])
    {
      assert q[m] == AbsorbedAt(cs, i, j, v, m) && r[m] == AbsorbedAt(ps, i, j, ps[i] + ps[j], m);
    }
  }

  lemma {:induction false} SweepKeepsDrawn(ps: seq<real>, cs: seq<Circle>, i: nat, j: nat, a: real, dt: real, draws: Stream, cur: nat, merges: nat)
    requires i < j <= |ps| && Drawn(ps, cs)
    ensures Drawn(Sweep(ps, i, j, a, dt, draws, cur, merges).sizes, SweepCircles(ps, cs, i, j, a, dt, draws, cur, merges))
    decreases |ps| - j
  {
    if j < |ps| {
      var merge := Merges(ps[i], ps[j], a, dt, draws(cur));
      SweepUnfold(ps, i, j, a, dt, draws, cur, merges, merge);
      SweepCirclesUnfold(ps, cs, i, j, a, dt, draws, cur, merges, merge);
      if merge {
        MergeKeepsDrawn(ps, cs, i, j);
        SweepKeepsDrawn(MergeInto(ps, i, j), Absorb(cs, i, j, cs[i].(radius := (ps[i] + ps[j]) * PARTICLE_SCALE)),
                        i, j, a, dt, draws, cur + 1, merges + 1);
      } else {
        SweepKeepsDrawn(ps, cs, i, j + 1, a, dt, draws, cur + 1, merges);
      }
    }
  }

  lemma {:induction false} AggFromKeepsDrawn(ps: seq<real>, cs: seq<Circle>, i: nat, a: real, dt: real, draws: Stream, cur: nat, merges: nat)
    requires Drawn(ps, cs)
    ensures Drawn(AggFrom(ps, i, a, dt, draws, cur, merges).sizes, AggFromCircles(ps, cs, i, a, dt, draws, cur, merges))
    decreases |ps| - i
  {
    if i < |ps| {
      var s := Sweep(ps, i, i + 1, a, dt, draws, cur, merges);
      var c := SweepCircles(ps, cs, i, i + 1, a, dt, draws, cur, merges);
      SweepKeepsDrawn(ps, cs, i, i + 1, a, dt, draws, cur, merges);
      AggFromKeepsDrawn(s.sizes, c, i + 1, a, dt, draws, s.next, s.merges);
    }
  }

  /** Agglomeration keeps the vectors in lockstep: every merged size is
      redrawn, every erased size takes its circle with it. */
  lemma AgglomerationKeepsDrawn(ps: seq<real>, cs: seq<Circle>, a: real, dt: real, draws: Stream, pos: nat)
    requires Drawn(ps, cs)
    ensures Drawn(Agglomerated(ps, a, dt, draws, pos).sizes, AgglomeratedCircles(ps, cs, a, dt, draws, pos))
  {
    AggFromKeepsDrawn(ps, cs, 0, a, dt, draws, pos, 0);
  }

  /** One merge event on both vectors: sizes[i] absorbs sizes[j], circle i
      is redrawn at the new size where it stands, and entry j is erased from
      both vectors. */
  method MergePair(particles: seq<Circle>, sizes: seq<real>, i: nat, j: nat)
    returns (particlesOut: seq<Circle>, sizesOut: seq<real>)
    requires i < j < |sizes| && |particles| == |sizes|
    ensures sizesOut == MergeInto(sizes, i, j)
    ensures particlesOut == Absorb(particles, i, j, particles[i].(radius := (sizes[i] + sizes[j]) * PARTICLE_SCALE))
  {
    sizesOut := sizes[i := sizes[i] + sizes[j]];
    particlesOut := particles[i := particles[i].(radius := sizesOut[i] * PARTICLE_SCALE)];
    sizesOut := sizesOut[..j] + sizesOut[j + 1..];
    particlesOut := particlesOut[..j] + particlesOut[j + 1..];
    EraseAfterUpdate(sizes, i, j, sizes[i] + sizes[j]);
    EraseAfterUpdate(particles, i, j, particles[i].(radius := (sizes[i] + sizes[j]) * PARTICLE_SCALE));
  }

  /** One pass of the inner agglomeration loop's body on both vectors: the
      pair (i, j) takes one draw; on a merge, sizes[i] absorbs sizes[j],
      circle i is redrawn at the new size and entry j is erased from both,
      and --j (j unsigned in the source, a nat here) never goes below zero;
      then ++j. */
  method ExaminePair(particles: seq<Circle>, sizes: seq<real>, i: nat, j: nat, a: real, dt: real, draws: Stream, cur: nat, ghost merges: nat)
    returns (particlesOut: seq<Circle>, sizesOut: seq<real>, jNext: nat, next: nat, ghost mergesOut: nat)
    requires i < j < |sizes| && |particles| == |sizes|
    ensures i < jNext <= |sizesOut| && |particlesOut| == |sizesOut|
    ensures |sizesOut| - jNext < |sizes| - j && next == cur + 1
    ensures Sweep(sizesOut, i, jNext, a, dt, draws, next, mergesOut) == Sweep(sizes, i, j, a, dt, draws, cur, merges)
    ensures SweepCircles(sizesOut, particlesOut, i, jNext, a, dt, draws, next, mergesOut)
      == SweepCircles(sizes, particles, i, j, a, dt, draws, cur, merges)
  {
    particlesOut, sizesOut, jNext, mergesOut := particles, sizes, j, merges;
    var kernel := MergeThreshold(sizes[i], sizes[j], a, dt);
    var merge := Unit(draws(cur)) < kernel;
    SweepUnfold(sizes, i, j, a, dt, draws, cur, merges, merge);
    SweepCirclesUnfold(sizes, particles, i, j, a, dt, draws, cur, merges, merge);
    if merge {
      particlesOut, sizesOut := MergePair(particles, sizes, i, j);
      jNext := jNext - 1;
      mergesOut := mergesOut + 1;
    }
    next := cur + 1;
    jNext := jNext + 1;
  }

  /** The inner agglomeration loop for one i on both vectors. */
  method AbsorbLater(particles: seq<Circle>, sizes: seq<real>, i: nat, a: real, dt: real, draws: Stream, pos: nat, ghost merges: nat)
    returns (particlesOut: seq<Circle>, sizesOut: seq<real>, next: nat)
    requires i < |sizes| && |particles| == |sizes|
    ensures sizesOut == Sweep(sizes, i, i + 1, a, dt, draws, pos, merges).sizes
    ensures next == Sweep(sizes, i, i + 1, a, dt, draws, pos, merges).next
    ensures particlesOut == SweepCircles(sizes, particles, i, i + 1, a, dt, draws, pos, merges)
  {
    particlesOut, sizesOut, next := particles, sizes, pos;
    ghost var count := merges;
    ghost var sweep := Sweep(sizes, i, i + 1, a, dt, draws, pos, merges);
    ghost var circles := SweepCircles(sizes, particles, i, i + 1, a, dt, draws, pos, merges);
    var j: nat := i + 1;
    while j < |sizesOut|
      invariant i < j <= |sizesOut| && |particlesOut| == |sizesOut|
      invariant Sweep(sizesOut, i, j, a, dt, draws, next, count) == sweep
      invariant SweepCircles(sizesOut, particlesOut, i, j, a, dt, draws, next, count) == circles
      decreases |sizesOut| - j
    {
      particlesOut, sizesOut, j, next, count := ExaminePair(particlesOut, sizesOut, i, j, a, dt, draws, next, count);
    }
  }

  /** The outer agglomeration loop on both vectors. */
  method AgglomerationPass(particles: seq<Circle>, sizes: seq<real>, a: real, dt: real, draws: Stream, pos: nat)
    returns (particlesOut: seq<Circle>, sizesOut: seq<real>, next: nat)
    requires |particles| == |sizes|
    ensures sizesOut == Agglomerated(sizes, a, dt, draws, pos).sizes
    ensures next == Agglomerated(sizes, a, dt, draws, pos).next
    ensures particlesOut == AgglomeratedCircles(sizes, particles, a, dt, draws, pos)
  {
    particlesOut, sizesOut, next := particles, sizes, pos;
    ghost var merges: nat := 0;
    var i: nat := 0;
    while i < |sizesOut|
      invariant |particlesOut| == |sizesOut|
      invariant AggFrom(sizesOut, i, a, dt, draws, next, merges) == Agglomerated(sizes, a, dt, draws, pos)
      invariant AggFromCircles(sizesOut, particlesOut, i, a, dt, draws, next, merges) == AgglomeratedCircles(sizes, particles, a, dt, draws, pos)
      decreases |sizesOut| - i
    {
      ghost var s := Sweep(sizesOut, i, i + 1, a, dt, draws, next, merges);
      particlesOut, sizesOut, next := AbsorbLater(particlesOut, sizesOut, i, a, dt, draws, next, merges);
      merges := s.merges;
      i := i + 1;
    }
  }

  // ----------------------------------------------------------------- frames

  /** What main keeps between frames: the two vectors and the position in
      the random stream. c0 is not part of it: main never changes it. */
  datatype Scene = Scene(particles: seq<Circle>, sizes: seq<real>, next: nat)

  /** One frame's update: growth at the fixed c0, breakage, agglomeration. */
  function Framed(s: Scene, c0: real, p: Params, draws: Stream): (r: Scene)
    requires p.Valid() && NoZero(s.sizes) && |s.particles| == |s.sizes|
    ensures |r.particles| == |r.sizes|
  {
    var grown := Grown(s.sizes, c0, p);
    var redrawn := Redrawn(grown, s.particles, |grown|);
    var broken := Broken(grown, p.breakageConstant, p.timeStep, draws, s.next);
    var brokenCircles := BrokenCircles(grown, redrawn, p.breakageConstant, p.timeStep, draws, s.next);
    var merged := Agglomerated(broken, p.agglomerationConstant, p.timeStep, draws, s.next + |grown|);
    Scene(AgglomeratedCircles(broken, brokenCircles, p.agglomerationConstant, p.timeStep, draws, s.next + |grown|),
          merged.sizes, merged.next)
  }

  /** The update part of one iteration of main's frame loop (event polling
      and rendering left out). */
  method Frame(particles: seq<Circle>, sizes: seq<real>, c0: real, p: Params, draws: Stream, pos: nat)
    returns (particlesOut: seq<Circle>, sizesOut: seq<real>, next: nat)
    requires p.Valid() && NoZero(sizes) && |particles| == |sizes|
    ensures particlesOut == Framed(Scene(particles, sizes, pos), c0, p, draws).particles
    ensures sizesOut == Framed(Scene(particles, sizes, pos), c0, p, draws).sizes
    ensures next == Framed(Scene(particles, sizes, pos), c0, p, draws).next
  {
    var grownCircles, grown := GrowthPass(particles, sizes, c0, p);
    var brokenCircles, broken, afterBreakage := BreakagePass(grownCircles, grown, p.breakageConstant, p.timeStep, draws, pos);
    particlesOut, sizesOut, next := AgglomerationPass(brokenCircles, broken, p.agglomerationConstant, p.timeStep, draws, afterBreakage);
  }

  /** A frame keeps the vectors in lockstep. */
  lemma FrameKeepsDrawn(s: Scene, c0: real, p: Params, draws: Stream)
    requires p.Valid() && NoZero(s.sizes) && Drawn(s.sizes, s.particles)
    ensures Drawn(Framed(s, c0, p, draws).sizes, Framed(s, c0, p, draws).particles)
  {
    var grown := Grown(s.sizes, c0, p);
    var redrawn := Redrawn(grown, s.particles, |grown|);
    assert Drawn(grown, redrawn);
    var broken := Broken(grown, p.breakageConstant, p.timeStep, draws, s.next);
    var brokenCircles := BrokenCircles(grown, redrawn, p.breakageConstant, p.timeStep, draws, s.next);
    BreakageKeepsDrawn(grown, redrawn, p.breakageConstant, p.timeStep, draws, s.next);
    AgglomerationKeepsDrawn(broken, brokenCircles, p.agglomerationConstant, p.timeStep, draws, s.next + |grown|);
    var r := Framed(s, c0, p, draws);
    assert r.sizes == Agglomerated(broken, p.agglomerationConstant, p.timeStep, draws, s.next + |grown|).sizes;
    assert r.particles == AgglomeratedCircles(broken, brokenCircles, p.agglomerationConstant, p.timeStep, draws, s.next + |grown|);
  }

  /** A frame changes the total size only through growth. */
  lemma FrameMass(s: Scene, c0: real, p: Params, draws: Stream)
    requires p.Valid() && NoZero(s.sizes) && |s.particles| == |s.sizes|
    ensures Sum(Framed(s, c0, p, draws).sizes) == Sum(Grown(s.sizes, c0, p))
  {
    var grown := Grown(s.sizes, c0, p);
    BreakageConservesMass(grown, p.breakageConstant, p.timeStep, draws, s.next);
    AgglomerationConservesMass(Broken(grown, p.breakageConstant, p.timeStep, draws, s.next),
                               p.agglomerationConstant, p.timeStep, draws, s.next + |grown|);
  }

  /** How main's frame loop ends: after all frames or after the frame in
      which the window was closed, or at the first frame whose sizes hold a
      zero, where growthRate would divide by zero. */
  datatype Outcome = Finished(scene: Scene) | Singular(scene: Scene, framesLeft: nat)

  /** main's frame loop from frame `frame` on. closedAt(f) says whether a
      Closed event is polled in frame f; that frame still updates the
      particles, and the loop stops after it. Every frame uses the same c0. */
  function Played(s: Scene, c0: real, p: Params, frames: nat, closedAt: nat -> bool, draws: Stream, frame: nat): Outcome
    requires p.Valid() && |s.particles| == |s.sizes|
    decreases frames - frame
  {
    if frame >= frames then Finished(s)
    else if !NoZero(s.sizes) then Singular(s, frames - frame)
    else if closedAt(frame) then Finished(Framed(s, c0, p, draws))
    else Played(Framed(s, c0, p, draws), c0, p, frames, closedAt, draws, frame + 1)
  }

  /** main's frame loop: for (step = 0; step < simulationSteps && window.isOpen(); ++step). */
  method Run(particles: seq<Circle>, sizes: seq<real>, c0: real, p: Params, frames: nat, closedAt: nat -> bool, draws: Stream, pos: nat)
    returns (out: Outcome)
    requires p.Valid() && |particles| == |sizes|
    ensures out == Played(Scene(particles, sizes, pos), c0, p, frames, closedAt, draws, 0)
  {
    ghost var outcome := Played(Scene(particles, sizes, pos), c0, p, frames, closedAt, draws, 0);
    var s := Scene(particles, sizes, pos);
    var open := true;
    var step: nat := 0;
    while step < frames && open
      invariant step <= frames && |s.particles| == |s.sizes|
      invariant open ==> Played(s, c0, p, frames, closedAt, draws, step) == outcome
      invariant !open ==> Finished(s) == outcome
      decreases frames - step
    {
      if closedAt(step) {
        open := false;
      }
      if !NoZero(s.sizes) {
        return Singular(s, frames - step);
      }
      var ps, ss, next := Frame(s.particles, s.sizes, c0, p, draws, s.next);
      s := Scene(ps, ss, next);
      step := step + 1;
    }
    return Finished(s);
  }

  /** Every frame of a run keeps the vectors in lockstep, so what is drawn
      is always exactly the population, inside the window. */
  lemma {:induction false} PlayedKeepsDrawn(s: Scene, c0: real, p: Params, frames: nat, closedAt: nat -> bool, draws: Stream, frame: nat)
    requires p.Valid() && Drawn(s.sizes, s.particles)
    ensures var o := Played(s, c0, p, frames, closedAt, draws, frame); Drawn(o.scene.sizes, o.scene.particles)
    decreases frames - frame
  {
    if frame < frames && NoZero(s.sizes) {
      FrameKeepsDrawn(s, c0, p, draws);
      if !closedAt(frame) {
        PlayedKeepsDrawn(Framed(s, c0, p, draws), c0, p, frames, closedAt, draws, frame + 1);
      }
    }
  }

  /** main's set-up: numParticles particles created into two empty
      vectors, taking the first 3 * numParticles draws. */
  method NewScene(numParticles: nat, minSize: real, maxSize: real, draws: Stream)
    returns (particles: seq<Circle>, sizes: seq<real>, next: nat)
    ensures |sizes| == numParticles && Drawn(sizes, particles)
    ensures next == 3 * numParticles
    ensures forall m :: 0 <= m < numParticles ==>
      && sizes[m] == SampleSize(minSize, maxSize, draws(3 * m))
      && particles[m] == NewCircle(sizes[m], draws(3 * m + 1), draws(3 * m + 2))
  {
    var noSizes: seq<real>, noCircles: seq<Circle> := [], [];
    particles, sizes, next := InitializeParticles(noCircles, noSizes, numParticles, minSize, maxSize, draws, 0);
    forall m | 0 <= m < numParticles
      ensures sizes[m] == SampleSize(minSize, maxSize, draws(3 * m))
      ensures particles[m] == NewCircle(sizes[m], draws(3 * m + 1), draws(3 * m + 2))
    {
      assert |noSizes| + m == m && |noCircles| + m == m && 0 + 3 * m == 3 * m;
    }
  }

  /** main's set-up and frame loop for any constants: at most frames
      frames at the constant c0 after the set-up, the frames' draws
      following the initial particles' draws. */
  method Simulate(numParticles: nat, minSize: real, maxSize: real, c0: real, p: Params, frames: nat,
                  closedAt: nat -> bool, draws: Stream)
    returns (particles: seq<Circle>, sizes: seq<real>, out: Outcome)
    requires p.Valid()
    ensures |sizes| == numParticles && Drawn(sizes, particles)
    ensures forall m :: 0 <= m < numParticles ==>
      && sizes[m] == SampleSize(minSize, maxSize, draws(3 * m))
      && particles[m] == NewCircle(sizes[m], draws(3 * m + 1), draws(3 * m + 2))
    ensures out == Played(Scene(particles, sizes, 3 * numParticles), c0, p, frames, closedAt, draws, 0)
    ensures Drawn(out.scene.sizes, out.scene.particles)
  {
    var next;
    particles, sizes, next := NewScene(numParticles, minSize, maxSize, draws);
    out := Run(particles, sizes, c0, p, frames, closedAt, draws, next);
    PlayedKeepsDrawn(Scene(particles, sizes, next), c0, p, frames, closedAt, draws, 0);
  }

  /** main without its window: Simulate at the constants main is written
      with. */
  method Simulation(closedAt: nat -> bool, draws: Stream) returns (particles: seq<Circle>, sizes: seq<real>, out: Outcome)
    ensures |sizes| == INITIAL_PARTICLES && Drawn(sizes, particles)
    ensures forall m :: 0 <= m < INITIAL_PARTICLES ==>
      && sizes[m] == SampleSize(MIN_SIZE, MAX_SIZE, draws(3 * m))
      && particles[m] == NewCircle(sizes[m], draws(3 * m + 1), draws(3 * m + 2))
    ensures out == Played(Scene(particles, sizes, 3 * INITIAL_PARTICLES), C0, MainParams, SIMULATION_STEPS, closedAt, draws, 0)
    ensures Drawn(out.scene.sizes, out.scene.particles)
  {
    particles, sizes, out := Simulate(INITIAL_PARTICLES, MIN_SIZE, MAX_SIZE, C0, MainParams, SIMULATION_STEPS, closedAt, draws);
  }

  /** Unlike the console program, c0 never reaches c_star here: at main's
      constants a positive size changes in every frame unless it is exactly
      2 delta. */
  lemma GrowthNeverStops(x: real)
    requires x > 0.0
    ensures Euler(x, C0, MainParams) == x <==> x == 2.0 * MainParams.delta
  {
    var p := MainParams;
    GrowthRateSign(x, C0, p.D, p.rho_c, p.delta, p.c_star);
    ProductSign(GrowthRate(x, C0, p.D, p.rho_c, p.delta, p.c_star), p.timeStep);
  }
}
