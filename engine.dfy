/** The population engine as pure functions: what one growth, breakage and
    agglomeration pass computes from a population and the random stream.
    Both programs' loops are proved to compute these. */
module Engine {
  import opened Rng
  import opened Kinetics
  import opened Mass

  // ---------------------------------------------------------------- growth

  /** One explicit Euler step of one particle: size + G(size, c) * timeStep. */
  function Euler(x: real, c: real, p: Params): real
    requires x != 0.0 && p.Valid()
  {
    x + GrowthRate(x, c, p.D, p.rho_c, p.delta, p.c_star) * p.timeStep
  }

  /** The growth pass: every particle takes its own Euler step, independently
      of the others; length and order are unchanged. */
  function Grown(ps: seq<real>, c: real, p: Params): (r: seq<real>)
    requires p.Valid() && NoZero(ps)
    ensures |r| == |ps|
    ensures forall k :: 0 <= k < |ps| ==> r[k] == Euler(ps[k], c, p)
  {
    GrownTo(ps, |ps|, c, p)
  }

  /** The Euler steps of the first n particles. */
  function GrownTo(ps: seq<real>, n: nat, c: real, p: Params): (r: seq<real>)
    requires p.Valid() && NoZero(ps) && n <= |ps|
    ensures |r| == n
    ensures forall k :: 0 <= k < n ==> r[k] == Euler(ps[k], c, p)
  {
    if n == 0 then [] else GrownTo(ps, n - 1, c, p) + [Euler(ps[n - 1], c, p)]
  }

  /** At the critical concentration the growth pass changes nothing. */
  lemma GrowthIdleAtCritical(ps: seq<real>, p: Params)
    requires p.Valid() && NoZero(ps)
    ensures Grown(ps, p.c_star, p) == ps
  {
    var r := Grown(ps, p.c_star, p);
    forall k | 0 <= k < |ps|
      ensures r[k] == ps[k]
    {
      assert GrowthRate(ps[k], p.c_star, p.D, p.rho_c, p.delta, p.c_star) == 0.0;
    }
  }

  // -------------------------------------------------------------- breakage

  /** A particle breaks when its draw falls below the breakage threshold. */
  predicate Breaks(size: real, k: real, dt: real, d: Draw)
  {
    Unit(d) < BreakageThreshold(size, k, dt)
  }

  /** The breakage threshold breakageRate * timeStep. */
  function BreakageThreshold(size: real, k: real, dt: real): real
  {
    BreakageRate(size, k) * dt
  }

  /** Because rand()/RAND_MAX can equal 1, a particle is certain to break only
      when its breakage probability exceeds 1, and certain to survive exactly
      when that probability is at most 0. */
  lemma BreakageCertainty(size: real, k: real, dt: real)
    ensures (forall d: Draw :: Breaks(size, k, dt, d)) <==> BreakageRate(size, k) * dt > 1.0
    ensures (forall d: Draw :: !Breaks(size, k, dt, d)) <==> BreakageRate(size, k) * dt <= 0.0
  {
    if forall d: Draw :: Breaks(size, k, dt, d) {
      assert Breaks(size, k, dt, RAND_MAX);
    }
    if forall d: Draw :: !Breaks(size, k, dt, d) {
      assert !Breaks(size, k, dt, 0);
    }
  }

  /** The fates of the first n particles in one breakage pass: particle i
      breaks exactly when the draw at pos + i triggers. Each particle is
      examined once, in scan order. */
  function Fates(ps: seq<real>, n: nat, k: real, dt: real, draws: Stream, pos: nat): (f: seq<bool>)
    requires n <= |ps|
    ensures |f| == n
    ensures forall i :: 0 <= i < n ==> f[i] == Breaks(ps[i], k, dt, draws(pos + i))
  {
    if n == 0 then [] else Fates(ps, n - 1, k, dt, draws, pos) + [Breaks(ps[n - 1], k, dt, draws(pos + n - 1))]
  }

  /** The entries among the first n whose particle does not break, in their
      original order. Generic, so that a vector kept in step with the sizes
      is filtered by the same fates. */
  function Survivors<T>(ps: seq<T>, fates: seq<bool>, n: nat): (r: seq<T>)
    requires n <= |ps| && n <= |fates|
    ensures |r| <= n
  {
    if n == 0 then []
    else Survivors(ps, fates, n - 1) + (if fates[n - 1] then [] else [ps[n - 1]])
  }

  /** One step of the breakage scan on a vector v that holds the survivors
      so far in front of slot i and the unexamined entries of orig from n on:
      erasing slot i (when entry n breaks) or stepping past it (when it does
      not) restores that shape for n + 1. */
  lemma SurvivorStep<T>(v: seq<T>, i: nat, orig: seq<T>, fates: seq<bool>, n: nat)
    requires n < |orig| && n < |fates| && i <= |v|
    requires v[..i] == Survivors(orig, fates, n) && v[i..] == orig[n..]
    ensures i < |v| && v[i] == orig[n]
    ensures fates[n] ==>
      (v[..i] + v[i + 1..])[..i] == Survivors(orig, fates, n + 1) && (v[..i] + v[i + 1..])[i..] == orig[n + 1..]
    ensures !fates[n] ==> v[..i + 1] == Survivors(orig, fates, n + 1) && v[i + 1..] == orig[n + 1..]
  {
    assert v[i..][0] == v[i] && v[i..][1..] == v[i + 1..];
    assert orig[n..][0] == orig[n] && orig[n..][1..] == orig[n + 1..];
    var w := v[..i] + v[i + 1..];
    assert w[..i] == v[..i] && w[i..] == v[i + 1..];
    assert v[..i + 1] == v[..i] + [v[i]];
  }

  /** The daughters of the particles among the first n that break, two per
      broken particle, in the order their parents were scanned. */
  function Daughters(ps: seq<real>, fates: seq<bool>, n: nat): seq<real>
    requires n <= |ps| && n <= |fates|
  {
    if n == 0 then []
    else Daughters(ps, fates, n - 1) + (if fates[n - 1] then GenerateDaughters(ps[n - 1]) else [])
  }

  /** The breakage pass over the whole population: survivors first, then all
      daughters. */
  function Broken(ps: seq<real>, k: real, dt: real, draws: Stream, pos: nat): seq<real>
  {
    var fates := Fates(ps, |ps|, k, dt, draws, pos);
    Survivors(ps, fates, |ps|) + Daughters(ps, fates, |ps|)
  }

  /** Indices, among the first n, of the particles whose fate is the given
      one, in scan order. */
  ghost function Selected(fates: seq<bool>, n: nat, broken: bool): (idx: seq<nat>)
    requires n <= |fates|
    ensures |idx| <= n
    ensures forall m :: 0 <= m < |idx| ==> idx[m] < n
  {
    if n == 0 then []
    else Selected(fates, n - 1, broken) + (if fates[n - 1] == broken then [n - 1] else [])
  }

  /** The selected indices are strictly increasing: scan order is kept. */
  lemma {:induction false} SelectedIncreasing(fates: seq<bool>, n: nat, broken: bool)
    requires n <= |fates|
    ensures forall m, m' :: 0 <= m < m' < |Selected(fates, n, broken)| ==>
      Selected(fates, n, broken)[m] < Selected(fates, n, broken)[m']
  {
    if n > 0 {
      SelectedIncreasing(fates, n - 1, broken);
      var idx', idx := Selected(fates, n - 1, broken), Selected(fates, n, broken);
      forall m, m' | 0 <= m < m' < |idx|
        ensures idx[m] < idx[m']
      {
        assert idx[m] == idx'[m];
        if m' >= |idx'| {
          assert idx[m'] == n - 1 && idx'[m] < n - 1;
        } else {
          assert idx[m'] == idx'[m'] && idx'[m] < idx'[m'];
        }
      }
    }
  }

  /** An index is selected exactly when its fate is the given one. */
  lemma {:induction false} SelectedExactly(fates: seq<bool>, n: nat, broken: bool)
    requires n <= |fates|
    ensures forall i :: 0 <= i < n ==> (i in Selected(fates, n, broken) <==> fates[i] == broken)
  {
    if n > 0 {
      SelectedExactly(fates, n - 1, broken);
      var idx', idx := Selected(fates, n - 1, broken), Selected(fates, n, broken);
      assert idx == idx' + (if fates[n - 1] == broken then [n - 1] else []);
      assert n - 1 !in idx';
    }
  }

  /** Every particle is either kept or broken, never both. */
  lemma {:induction false} SelectedPartition(fates: seq<bool>, n: nat)
    requires n <= |fates|
    ensures |Selected(fates, n, false)| + |Selected(fates, n, true)| == n
  {
    if n > 0 {
      SelectedPartition(fates, n - 1);
    }
  }

  /** The survivors are the kept particles, values unchanged. */
  lemma {:induction false} SurvivorsAreKept<T>(ps: seq<T>, fates: seq<bool>, n: nat)
    requires n <= |ps| && n <= |fates|
    ensures |Survivors(ps, fates, n)| == |Selected(fates, n, false)|
    ensures forall m :: 0 <= m < |Selected(fates, n, false)| ==>
      Survivors(ps, fates, n)[m] == ps[Selected(fates, n, false)[m]]
  {
    if n > 0 {
      SurvivorsAreKept(ps, fates, n - 1);
    }
  }

  /** The daughters come in pairs, one per broken particle in scan order:
      two equal halves that add up to their parent. */
  lemma {:induction false} DaughtersAreHalves(ps: seq<real>, fates: seq<bool>, n: nat)
    requires n <= |ps| && n <= |fates|
    ensures |Daughters(ps, fates, n)| == 2 * |Selected(fates, n, true)|
    ensures var ds, idx := Daughters(ps, fates, n), Selected(fates, n, true);
      forall m :: 0 <= m < |idx| ==> ds[2 * m] == ds[2 * m + 1] && ds[2 * m] + ds[2 * m + 1] == ps[idx[m]]
  {
    if n > 0 {
      DaughtersAreHalves(ps, fates, n - 1);
      var ds', idx' := Daughters(ps, fates, n - 1), Selected(fates, n - 1, true);
      var ds, idx := Daughters(ps, fates, n), Selected(fates, n, true);
      if fates[n - 1] {
        var g := GenerateDaughters(ps[n - 1]);
        assert ds == ds' + g;
        assert idx == idx' + [n - 1];
        forall m | 0 <= m < |idx|
          ensures ds[2 * m] == ds[2 * m + 1] && ds[2 * m] + ds[2 * m + 1] == ps[idx[m]]
        {
          if m < |idx'| {
            assert ds[2 * m] == ds'[2 * m] && ds[2 * m + 1] == ds'[2 * m + 1];
            assert idx[m] == idx'[m];
          } else {
            assert ds[2 * m] == g[0] && ds[2 * m + 1] == g[1];
          }
        }
      } else {
        assert ds == ds' && idx == idx';
      }
    }
  }

  /** Survivor side of the breakage pass over the whole population: the
      survivors are exactly the particles whose draw does not trigger, in
      their original order and with their values. */
  lemma BreakageKeeps(ps: seq<real>, k: real, dt: real, draws: Stream, pos: nat)
    ensures var fates := Fates(ps, |ps|, k, dt, draws, pos);
      var s, kept := Survivors(ps, fates, |ps|), Selected(fates, |ps|, false);
      && |s| == |kept| && (forall m :: 0 <= m < |kept| ==> s[m] == ps[kept[m]])
      && (forall m, m' :: 0 <= m < m' < |kept| ==> kept[m] < kept[m'])
      && (forall i :: 0 <= i < |ps| ==> (i in kept <==> !Breaks(ps[i], k, dt, draws(pos + i))))
  {
    var fates := Fates(ps, |ps|, k, dt, draws, pos);
    SurvivorsAreKept(ps, fates, |ps|);
    SelectedIncreasing(fates, |ps|, false);
    SelectedExactly(fates, |ps|, false);
  }

  /** Daughter side of the breakage pass: two halves of every particle whose
      draw triggers, in scan order, placed after all the survivors; so the
      population grows by one per break. */
  lemma BreakageSplits(ps: seq<real>, k: real, dt: real, draws: Stream, pos: nat)
    ensures var fates := Fates(ps, |ps|, k, dt, draws, pos);
      var s, ds, broken := Survivors(ps, fates, |ps|), Daughters(ps, fates, |ps|), Selected(fates, |ps|, true);
      && Broken(ps, k, dt, draws, pos) == s + ds
      && |ds| == 2 * |broken|
      && (forall m :: 0 <= m < |broken| ==>
            ds[2 * m] == ds[2 * m + 1] && ds[2 * m] + ds[2 * m + 1] == ps[broken[m]])
      && (forall m, m' :: 0 <= m < m' < |broken| ==> broken[m] < broken[m'])
      && (forall i :: 0 <= i < |ps| ==> (i in broken <==> Breaks(ps[i], k, dt, draws(pos + i))))
      && |s| == |ps| - |broken|
      && |Broken(ps, k, dt, draws, pos)| == |ps| + |broken|
  {
    var fates := Fates(ps, |ps|, k, dt, draws, pos);
    SurvivorsAreKept(ps, fates, |ps|);
    DaughtersAreHalves(ps, fates, |ps|);
    SelectedIncreasing(fates, |ps|, true);
    SelectedExactly(fates, |ps|, true);
    SelectedPartition(fates, |ps|);
  }

  /** Survivors and daughters of the first n particles together carry
      exactly the size of those particles. */
  lemma {:induction false} SplitConservesMass(ps: seq<real>, fates: seq<bool>, n: nat)
    requires n <= |ps| && n <= |fates|
    ensures Sum(Survivors(ps, fates, n)) + Sum(Daughters(ps, fates, n)) == Sum(ps[..n])
  {
    if n > 0 {
      SplitConservesMass(ps, fates, n - 1);
      SumPrefix(ps, n);
      var s', d' := Survivors(ps, fates, n - 1), Daughters(ps, fates, n - 1);
      var x := ps[n - 1];
      if fates[n - 1] {
        var g := GenerateDaughters(x);
        assert Survivors(ps, fates, n) == s';
        assert Daughters(ps, fates, n) == d' + g;
        assert g == [g[0], g[1]];
        SumConcat(d', g);
        SumTwo(g[0], g[1]);
      } else {
        assert Survivors(ps, fates, n) == s' + [x];
        assert Daughters(ps, fates, n) == d';
        SumAppend(s', x);
      }
    }
  }

  /** The breakage pass conserves the total size. */
  lemma BreakageConservesMass(ps: seq<real>, k: real, dt: real, draws: Stream, pos: nat)
    ensures Sum(Broken(ps, k, dt, draws, pos)) == Sum(ps)
  {
    var fates := Fates(ps, |ps|, k, dt, draws, pos);
    SumConcat(Survivors(ps, fates, |ps|), Daughters(ps, fates, |ps|));
    SplitConservesMass(ps, fates, |ps|);
    assert ps[..|ps|] == ps;
  }

  lemma {:induction false} SurvivorsPositive(ps: seq<real>, fates: seq<bool>, n: nat)
    requires n <= |ps| && n <= |fates| && AllPositive(ps)
    ensures AllPositive(Survivors(ps, fates, n))
  {
    if n > 0 {
      SurvivorsPositive(ps, fates, n - 1);
      var s' := Survivors(ps, fates, n - 1);
      var tail := if fates[n - 1] then [] else [ps[n - 1]];
      assert Survivors(ps, fates, n) == s' + tail;
      AllPositiveConcat(s', tail);
    }
  }

  lemma {:induction false} DaughtersPositive(ps: seq<real>, fates: seq<bool>, n: nat)
    requires n <= |ps| && n <= |fates| && AllPositive(ps)
    ensures AllPositive(Daughters(ps, fates, n))
  {
    if n > 0 {
      DaughtersPositive(ps, fates, n - 1);
      var d' := Daughters(ps, fates, n - 1);
      var g := GenerateDaughters(ps[n - 1]);
      var tail := if fates[n - 1] then g else [];
      assert Daughters(ps, fates, n) == d' + tail;
      assert AllPositive(g) by {
        assert ps[n - 1] > 0.0 && g[0] + g[1] == ps[n - 1] && g[0] == g[1];
      }
      AllPositiveConcat(d', tail);
    }
  }

  /** Breakage keeps every size positive: survivors are unchanged and halves
      of a positive size are positive. */
  lemma BreakagePreservesPositivity(ps: seq<real>, k: real, dt: real, draws: Stream, pos: nat)
    requires AllPositive(ps)
    ensures AllPositive(Broken(ps, k, dt, draws, pos))
  {
    var fates := Fates(ps, |ps|, k, dt, draws, pos);
    SurvivorsPositive(ps, fates, |ps|);
    DaughtersPositive(ps, fates, |ps|);
    AllPositiveConcat(Survivors(ps, fates, |ps|), Daughters(ps, fates, |ps|));
  }

  // --------------------------------------------------------- agglomeration

  /** The merge threshold kernel * agglomerationConstant * timeStep. */
  function MergeThreshold(x: real, y: real, a: real, dt: real): real
  {
    AgglomerationKernel(x, y) * a * dt
  }

  /** A pair merges when its draw falls below the merge threshold. */
  predicate Merges(x: real, y: real, a: real, dt: real, d: Draw)
  {
    Unit(d) < MergeThreshold(x, y, a, dt)
  }

  /** Entry m of a vector after one merge event: slot i holds v, the other
      entries before j are unchanged and those from j on are the ones that
      followed the erased slot j. */
  function AbsorbedAt<T>(s: seq<T>, i: nat, j: nat, v: T, m: nat): T
    requires i < j < |s| && m < |s| - 1
  {
    if m == i then v else if m < j then s[m] else s[m + 1]
  }

  /** The first n entries of a vector after one merge event. */
  function AbsorbTo<T>(s: seq<T>, i: nat, j: nat, v: T, n: nat): (r: seq<T>)
    requires i < j < |s| && n < |s|
    ensures |r| == n
    ensures forall m :: 0 <= m < n ==> r[m] == AbsorbedAt(s, i, j, v, m)
  {
    if n == 0 then [] else AbsorbTo(s, i, j, v, n - 1) + [AbsorbedAt(s, i, j, v, n - 1)]
  }

  /** The whole vector after one merge event. */
  function Absorb<T>(s: seq<T>, i: nat, j: nat, v: T): (r: seq<T>)
    requires i < j < |s|
    ensures |r| == |s| - 1
  {
    AbsorbTo(s, i, j, v, |s| - 1)
  }

  /** Overwriting slot i with v and then erasing slot j, as the loops do it,
      is the merge event above. */
  lemma EraseAfterUpdate<T>(s: seq<T>, i: nat, j: nat, v: T)
    requires i < j < |s|
    ensures s[i := v][..j] + s[i := v][j + 1..] == Absorb(s, i, j, v)
  {
    var q := s[i := v];
    var r := Absorb(s, i, j, v);
    forall m | 0 <= m < |r|
      ensures (q[..j] + q[j + 1..])[m] == r[m]
    {
      assert r[m] == AbsorbedAt(s, i, j, v, m);
      if m >= j {
        assert (q[..j] + q[j + 1..])[m] == q[m + 1];
      }
    }
  }

  /** One merge event on the sizes: particle i takes the sum of the pair and
      particle j is erased. */
  function MergeInto(ps: seq<real>, i: nat, j: nat): (r: seq<real>)
    requires i < j < |ps|
    ensures |r| == |ps| - 1
  {
    Absorb(ps, i, j, ps[i] + ps[j])
  }

  /** A merge event keeps the total size. */
  lemma MergeIntoMass(ps: seq<real>, i: nat, j: nat)
    requires i < j < |ps|
    ensures Sum(MergeInto(ps, i, j)) == Sum(ps)
  {
    EraseAfterUpdate(ps, i, j, ps[i] + ps[j]);
    SumMerge(ps, i, j);
  }

  /** A merge event keeps every size positive. */
  lemma MergeIntoPositive(ps: seq<real>, i: nat, j: nat)
    requires i < j < |ps| && AllPositive(ps)
    ensures AllPositive(MergeInto(ps, i, j))
  {
    var r := MergeInto(ps, i, j);
    forall m | 0 <= m < |r|
      ensures r[m] > 0.0
    {
      assert r[m] == AbsorbedAt(ps, i, j, ps[i] + ps[j], m);
    }
  }

  /** Where a scan ended: the population, the cursor just past the last draw
      taken, and the number of merges so far. */
  datatype Scan = Scan(sizes: seq<real>, next: nat, merges: nat)

  /** The inner loop for a fixed i, from index j on: each examined pair takes
      one draw; after a merge the same index j is examined again, now holding
      the element that slid into it. */
  function Sweep(ps: seq<real>, i: nat, j: nat, a: real, dt: real, draws: Stream, cur: nat, merges: nat): (r: Scan)
    requires i < j <= |ps|
    ensures j <= |r.sizes| <= |ps|
    ensures |r.sizes| + r.merges == |ps| + merges
    ensures r.next == cur + (|ps| - j)
    decreases |ps| - j
  {
    if j == |ps| then Scan(ps, cur, merges)
    else if Merges(ps[i], ps[j], a, dt, draws(cur)) then
      Sweep(MergeInto(ps, i, j), i, j, a, dt, draws, cur + 1, merges + 1)
    else
      Sweep(ps, i, j + 1, a, dt, draws, cur + 1, merges)
  }

  /** One iteration of the inner loop: the pair (i, j) either merges or is
      skipped, and either way one draw is taken. */
  lemma SweepUnfold(ps: seq<real>, i: nat, j: nat, a: real, dt: real, draws: Stream, cur: nat, merges: nat, merge: bool)
    requires i < j < |ps|
    requires merge == Merges(ps[i], ps[j], a, dt, draws(cur))
    ensures merge ==> Sweep(ps, i, j, a, dt, draws, cur, merges) == Sweep(MergeInto(ps, i, j), i, j, a, dt, draws, cur + 1, merges + 1)
    ensures !merge ==> Sweep(ps, i, j, a, dt, draws, cur, merges) == Sweep(ps, i, j + 1, a, dt, draws, cur + 1, merges)
  {
  }

  /** The outer loop from index i on. */
  function AggFrom(ps: seq<real>, i: nat, a: real, dt: real, draws: Stream, cur: nat, merges: nat): (r: Scan)
    ensures |r.sizes| + r.merges == |ps| + merges
    ensures r.next >= cur
    decreases |ps| - i
  {
    if i >= |ps| then Scan(ps, cur, merges)
    else
      var s := Sweep(ps, i, i + 1, a, dt, draws, cur, merges);
      AggFrom(s.sizes, i + 1, a, dt, draws, s.next, s.merges)
  }

  /** The agglomeration pass: the final length is the initial length minus
      the number of merges. */
  function Agglomerated(ps: seq<real>, a: real, dt: real, draws: Stream, pos: nat): (r: Scan)
    ensures |r.sizes| == |ps| - r.merges
    ensures r.next >= pos
  {
    AggFrom(ps, 0, a, dt, draws, pos, 0)
  }

  lemma {:induction false} SweepConservesMass(ps: seq<real>, i: nat, j: nat, a: real, dt: real, draws: Stream, cur: nat, merges: nat)
    requires i < j <= |ps|
    ensures Sum(Sweep(ps, i, j, a, dt, draws, cur, merges).sizes) == Sum(ps)
    decreases |ps| - j
  {
    if j < |ps| {
      if Merges(ps[i], ps[j], a, dt, draws(cur)) {
        MergeIntoMass(ps, i, j);
        SweepConservesMass(MergeInto(ps, i, j), i, j, a, dt, draws, cur + 1, merges + 1);
      } else {
        SweepConservesMass(ps, i, j + 1, a, dt, draws, cur + 1, merges);
      }
    }
  }

  lemma {:induction false} AggFromConservesMass(ps: seq<real>, i: nat, a: real, dt: real, draws: Stream, cur: nat, merges: nat)
    ensures Sum(AggFrom(ps, i, a, dt, draws, cur, merges).sizes) == Sum(ps)
    decreases |ps| - i
  {
    if i < |ps| {
      var s := Sweep(ps, i, i + 1, a, dt, draws, cur, merges);
      SweepConservesMass(ps, i, i + 1, a, dt, draws, cur, merges);
      AggFromConservesMass(s.sizes, i + 1, a, dt, draws, s.next, s.merges);
    }
  }

  /** The agglomeration pass conserves the total size. */
  lemma AgglomerationConservesMass(ps: seq<real>, a: real, dt: real, draws: Stream, pos: nat)
    ensures Sum(Agglomerated(ps, a, dt, draws, pos).sizes) == Sum(ps)
  {
    AggFromConservesMass(ps, 0, a, dt, draws, pos, 0);
  }

  lemma {:induction false} SweepPreservesPositivity(ps: seq<real>, i: nat, j: nat, a: real, dt: real, draws: Stream, cur: nat, merges: nat)
    requires i < j <= |ps| && AllPositive(ps)
    ensures AllPositive(Sweep(ps, i, j, a, dt, draws, cur, merges).sizes)
    decreases |ps| - j
  {
    if j < |ps| {
      if Merges(ps[i], ps[j], a, dt, draws(cur)) {
        var q := MergeInto(ps, i, j);
        MergeIntoPositive(ps, i, j);
        SweepPreservesPositivity(q, i, j, a, dt, draws, cur + 1, merges + 1);
      } else {
        SweepPreservesPositivity(ps, i, j + 1, a, dt, draws, cur + 1, merges);
      }
    }
  }

  lemma {:induction false} AggFromPreservesPositivity(ps: seq<real>, i: nat, a: real, dt: real, draws: Stream, cur: nat, merges: nat)
    requires AllPositive(ps)
    ensures AllPositive(AggFrom(ps, i, a, dt, draws, cur, merges).sizes)
    decreases |ps| - i
  {
    if i < |ps| {
      var s := Sweep(ps, i, i + 1, a, dt, draws, cur, merges);
      SweepPreservesPositivity(ps, i, i + 1, a, dt, draws, cur, merges);
      AggFromPreservesPositivity(s.sizes, i + 1, a, dt, draws, s.next, s.merges);
    }
  }

  /** Agglomeration keeps every size positive. */
  lemma AgglomerationPreservesPositivity(ps: seq<real>, a: real, dt: real, draws: Stream, pos: nat)
    requires AllPositive(ps)
    ensures AllPositive(Agglomerated(ps, a, dt, draws, pos).sizes)
  {
    AggFromPreservesPositivity(ps, 0, a, dt, draws, pos, 0);
  }

  /** With no pair to examine the pass changes nothing and takes no draw. */
  lemma AgglomerationOfSingleton(ps: seq<real>, a: real, dt: real, draws: Stream, pos: nat)
    requires |ps| <= 1
    ensures Agglomerated(ps, a, dt, draws, pos) == Scan(ps, pos, 0)
  {
    if |ps| == 1 {
      assert Sweep(ps, 0, 1, a, dt, draws, pos, 0) == Scan(ps, pos, 0);
      assert AggFrom(ps, 1, a, dt, draws, pos, 0) == Scan(ps, pos, 0);
    }
  }

  /** If every draw is 0 and every size positive, every examined pair merges:
      particle 0 absorbs each particle that slides into slot 1. */
  lemma {:induction false} SweepCollapses(ps: seq<real>, a: real, dt: real, draws: Stream, cur: nat, merges: nat)
    requires 1 <= |ps| && AllPositive(ps) && a > 0.0 && dt > 0.0
    requires forall n: nat :: draws(n) == 0
    ensures Sweep(ps, 0, 1, a, dt, draws, cur, merges)
              == Scan([Sum(ps)], cur + |ps| - 1, merges + |ps| - 1)
    decreases |ps|
  {
    if |ps| == 1 {
      SumOne(ps[0]);
      assert ps == [ps[0]];
    } else {
      var kernel := AgglomerationKernel(ps[0], ps[1]);
      ProductSign(kernel, a);
      ProductSign(kernel * a, dt);
      assert Merges(ps[0], ps[1], a, dt, draws(cur));
      var q := MergeInto(ps, 0, 1);
      MergeIntoPositive(ps, 0, 1);
      MergeIntoMass(ps, 0, 1);
      SweepCollapses(q, a, dt, draws, cur + 1, merges + 1);
    }
  }

  /** If every draw triggers (all draws 0, positive sizes and constants), a
      non-empty population collapses into one particle holding the total
      size, after |ps| - 1 merges and as many draws. */
  lemma AgglomerationCollapses(ps: seq<real>, a: real, dt: real, draws: Stream, pos: nat)
    requires 1 <= |ps| && AllPositive(ps) && a > 0.0 && dt > 0.0
    requires forall n: nat :: draws(n) == 0
    ensures Agglomerated(ps, a, dt, draws, pos) == Scan([Sum(ps)], pos + |ps| - 1, |ps| - 1)
  {
    SweepCollapses(ps, a, dt, draws, pos, 0);
    var one := [Sum(ps)];
    var s := Sweep(ps, 0, 1, a, dt, draws, pos, 0);
    assert s == Scan(one, pos + |ps| - 1, |ps| - 1);
    assert AggFrom(ps, 0, a, dt, draws, pos, 0) == AggFrom(s.sizes, 1, a, dt, draws, s.next, s.merges);
    assert AggFrom(one, 1, a, dt, draws, pos + |ps| - 1, |ps| - 1) == Scan(one, pos + |ps| - 1, |ps| - 1);
  }
}
