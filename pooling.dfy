/**
 * Object-pool bookkeeping of the particle effect at the level of particle
 * identities: the ordered active list, the reuse stack and the record of every
 * particle ever constructed. Generic in the identity type, so the same
 * functions specify the effect's methods over Particle references.
 */
module Pooling {

  /**
   * `particles`: the active list, oldest first; `pool`: the reuse stack, top
   * last; `created`: every particle constructed so far, in construction order.
   */
  datatype Slots<P> = Slots(particles: seq<P>, pool: seq<P>, created: seq<P>)

  predicate Distinct<P(==)>(xs: seq<P>) {
    forall i, j :: 0 <= i < j < |xs| ==> xs[i] != xs[j]
  }

  /**
   * Every constructed particle is in exactly one of the active list and the
   * pool, once, and nothing else is in either.
   */
  predicate Conserved<P(==)>(s: Slots<P>) {
    Distinct(s.created) && multiset(s.particles + s.pool) == multiset(s.created)
  }

  /** The invariant the effect keeps between callbacks. */
  predicate Inv<P(==)>(s: Slots<P>, cap: nat) {
    Conserved(s) && |s.particles| <= cap && |s.created| <= cap
  }

  /** Line 97: at capacity the oldest particle is shifted out onto the pool. */
  function Evicted<P>(s: Slots<P>, cap: nat): (r: Slots<P>)
    requires 1 <= cap
    ensures r.created == s.created
    // at capacity the front particle leaves the list and is pushed onto the pool
    ensures |s.particles| >= cap ==> s.particles == [s.particles[0]] + r.particles && r.pool == s.pool + [s.particles[0]]
    // below capacity nothing happens
    ensures |s.particles| < cap ==> r == s
  {
    if |s.particles| >= cap then Slots(s.particles[1..], s.pool + [s.particles[0]], s.created)
    else s
  }

  /**
   * `spawn` on identities: evict at capacity, then pop the pool or, if it is
   * empty, construct `newborn`, and append the particle to the active list.
   */
  function Spawned<P>(s: Slots<P>, cap: nat, newborn: P): (r: Slots<P>)
    requires 1 <= cap
    // at capacity the evicted particle is the one reused: the list rotates and the pool is untouched
    ensures |s.particles| >= cap ==>
      r == Slots(s.particles[1..] + [s.particles[0]], s.pool, s.created)
    // below capacity the top of the pool is reused
    ensures |s.particles| < cap && s.pool != [] ==>
      r == Slots(s.particles + [s.pool[|s.pool| - 1]], s.pool[..|s.pool| - 1], s.created)
    // below capacity with an empty pool a particle is constructed
    ensures |s.particles| < cap && s.pool == [] ==>
      r == Slots(s.particles + [newborn], [], s.created + [newborn])
  {
    var e := Evicted(s, cap);
    if e.pool != [] then
      Slots(e.particles + [e.pool[|e.pool| - 1]], e.pool[..|e.pool| - 1], e.created)
    else
      Slots(e.particles + [newborn], e.pool, e.created + [newborn])
  }

  /** Whether `Spawned` constructs a particle rather than reusing one. */
  predicate Constructs<P>(s: Slots<P>, cap: nat) {
    |s.particles| < cap && s.pool == []
  }

  lemma DistinctSnoc<P>(xs: seq<P>, x: P)
    requires Distinct(xs) && x !in xs
    ensures Distinct(xs + [x])
  {
  }

  /**
   * `spawn` keeps the invariant: the active list stays within capacity, no
   * particle is lost or duplicated, and at most `cap` are ever constructed.
   */
  lemma SpawnedKeepsInv<P>(s: Slots<P>, cap: nat, newborn: P)
    requires 1 <= cap && Inv(s, cap)
    requires Constructs(s, cap) ==> newborn !in s.created
    ensures Inv(Spawned(s, cap, newborn), cap)
    ensures |Spawned(s, cap, newborn).particles| == if |s.particles| < cap then |s.particles| + 1 else cap
  {
    var ps, pool := s.particles, s.pool;
    if |ps| >= cap {
      RotateKeepsMultiset(ps, pool);
    } else if pool != [] {
      PopKeepsMultiset(ps, pool);
    } else {
      assert |ps| == |multiset(s.created)|;
      DistinctSnoc(s.created, newborn);
      assert Spawned(s, cap, newborn).particles + [] == ps + [newborn];
    }
  }

  lemma RotateKeepsMultiset<P>(ps: seq<P>, pool: seq<P>)
    requires ps != []
    ensures multiset(ps[1..] + [ps[0]] + pool) == multiset(ps + pool)
  {
    assert ps == [ps[0]] + ps[1..];
  }

  lemma PopKeepsMultiset<P>(ps: seq<P>, pool: seq<P>)
    requires pool != []
    ensures multiset(ps + [pool[|pool| - 1]] + pool[..|pool| - 1]) == multiset(ps + pool)
  {
    assert pool == pool[..|pool| - 1] + [pool[|pool| - 1]];
  }

  /** Several spawns in a row, constructing `news[k]` whenever the k-th spawn needs a new particle. */
  function SpawnedAll<P>(s: Slots<P>, cap: nat, news: seq<P>): (r: Slots<P>)
    requires 1 <= cap
    // the record of constructions only grows, by at most one particle per spawn
    ensures |s.created| <= |r.created| <= |s.created| + |news| && r.created[..|s.created|] == s.created
    decreases |news|
  {
    if news == [] then s
    else Spawned(SpawnedAll(s, cap, news[..|news| - 1]), cap, news[|news| - 1])
  }

  /** `a` and `b` end alike: over their common length, their last entries agree. */
  predicate SameEnd<P(==)>(a: seq<P>, b: seq<P>) {
    forall i :: 0 <= i < |a| && |a| - i <= |b| ==> a[i] == b[|b| - |a| + i]
  }

  /** Ending alike means the shorter sequence is a suffix of the longer one. */
  lemma SameEndSuffix<P>(a: seq<P>, b: seq<P>)
    requires SameEnd(a, b)
    ensures |b| <= |a| ==> a[|a| - |b|..] == b
    ensures |a| <= |b| ==> b[|b| - |a|..] == a
  {
  }

  /**
   * A spawn drops at most the front of the active list and appends one
   * particle at the back, so a list that ends like `recent` afterwards ends
   * like `recent` followed by the appended particle.
   */
  lemma SpawnedSameEnd<P>(s: Slots<P>, cap: nat, newborn: P, recent: seq<P>)
    requires 1 <= cap && SameEnd(s.particles, recent)
    ensures var r := Spawned(s, cap, newborn).particles;
      r != [] && SameEnd(r, recent + [r[|r| - 1]])
  {
    var r := Spawned(s, cap, newborn).particles;
    var ps := s.particles;
    var t := if |ps| >= cap then ps[1..] else ps;
    var d := |ps| - |t|;
    var b := recent + [r[|r| - 1]];
    assert r == t + [r[|r| - 1]];
    forall i | 0 <= i < |r| && |r| - i <= |b|
      ensures r[i] == b[|b| - |r| + i]
    {
      if i < |t| {
        assert r[i] == t[i] == ps[i + d];
        assert ps[i + d] == recent[|recent| - |ps| + i + d];
      }
    }
  }

  /** One more spawn after several is one spawn applied to their result. */
  lemma SpawnedAllSnoc<P>(s: Slots<P>, cap: nat, news: seq<P>, newborn: P)
    requires 1 <= cap
    ensures SpawnedAll(s, cap, news + [newborn]) == Spawned(SpawnedAll(s, cap, news), cap, newborn)
  {
    assert (news + [newborn])[..|news|] == news;
  }

  /** k spawns grow the active list by k until it is full, and never past `cap`. */
  lemma {:induction false} SpawnedAllLength<P>(s: Slots<P>, cap: nat, news: seq<P>)
    requires 1 <= cap && |s.particles| <= cap
    ensures |SpawnedAll(s, cap, news).particles| ==
      if |s.particles| + |news| <= cap then |s.particles| + |news| else cap
    decreases |news|
  {
    if news != [] {
      SpawnedAllLength(s, cap, news[..|news| - 1]);
    }
  }

  /**
   * FIFO eviction: at capacity, k spawns (k <= cap) recycle the k oldest
   * particles in order, moving them to the back of the active list; the pool
   * and the record of constructed particles are untouched.
   */
  lemma {:induction false} SpawnedAllAtCapacity<P>(s: Slots<P>, cap: nat, news: seq<P>)
    requires 1 <= cap && |s.particles| == cap && |news| <= cap
    ensures SpawnedAll(s, cap, news) == Slots(s.particles[|news|..] + s.particles[..|news|], s.pool, s.created)
    decreases |news|
  {
    var ps, k := s.particles, |news|;
    if news == [] {
      assert ps[0..] + ps[..0] == ps;
    } else {
      SpawnedAllAtCapacity(s, cap, news[..k - 1]);
      RotateOnceMore(ps, k);
      assert SpawnedAll(s, cap, news) == Spawned(Slots(ps[k - 1..] + ps[..k - 1], s.pool, s.created), cap, news[k - 1]);
    }
  }

  /** Rotating the list left by k - 1 and then by one more is rotating it by k. */
  lemma RotateOnceMore<P>(ps: seq<P>, k: nat)
    requires 1 <= k <= |ps|
    ensures var cur := ps[k - 1..] + ps[..k - 1]; cur[1..] + [cur[0]] == ps[k..] + ps[..k]
  {
    var cur := ps[k - 1..] + ps[..k - 1];
    assert cur[0] == ps[k - 1];
    assert cur[1..] == ps[k..] + ps[..k - 1];
    assert ps[..k] == ps[..k - 1] + [ps[k - 1]];
  }

  /**
   * Four spawns into an empty effect of capacity 3: the fourth evicts the
   * first particle and immediately reuses it, so it ends at the back of the
   * active list and the pool stays empty.
   */
  lemma FourSpawnsIntoThree<P>(a: P, b: P, c: P, d: P)
    ensures SpawnedAll(Slots([], [], []), 3, [a, b, c, d]) == Slots([b, c, a], [], [a, b, c])
  {
    var s0: Slots<P> := Slots([], [], []);
    assert [a, b, c, d][..3] == [a, b, c] && [a, b, c][..2] == [a, b] && [a, b][..1] == [a] && [a][..0] == [];
    assert SpawnedAll(s0, 3, [a]) == Slots([a], [], [a]);
    assert SpawnedAll(s0, 3, [a, b]) == Slots([a, b], [], [a, b]);
    assert SpawnedAll(s0, 3, [a, b, c]) == Slots([a, b, c], [], [a, b, c]);
  }

  /** The particles whose flag is set, in their original relative order. */
  function Survivors<P>(ps: seq<P>, alive: seq<bool>): (r: seq<P>)
    requires |alive| == |ps|
    ensures |r| <= |ps|
  {
    if ps == [] then []
    else (if alive[0] then [ps[0]] else []) + Survivors(ps[1..], alive[1..])
  }

  /** The particles whose flag is clear, from the last index to the first. */
  function Dropped<P>(ps: seq<P>, alive: seq<bool>): (r: seq<P>)
    requires |alive| == |ps|
    ensures |r| <= |ps|
  {
    if ps == [] then []
    else Dropped(ps[1..], alive[1..]) + (if alive[0] then [] else [ps[0]])
  }

  /** The cull loop of `animate` on identities: dead particles move to the pool. */
  function Culled<P>(s: Slots<P>, alive: seq<bool>): (r: Slots<P>)
    requires |alive| == |s.particles|
    ensures r.created == s.created
    ensures |r.pool| >= |s.pool| && r.pool[..|s.pool|] == s.pool
  {
    Slots(Survivors(s.particles, alive), s.pool + Dropped(s.particles, alive), s.created)
  }

  /**
   * One visit of the cull loop at index i: a dead particle is spliced out of
   * the active list and pushed onto the pool; a live one stays where it is.
   */
  function CullAt<P>(s: Slots<P>, alive: bool, i: nat): (r: Slots<P>)
    requires i < |s.particles|
    ensures r.created == s.created && |r.particles| + |r.pool| == |s.particles| + |s.pool|
    ensures i <= |r.particles| && r.particles[..i] == s.particles[..i]
    // a live particle stays where it is
    ensures alive ==> r == s
    // a dead one leaves the list, the particles above it close up, and it lands on top of the pool
    ensures !alive ==> r.particles[i..] == s.particles[i + 1..] && r.pool == s.pool + [s.particles[i]]
  {
    if alive then s
    else Slots(s.particles[..i] + s.particles[i + 1..], s.pool + [s.particles[i]], s.created)
  }

  /** The cull loop on identities as it runs: indices i down to 0 are still to be visited. */
  function CullDown<P>(s: Slots<P>, alive: seq<bool>, i: int): (r: Slots<P>)
    requires -1 <= i < |s.particles| && i < |alive|
    ensures r.created == s.created
    // particles only move from the list to the pool: none is lost, the old pool stays underneath
    ensures |r.particles| + |r.pool| == |s.particles| + |s.pool|
    ensures |r.pool| >= |s.pool| && r.pool[..|s.pool|] == s.pool
    decreases i + 1
  {
    if i < 0 then s else CullDown(CullAt(s, alive[i], i), alive, i - 1)
  }

  /** Walking the whole list from the back gives Culled. */
  lemma {:induction false} CullDownCulls<P>(s: Slots<P>, ps: seq<P>, pool: seq<P>, m: seq<bool>, i: int)
    requires |m| == |ps| && -1 <= i < |ps|
    requires s.particles == ps[..i + 1] + Survivors(ps[i + 1..], m[i + 1..])
    requires s.pool == pool + Dropped(ps[i + 1..], m[i + 1..])
    ensures CullDown(s, m, i) == Culled(Slots(ps, pool, s.created), m)
    decreases i + 1
  {
    if i < 0 {
      assert ps[0..] == ps && m[0..] == m;
    } else {
      CullStep(ps, m, i);
      if m[i] {
        CullDownCulls(s, ps, pool, m, i - 1);
      } else {
        CullDownCulls(CullAt(s, false, i), ps, pool, m, i - 1);
      }
    }
  }

  /** Walking the whole active list from the back gives Culled. */
  lemma CullDownIsCulled<P>(s: Slots<P>, alive: seq<bool>)
    requires |alive| == |s.particles|
    ensures CullDown(s, alive, |s.particles| - 1) == Culled(s, alive)
  {
    var ps := s.particles;
    assert ps[|ps|..] == [] && alive[|ps|..] == [] && ps[..|ps|] == ps;
    CullDownCulls(s, ps, s.pool, alive, |ps| - 1);
  }

  /**
   * With conserved lists, a particle whose flag is set stays in the active
   * list after the cull, and one whose flag is clear ends up in the pool.
   */
  lemma CulledSeparates<P>(s: Slots<P>, alive: seq<bool>)
    requires Conserved(s) && |alive| == |s.particles|
    ensures forall i :: 0 <= i < |s.particles| ==>
      && (s.particles[i] in Culled(s, alive).particles <==> alive[i])
      && (s.particles[i] in Culled(s, alive).pool <==> !alive[i])
  {
    ConservedDisjoint(s);
    forall i | 0 <= i < |s.particles|
      ensures s.particles[i] in Culled(s, alive).particles <==> alive[i]
      ensures s.particles[i] in Culled(s, alive).pool <==> !alive[i]
    {
      CullSeparates(s.particles, alive, i);
    }
  }

  /** The cull splits the active list: together the two parts are a permutation of it. */
  lemma {:induction false} CullSplits<P>(ps: seq<P>, alive: seq<bool>)
    requires |alive| == |ps|
    ensures multiset(Survivors(ps, alive)) + multiset(Dropped(ps, alive)) == multiset(ps)
  {
    if ps != [] {
      CullSplits(ps[1..], alive[1..]);
      assert ps == [ps[0]] + ps[1..];
    }
  }

  /** The cull only redistributes: both parts hold particles of the list and nothing else. */
  lemma {:induction false} CullWithin<P>(ps: seq<P>, alive: seq<bool>)
    requires |alive| == |ps|
    ensures forall q :: q in Survivors(ps, alive) ==> q in ps
    ensures forall q :: q in Dropped(ps, alive) ==> q in ps
  {
    if ps != [] {
      CullWithin(ps[1..], alive[1..]);
      assert ps == [ps[0]] + ps[1..];
    }
  }

  /** With distinct particles, index i survives exactly when its flag is set, and is dropped otherwise. */
  lemma {:induction false} CullSeparates<P>(ps: seq<P>, alive: seq<bool>, i: nat)
    requires |alive| == |ps| && Distinct(ps) && i < |ps|
    ensures ps[i] in Survivors(ps, alive) <==> alive[i]
    ensures ps[i] in Dropped(ps, alive) <==> !alive[i]
  {
    if i > 0 {
      CullSeparates(ps[1..], alive[1..], i - 1);
    } else {
      CullWithin(ps[1..], alive[1..]);
      assert ps[0] !in ps[1..];
    }
  }

  /** Survivors keeps relative order: it distributes over concatenation. */
  lemma {:induction false} SurvivorsAppend<P>(a: seq<P>, ma: seq<bool>, b: seq<P>, mb: seq<bool>)
    requires |ma| == |a| && |mb| == |b|
    ensures Survivors(a + b, ma + mb) == Survivors(a, ma) + Survivors(b, mb)
  {
    if a == [] {
      assert a + b == b && ma + mb == mb;
    } else {
      assert (a + b)[0] == a[0] && (ma + mb)[0] == ma[0];
      assert (a + b)[1..] == a[1..] + b && (ma + mb)[1..] == ma[1..] + mb;
      SurvivorsAppend(a[1..], ma[1..], b, mb);
    }
  }

  /** Dropped reverses index order: dead particles of a later segment come first. */
  lemma {:induction false} DroppedAppend<P>(a: seq<P>, ma: seq<bool>, b: seq<P>, mb: seq<bool>)
    requires |ma| == |a| && |mb| == |b|
    ensures Dropped(a + b, ma + mb) == Dropped(b, mb) + Dropped(a, ma)
  {
    if a == [] {
      assert a + b == b && ma + mb == mb;
    } else {
      assert (a + b)[0] == a[0] && (ma + mb)[0] == ma[0];
      assert (a + b)[1..] == a[1..] + b && (ma + mb)[1..] == ma[1..] + mb;
      DroppedAppend(a[1..], ma[1..], b, mb);
    }
  }

  /** The cull keeps the invariant and never constructs anything. */
  lemma CulledKeepsInv<P>(s: Slots<P>, cap: nat, alive: seq<bool>)
    requires Inv(s, cap) && |alive| == |s.particles|
    ensures Inv(Culled(s, alive), cap)
    ensures |Culled(s, alive).particles| + |Culled(s, alive).pool| == |s.particles| + |s.pool|
  {
    CullSplits(s.particles, alive);
    var r := Culled(s, alive);
    calc {
      multiset(r.particles + r.pool);
      multiset(Survivors(s.particles, alive)) + multiset(s.pool) + multiset(Dropped(s.particles, alive));
      multiset(s.particles + s.pool);
    }
  }

  /** Conserved lists hold no particle twice, active and pooled alike. */
  lemma ConservedDistinct<P>(s: Slots<P>)
    requires Conserved(s)
    ensures Distinct(s.particles + s.pool)
  {
    var xs := s.particles + s.pool;
    forall i, j | 0 <= i < j < |xs| ensures xs[i] != xs[j] {
      if xs[i] == xs[j] {
        CountTwice(xs, i, j);
        DistinctCountsOnce(s.created, xs[i]);
        assert false;
      }
    }
  }

  /** Everything listed, active or pooled, was constructed by the effect. */
  lemma ConservedMembers<P>(s: Slots<P>)
    requires Conserved(s)
    ensures forall q :: q in s.particles || q in s.pool ==> q in s.created
  {
    forall q | q in s.particles || q in s.pool ensures q in s.created {
      assert q in multiset(s.particles + s.pool);
    }
  }

  /** The active list and the pool are each duplicate-free and share no particle. */
  lemma ConservedDisjoint<P>(s: Slots<P>)
    requires Conserved(s)
    ensures Distinct(s.particles) && Distinct(s.pool)
    ensures forall q :: q in s.particles ==> q !in s.pool
  {
    ConservedDistinct(s);
    var ps, pool := s.particles, s.pool;
    var xs := ps + pool;
    assert forall i :: 0 <= i < |ps| ==> xs[i] == ps[i];
    assert forall j :: 0 <= j < |pool| ==> xs[|ps| + j] == pool[j];
    forall i, j | 0 <= i < |ps| && 0 <= j < |pool| ensures ps[i] != pool[j] {
      assert xs[i] != xs[|ps| + j];
    }
  }

  /**
   * One step of the cull loop at index i, with the list so far being
   * ps[..i + 1] followed by the survivors of the part already walked:
   * keeping or splicing out ps[i] gives the same shape one index lower.
   */
  lemma CullStep<P>(ps: seq<P>, m: seq<bool>, i: nat)
    requires |m| == |ps| && i < |ps|
    ensures (ps[..i + 1] + Survivors(ps[i + 1..], m[i + 1..]))[i] == ps[i]
    ensures m[i] ==>
      && ps[..i + 1] + Survivors(ps[i + 1..], m[i + 1..]) == ps[..i] + Survivors(ps[i..], m[i..])
      && Dropped(ps[i..], m[i..]) == Dropped(ps[i + 1..], m[i + 1..])
    ensures !m[i] ==>
      && (var cur := ps[..i + 1] + Survivors(ps[i + 1..], m[i + 1..]);
          cur[..i] + cur[i + 1..] == ps[..i] + Survivors(ps[i..], m[i..]))
      && Dropped(ps[i..], m[i..]) == Dropped(ps[i + 1..], m[i + 1..]) + [ps[i]]
  {
    assert ps[i..][1..] == ps[i + 1..] && m[i..][1..] == m[i + 1..];
    assert ps[..i + 1] == ps[..i] + [ps[i]];
    var cur := ps[..i + 1] + Survivors(ps[i + 1..], m[i + 1..]);
    assert cur[..i] == ps[..i];
    assert cur[i + 1..] == Survivors(ps[i + 1..], m[i + 1..]);
  }

  lemma {:induction false} CountTwice<P>(xs: seq<P>, i: nat, j: nat)
    requires i < j < |xs| && xs[i] == xs[j]
    ensures multiset(xs)[xs[i]] >= 2
  {
    assert xs == xs[..i] + [xs[i]] + xs[i + 1..j] + [xs[j]] + xs[j + 1..];
  }

  lemma {:induction false} DistinctCountsOnce<P>(xs: seq<P>, x: P)
    requires Distinct(xs)
    ensures multiset(xs)[x] <= 1
  {
    if xs != [] {
      var n := |xs| - 1;
      assert xs == xs[..n] + [xs[n]];
      DistinctCountsOnce(xs[..n], x);
      if xs[n] == x {
        assert x !in xs[..n];
      }
    }
  }
}
