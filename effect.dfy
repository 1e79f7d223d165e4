/**
 * The ParticlesEffect object: a bounded active list of particles and a reuse
 * pool, updated in place by `spawn`, by the cull loop of `animate` and by the
 * spawn loop of `onMouseMove`. Each method is proved against the identity-level
 * functions of Pooling and the particle-state functions of Kinematics.
 */
module Effect {
  import opened Kinematics
  import opened Particles
  import Pooling

  /** The constructor's default capacity. */
  const DefaultMaxParticles: nat := 280

  /** The constructor's default palette. */
  const DefaultColors: seq<string> :=
    ["#69D2E7", "#A7DBD8", "#E0E4CC", "#F38630", "#FA6900", "#FF4E50", "#F9D423"]

  /** The number of iterations of `for (i = 0; i < n; i++)` for a real n > 0: the ceiling of n. */
  function Ceil(n: real): (k: int)
    ensures k as real - 1.0 < n <= k as real
  {
    if n.Floor as real == n then n.Floor else n.Floor + 1
  }

  /** The loop test `i < n` of a count that has not passed the iteration count. */
  lemma CountTest(n: real, i: int)
    requires 0 <= i <= Ceil(n)
    ensures (i as real) < n <==> i < Ceil(n)
  {
  }

  /** A pointer move spawns between 2 and 5 particles (n is drawn from [2, 5)). */
  lemma SpawnCountRange(n: real)
    requires 2.0 <= n < 5.0
    ensures 2 <= Ceil(n) <= 5
  {
  }

  /** Five spawns do happen: any draw above 4 gives five iterations. */
  lemma FiveSpawnsReachable(n: real)
    requires 4.0 < n < 5.0
    ensures Ceil(n) == 5
  {
  }

  /**
   * Lines 100-110 of `spawn`: `init(x, y, radius)` on the obtained particle,
   * then the spawn-time wander, colour, drag and launch velocity.
   */
  method Relaunch(particle: Particle, x: real, y: real, d: SpawnDraw, color: string)
    requires ValidLaunch(d)
    modifies particle
    ensures particle.State() == Launched(x, y, d, color)
  {
    particle.Init(Num(x), Num(y), Num(d.radius), d.theta);
    particle.wander := d.wander;
    particle.color := color;
    particle.drag := d.drag;
    particle.vx := d.sinLaunch * d.force;
    particle.vy := d.cosLaunch * d.force;
  }

  /** A list that keeps its old entries and gains at most one fresh one has only old or fresh entries. */
  twostate lemma OldOrFresh(before: seq<Particle>, new after: seq<Particle>, new p: Particle)
    requires after == before || (fresh(p) && after == before + [p])
    ensures forall k :: 0 <= k < |after| ==> after[k] in before || fresh(after[k])
  {
  }

  /** Appending a particle at the pointer to particles at the pointer. */
  lemma AtPointerSnoc(earlier: seq<Particle>, p: Particle, x: real, y: real)
    requires forall k :: 0 <= k < |earlier| ==> AtPointer(earlier[k].State(), x, y)
    requires AtPointer(p.State(), x, y)
    ensures forall k :: 0 <= k < |earlier + [p]| ==> AtPointer((earlier + [p])[k].State(), x, y)
  {
  }

  class ParticlesEffect {
    const maxParticles: nat
    const colors: seq<string>
    /** The active list, oldest first. */
    var particles: seq<Particle>
    /** The reuse stack, top last. */
    var pool: seq<Particle>
    /** Every particle this effect has constructed, in construction order. */
    ghost var created: seq<Particle>

    ghost function Slots(): Pooling.Slots<Particle>
      reads this
    {
      Pooling.Slots(particles, pool, created)
    }

    /**
     * The object invariant: the active list is within capacity, every
     * constructed particle is in exactly one of the two lists, at most
     * `maxParticles` were ever constructed, and every pooled particle is dead.
     */
    ghost predicate Valid()
      reads this, pool
    {
      && 1 <= maxParticles
      && |colors| > 0
      && Pooling.Inv(Slots(), maxParticles)
      && forall q :: q in pool ==> !q.alive
    }

    /** The constructor's bookkeeping; the canvas, listeners and first frame are not modelled. */
    constructor (maxParticles: nat, colors: seq<string>)
      requires 1 <= maxParticles && |colors| > 0
      ensures Valid()
      ensures this.maxParticles == maxParticles && this.colors == colors
      ensures particles == [] && pool == [] && created == []
    {
      this.maxParticles := maxParticles;
      this.colors := colors;
      particles := [];
      pool := [];
      created := [];
    }

    /** `new ParticlesEffect()` with the default options. */
    constructor Default()
      ensures Valid()
      ensures maxParticles == DefaultMaxParticles && colors == DefaultColors
      ensures particles == [] && pool == [] && created == []
    {
      maxParticles := DefaultMaxParticles;
      colors := DefaultColors;
      particles := [];
      pool := [];
      created := [];
    }

    /**
     * Lines 97-99 of `spawn`: evict the oldest particle at capacity, then pop
     * the top of the pool or construct a particle. Returns the particle that
     * `spawn` re-initialises; the lists are left without it.
     */
    method Obtain(theta0: real) returns (particle: Particle)
      requires Valid() && 0.0 <= theta0 < TwoPi
      modifies this
      ensures Pooling.Spawned(old(Slots()), maxParticles, particle) == Pooling.Slots(particles + [particle], pool, created)
      ensures particle in created
      ensures created == old(created) || (fresh(particle) && created == old(created) + [particle])
      ensures forall q :: q in pool ==> !q.alive && q != particle
    {
      ghost var s0 := Slots();
      Pooling.ConservedDisjoint(s0);
      Pooling.ConservedMembers(s0);
      if |particles| >= maxParticles {
        pool := pool + [particles[0]];
        particles := particles[1..];
      }
      if |pool| > 0 {
        particle := pool[|pool| - 1];
        pool := pool[..|pool| - 1];
      } else {
        // `new Particle()` draws a heading of its own, overwritten by `init` in `spawn`
        particle := new Particle(Undefined, Undefined, Undefined, theta0);
        created := created + [particle];
      }
      if |s0.particles| >= maxParticles {
        assert pool == s0.pool && particle == s0.particles[0];
      } else if s0.pool != [] {
        var n := |s0.pool| - 1;
        assert s0.pool == pool + [particle];
        forall j | 0 <= j < n ensures pool[j] != particle {
          assert pool[j] == s0.pool[j];
        }
      }
    }

    /**
     * `spawn(x, y)`: obtain a particle, re-initialise it with the draws `d`
     * and append it to the active list. `p` is the particle appended.
     */
    method Spawn(x: real, y: real, d: SpawnDraw) returns (ghost p: Particle)
      requires Valid() && ValidDraw(d, |colors|)
      modifies this, created
      ensures Valid()
      ensures Slots() == Pooling.Spawned(old(Slots()), maxParticles, p)
      // the relaunched particle is the one appended at the back
      ensures particles != [] && particles[|particles| - 1] == p
      ensures p in created
      ensures created == old(created) || (fresh(p) && created == old(created) + [p])
      ensures p.State() == Launched(x, y, d, colors[d.colorIndex])
      ensures forall q: Particle :: old(allocated(q)) && q != p ==> q.State() == old(q.State())
    {
      ghost var s0 := Slots();
      var particle := Obtain(d.theta);
      Pooling.SpawnedKeepsInv(s0, maxParticles, particle);
      Relaunch(particle, x, y, d, colors[d.colorIndex]);
      particles := particles + [particle];
      assert Slots() == Pooling.Spawned(s0, maxParticles, particle);
      p := particle;
    }

    /**
     * Where the cull loop of `animate()` stands before visiting index i:
     * `ps0`, `m` and `st0` are the active list, its alive flags and its states
     * when the loop started, `after` those states one frame later and `goal`
     * the lists the whole loop ends with. Indices above i have been visited.
     */
    ghost predicate Swept(i: int, ws: seq<Wobble>, ps0: seq<Particle>, m: seq<bool>,
                          st0: seq<ParticleState>, after: seq<ParticleState>, goal: Pooling.Slots<Particle>)
      reads this, ps0, pool
    {
      && -1 <= i < |particles| && i < |ps0| && |ws| == |ps0| == |m| == |st0| == |after|
      && particles[..i + 1] == ps0[..i + 1]
      && Pooling.CullDown(Slots(), m, i) == goal
      && (forall j :: 0 <= j <= i ==> ps0[j].State() == st0[j])
      && (forall j :: i < j < |ps0| ==> ps0[j].State() == after[j])
      && (forall q :: q in pool ==> !q.alive)
    }

    /** The loop body for a live particle at index i: it moves with the inputs `ws[i]`. */
    method MoveAt(i: nat, ws: seq<Wobble>, ghost ps0: seq<Particle>, ghost m: seq<bool>,
                  ghost st0: seq<ParticleState>, ghost after: seq<ParticleState>, ghost goal: Pooling.Slots<Particle>)
      requires Swept(i, ws, ps0, m, st0, after, goal) && Pooling.Distinct(ps0) && ValidWobble(ws[i])
      requires m[i] == st0[i].alive && after[i] == (if st0[i].alive then Moved(st0[i], ws[i]) else st0[i])
      requires particles[i].alive
      modifies ps0[i]
      ensures Swept(i - 1, ws, ps0, m, st0, after, goal)
    {
      var particle := particles[i];
      assert particle == ps0[i];
      particle.Move(ws[i]);
      assert Slots() == Pooling.CullAt(old(Slots()), m[i], i);
    }

    /** The loop body for a dead particle at index i: it is spliced out and pushed onto the pool. */
    method SpliceAt(i: nat, ws: seq<Wobble>, ghost ps0: seq<Particle>, ghost m: seq<bool>,
                    ghost st0: seq<ParticleState>, ghost after: seq<ParticleState>, ghost goal: Pooling.Slots<Particle>)
      requires Swept(i, ws, ps0, m, st0, after, goal)
      requires m[i] == st0[i].alive && after[i] == (if st0[i].alive then Moved(st0[i], ws[i]) else st0[i])
      requires !particles[i].alive
      modifies this
      ensures Swept(i - 1, ws, ps0, m, st0, after, goal)
    {
      var particle := particles[i];
      assert particle == ps0[i];
      pool := pool + [particle];
      particles := particles[..i] + particles[i + 1..];
      assert Slots() == Pooling.CullAt(old(Slots()), m[i], i);
    }

    /** One iteration of the cull loop at index i. */
    method Visit(i: nat, ws: seq<Wobble>, ghost ps0: seq<Particle>, ghost m: seq<bool>,
                 ghost st0: seq<ParticleState>, ghost after: seq<ParticleState>, ghost goal: Pooling.Slots<Particle>)
      requires Swept(i, ws, ps0, m, st0, after, goal) && Pooling.Distinct(ps0) && ValidWobble(ws[i])
      requires m[i] == st0[i].alive && after == Stepped(st0, ws)
      modifies this, ps0[i]
      ensures Swept(i - 1, ws, ps0, m, st0, after, goal)
    {
      SteppedAt(st0, ws, i);
      if particles[i].alive {
        MoveAt(i, ws, ps0, m, st0, after, goal);
      } else {
        SpliceAt(i, ws, ps0, m, st0, after, goal);
      }
    }

    /**
     * The cull loop of `animate()`, walking the active list from the back:
     * live particles move (with the random inputs `ws[i]`), dead ones are
     * spliced out and pushed onto the pool.
     */
    method Sweep(ws: seq<Wobble>)
      requires Pooling.Distinct(particles) && |ws| == |particles|
      requires forall i :: 0 <= i < |ws| ==> ValidWobble(ws[i])
      requires forall q :: q in pool ==> !q.alive
      modifies this, particles
      ensures Slots() == Pooling.CullDown(old(Slots()), old(AliveFlags(particles)), |old(particles)| - 1)
      ensures States(old(particles)) == Stepped(old(States(particles)), ws)
      ensures forall q :: q in pool ==> !q.alive
    {
      ghost var ps0 := particles;
      ghost var m := AliveFlags(particles);
      ghost var st0 := States(particles);
      ghost var after := Stepped(st0, ws);
      ghost var goal := Pooling.CullDown(Slots(), m, |ps0| - 1);
      var i := |particles| - 1;
      while i >= 0
        invariant Swept(i, ws, ps0, m, st0, after, goal)
        invariant forall j :: 0 <= j < |m| ==> m[j] == st0[j].alive
        decreases i
      {
        Visit(i, ws, ps0, m, st0, after, goal);
        i := i - 1;
      }
      StatesAre(ps0, after);
    }

    /**
     * `animate()` on the particle lists: the cull loop. Clearing the canvas,
     * drawing and scheduling the next frame are not modelled.
     */
    method Animate(ws: seq<Wobble>)
      requires Valid() && |ws| == |particles|
      requires forall i :: 0 <= i < |ws| ==> ValidWobble(ws[i])
      modifies this, particles
      ensures Valid()
      ensures Slots() == Pooling.Culled(old(Slots()), old(AliveFlags(particles)))
      ensures States(old(particles)) == Stepped(old(States(particles)), ws)
      // listed afterwards exactly when alive before this frame's moves:
      // a particle that this frame's move kills stays listed until the next frame
      ensures forall i :: 0 <= i < |old(particles)| ==> (old(particles)[i] in particles <==> old(AliveFlags(particles))[i])
    {
      ghost var s0 := Slots();
      ghost var m := AliveFlags(particles);
      Pooling.ConservedDisjoint(s0);
      Sweep(ws);
      Pooling.CullDownIsCulled(s0, m);
      Pooling.CulledKeepsInv(s0, maxParticles, m);
      Pooling.CulledSeparates(s0, m);
      assert particles == Pooling.Culled(s0, m).particles;
    }

    /**
     * One iteration of the spawn loop of `onMouseMove`: `spawn(x, y)` with the
     * draws `d`, where `earlier` lists the particles the loop spawned before,
     * starting from the lists `start`. Returns them with the new one appended.
     */
    method SpawnNext(x: real, y: real, d: SpawnDraw, ghost start: Pooling.Slots<Particle>, ghost earlier: seq<Particle>)
      returns (ghost spawned: seq<Particle>)
      requires Valid() && ValidDraw(d, |colors|)
      requires Slots() == Pooling.SpawnedAll(start, maxParticles, earlier)
      requires Pooling.SameEnd(particles, earlier)
      requires forall k :: 0 <= k < |earlier| ==> AtPointer(earlier[k].State(), x, y)
      modifies this, created
      ensures Valid()
      ensures |spawned| == |earlier| + 1 && spawned == earlier + [spawned[|earlier|]]
      ensures Slots() == Pooling.SpawnedAll(start, maxParticles, spawned)
      // the active list ends with the particles spawned so far, the new one last
      ensures particles != [] && particles[|particles| - 1] == spawned[|earlier|]
      ensures Pooling.SameEnd(particles, spawned)
      ensures forall k :: 0 <= k < |created| ==> created[k] in old(created) || fresh(created[k])
      ensures forall k :: 0 <= k < |spawned| ==> AtPointer(spawned[k].State(), x, y)
      // a particle this spawn did not append keeps its state
      ensures forall q: Particle :: old(allocated(q)) && q != spawned[|earlier|] ==> q.State() == old(q.State())
    {
      ghost var s0 := Slots();
      var p := Spawn(x, y, d);
      assert AtPointer(p.State(), x, y);
      forall k | 0 <= k < |earlier|
        ensures AtPointer(earlier[k].State(), x, y)
      {
        if earlier[k] != p {
          assert old(allocated(earlier[k]));
          assert earlier[k].State() == old(earlier[k].State());
        }
      }
      AtPointerSnoc(earlier, p, x, y);
      Pooling.SpawnedSameEnd(s0, maxParticles, p, earlier);
      OldOrFresh(old(created), created, p);
      Pooling.SpawnedAllSnoc(start, maxParticles, earlier, p);
      spawned := earlier + [p];
    }

    /**
     * The spawn loop of `onMouseMove`: `n` is the random(2, 5) draw and (x, y)
     * the pointer position already mapped to canvas coordinates; the k-th
     * spawn uses the draws `ds[k]`. `spawned` lists the particle each spawn appended.
     */
    method OnMouseMove(x: real, y: real, n: real, ds: seq<SpawnDraw>) returns (ghost spawned: seq<Particle>)
      requires Valid() && 2.0 <= n < 5.0 && |ds| >= Ceil(n)
      requires forall k :: 0 <= k < |ds| ==> ValidDraw(ds[k], |colors|)
      modifies this, created
      ensures Valid()
      ensures |spawned| == Ceil(n)
      ensures Slots() == Pooling.SpawnedAll(old(Slots()), maxParticles, spawned)
      // the active list grew by the spawns, up to the capacity
      ensures |particles| == if |old(particles)| + |spawned| <= maxParticles then |old(particles)| + |spawned| else maxParticles
      // it ends with the particles spawned, in the order spawned, as far as its length allows
      ensures Pooling.SameEnd(particles, spawned)
      // every particle spawned is live at the pointer
      ensures forall k :: 0 <= k < |spawned| ==> AtPointer(spawned[k].State(), x, y)
      // a particle no spawn appended keeps its state
      ensures forall q: Particle :: old(allocated(q)) && q !in spawned ==> q.State() == old(q.State())
    {
      ghost var start := Slots();
      spawned := [];
      var i := 0;
      while (i as real) < n
        invariant 0 <= i <= Ceil(n) && |spawned| == i
        invariant Valid()
        invariant Slots() == Pooling.SpawnedAll(start, maxParticles, spawned)
        invariant Pooling.SameEnd(particles, spawned)
        invariant forall k :: 0 <= k < i ==> AtPointer(spawned[k].State(), x, y)
        invariant forall k :: 0 <= k < |created| ==> created[k] in old(created) || fresh(created[k])
        invariant forall q: Particle :: old(allocated(q)) && q !in spawned ==> q.State() == old(q.State())
        decreases Ceil(n) - i
      {
        CountTest(n, i);
        spawned := SpawnNext(x, y, ds[i], start, spawned);
        i := i + 1;
      }
      CountTest(n, i);
      Pooling.SpawnedAllLength(start, maxParticles, spawned);
    }
  }
}
