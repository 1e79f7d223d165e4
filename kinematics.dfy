/**
 * The state of one particle and the two steps that change it: (re)initialisation
 * and one simulation move. The random draws, sin and cos the effect uses are
 * inputs here (SpawnDraw, Wobble) whose ranges are the preconditions.
 */
module Kinematics {

  /** Math.PI * 2, the upper bound of the heading draws. */
  const TwoPi: real := 6.283185307179586

  /** A particle is alive while its radius is above this threshold. */
  const MinRadius: real := 0.5

  /** Largest drag a particle can carry (spawn draws drag from [0.9, 0.99)). */
  const MaxDrag: real := 0.99

  /** An argument that JavaScript may pass as `undefined`. */
  datatype Arg = Undefined | Num(v: real)

  /** `a || d` for a number: `undefined` and 0 are falsy and give the default. */
  function OrDefault(a: Arg, d: real): (r: real)
    ensures a.Num? && a.v != 0.0 ==> r == a.v
    ensures a.Undefined? || a.v == 0.0 ==> r == d
  {
    match a
    case Undefined => d
    case Num(v) => if v == 0.0 then d else v
  }

  /** Every field of a particle. */
  datatype ParticleState = ParticleState(
    x: real, y: real,
    vx: real, vy: real,
    theta: real,
    radius: real,
    wander: real,
    drag: real,
    color: string,
    alive: bool)

  /** The random draws `ParticlesEffect.spawn` makes for one particle. */
  datatype SpawnDraw = SpawnDraw(
    radius: real,      // random(3, 15), passed to init
    theta: real,       // random(2π) inside init
    wander: real,      // random(0.5, 2.0)
    colorIndex: nat,   // floor(random() * colors.length)
    drag: real,        // random(0.9, 0.99)
    sinLaunch: real,   // sin of the launch heading random(2π)
    cosLaunch: real,   // cos of the launch heading
    force: real)       // random(2, 8)

  /** The ranges of the numeric draws. */
  predicate ValidLaunch(d: SpawnDraw) {
    && 3.0 <= d.radius < 15.0
    && 0.0 <= d.theta < TwoPi
    && 0.5 <= d.wander < 2.0
    && 0.9 <= d.drag < MaxDrag
    && -1.0 <= d.sinLaunch <= 1.0
    && -1.0 <= d.cosLaunch <= 1.0
    && 2.0 <= d.force < 8.0
  }

  /** The ranges of all draws, with a palette of `colorCount` colours. */
  predicate ValidDraw(d: SpawnDraw, colorCount: nat) {
    ValidLaunch(d) && d.colorIndex < colorCount
  }

  /** The random inputs of one `move`: random(-0.5, 0.5), then sin and cos of the new heading. */
  datatype Wobble = Wobble(turn: real, sin: real, cos: real)

  predicate ValidWobble(w: Wobble) {
    -0.5 <= w.turn < 0.5 && -1.0 <= w.sin <= 1.0 && -1.0 <= w.cos <= 1.0
  }

  /**
   * The state `init(x, y, radius)` leaves behind. It depends on the arguments
   * and the heading draw only, never on the state before the call.
   */
  function Initialised(x: Arg, y: Arg, radius: Arg, theta: real): (r: ParticleState)
    ensures r.alive && r.vx == 0.0 && r.vy == 0.0 && r.theta == theta
    ensures r.wander == 0.15 && r.drag == 0.92 && r.color == "#fff"
    ensures r.radius != 0.0 && (radius.Num? && radius.v != 0.0 ==> r.radius == radius.v)
    ensures radius.Undefined? || radius.v == 0.0 ==> r.radius == 10.0
    ensures x.Num? ==> r.x == x.v
    ensures y.Num? ==> r.y == y.v
    ensures x.Undefined? ==> r.x == 0.0
    ensures y.Undefined? ==> r.y == 0.0
  {
    ParticleState(
      x := OrDefault(x, 0.0), y := OrDefault(y, 0.0),
      vx := 0.0, vy := 0.0,
      theta := theta,
      radius := OrDefault(radius, 10.0),
      wander := 0.15,
      drag := 0.92,
      color := "#fff",
      alive := true)
  }

  /** A live particle at (x, y), as every particle is right after `spawn(x, y)`. */
  predicate AtPointer(k: ParticleState, x: real, y: real) {
    k.alive && k.x == x && k.y == y
  }

  /**
   * The state of a particle after `spawn(x, y)`: `init(x, y, radius)` followed
   * by the spawn-time wander, colour, drag and launch velocity.
   */
  function Launched(x: real, y: real, d: SpawnDraw, color: string): (r: ParticleState)
    requires ValidLaunch(d)
    ensures r.alive && r.x == x && r.y == y && r.color == color
    ensures 3.0 <= r.radius < 15.0
    ensures 0.9 <= r.drag < MaxDrag && 0.5 <= r.wander < 2.0
    ensures r.theta == d.theta  // the launch heading is not stored
  {
    Initialised(Num(x), Num(y), Num(d.radius), d.theta).(
      wander := d.wander,
      color := color,
      drag := d.drag,
      vx := d.sinLaunch * d.force,
      vy := d.cosLaunch * d.force)
  }

  /** A launched particle starts with each velocity component within the largest force, 8. */
  lemma LaunchSpeed(x: real, y: real, d: SpawnDraw, color: string)
    requires ValidLaunch(d)
    ensures -8.0 <= Launched(x, y, d, color).vx <= 8.0
    ensures -8.0 <= Launched(x, y, d, color).vy <= 8.0
  {
    UnitTimesForce(d.sinLaunch, d.force);
    UnitTimesForce(d.cosLaunch, d.force);
  }

  /**
   * One `move`: the position advances by the old velocity, the velocity is
   * damped by drag and then pushed along the new heading, the radius shrinks
   * and liveness is recomputed from it.
   */
  function Moved(k: ParticleState, w: Wobble): (r: ParticleState)
    ensures r.alive <==> r.radius > MinRadius
    ensures k.radius > 0.0 ==> 0.0 < r.radius < k.radius
    ensures r.x == k.x + k.vx && r.y == k.y + k.vy
    ensures r.vx - w.sin * 0.1 == k.vx * k.drag
    ensures r.vy - w.cos * 0.1 == k.vy * k.drag
    ensures r.theta == k.theta + w.turn * k.wander
    ensures r.wander == k.wander && r.drag == k.drag && r.color == k.color
  {
    var vx := k.vx * k.drag;
    var vy := k.vy * k.drag;
    var theta := k.theta + w.turn * k.wander;
    var radius := k.radius * 0.96;
    k.(x := k.x + k.vx, y := k.y + k.vy,
       vx := vx + w.sin * 0.1, vy := vy + w.cos * 0.1,
       theta := theta,
       radius := radius,
       alive := radius > MinRadius)
  }

  /**
   * One frame of `animate` on the states of the active list: every live
   * particle moves with its own random inputs, every dead one is left as it is.
   */
  function Stepped(ks: seq<ParticleState>, ws: seq<Wobble>): (r: seq<ParticleState>)
    requires |ws| == |ks|
    ensures |r| == |ks|
  {
    if ks == [] then []
    else [if ks[0].alive then Moved(ks[0], ws[0]) else ks[0]] + Stepped(ks[1..], ws[1..])
  }

  /** Index i of a frame: moved exactly when it was alive. */
  lemma {:induction false} SteppedAt(ks: seq<ParticleState>, ws: seq<Wobble>, i: nat)
    requires |ws| == |ks| && i < |ks|
    ensures Stepped(ks, ws)[i] == if ks[i].alive then Moved(ks[i], ws[i]) else ks[i]
  {
    if i > 0 {
      SteppedAt(ks[1..], ws[1..], i - 1);
    }
  }

  /** The state after the moves of `ws`, first to last. */
  function MovedAll(k: ParticleState, ws: seq<Wobble>): (r: ParticleState)
    ensures r.wander == k.wander && r.drag == k.drag && r.color == k.color
    ensures ws != [] ==> (r.alive <==> r.radius > MinRadius)
    decreases |ws|
  {
    if ws == [] then k else Moved(MovedAll(k, ws[..|ws| - 1]), ws[|ws| - 1])
  }

  /** The radius after `n` moves from radius `r0`: r0 * 0.96^n. */
  function RadiusAfter(r0: real, n: nat): (r: real) {
    if n == 0 then r0 else RadiusAfter(r0, n - 1) * 0.96
  }

  /** Liveness after any positive number of moves depends on the starting radius alone. */
  lemma {:induction false} MovedAllRadius(k: ParticleState, ws: seq<Wobble>)
    ensures MovedAll(k, ws).radius == RadiusAfter(k.radius, |ws|)
    ensures ws != [] ==> (MovedAll(k, ws).alive <==> RadiusAfter(k.radius, |ws|) > MinRadius)
    decreases |ws|
  {
    if ws != [] {
      MovedAllRadius(k, ws[..|ws| - 1]);
    }
  }

  /** A positive radius only ever shrinks. */
  lemma {:induction false} RadiusShrinks(r0: real, m: nat, n: nat)
    requires r0 > 0.0 && m <= n
    ensures 0.0 < RadiusAfter(r0, n) <= RadiusAfter(r0, m)
    ensures m < n ==> RadiusAfter(r0, n) < RadiusAfter(r0, m)
    decreases n
  {
    if n > 0 {
      if m == n {
        RadiusShrinks(r0, m - 1, n - 1);
      } else {
        RadiusShrinks(r0, m, n - 1);
      }
    }
  }

  /** Once a particle is dead it stays dead under any further moves. */
  lemma DeadStaysDead(k: ParticleState, ws: seq<Wobble>, more: seq<Wobble>)
    requires k.radius > 0.0 && ws != [] && !MovedAll(k, ws).alive
    ensures !MovedAll(k, ws + more).alive
  {
    MovedAllRadius(k, ws);
    MovedAllRadius(k, ws + more);
    RadiusShrinks(k.radius, |ws|, |ws + more|);
  }

  /** Pow96(n) == 0.96^n. */
  function Pow96(n: nat): (r: real) {
    if n == 0 then 1.0 else Pow96(n - 1) * 0.96
  }

  lemma {:induction false} RadiusAfterIsPower(r0: real, n: nat)
    ensures RadiusAfter(r0, n) == r0 * Pow96(n)
  {
    if n > 0 {
      RadiusAfterIsPower(r0, n - 1);
    }
  }

  lemma {:induction false} Pow96Add(a: nat, b: nat)
    ensures Pow96(a + b) == Pow96(a) * Pow96(b)
    decreases b
  {
    if b > 0 {
      Pow96Add(a, b - 1);
    }
  }

  /** Exact values of 0.96^n for the exponents the lifetime bounds are built from. */
  lemma Pow96Table()
    ensures Pow96(3) == 0.884736
    ensures Pow96(4) == 0.84934656
    ensures Pow96(8) == 0.7213895789838336
    ensures Pow96(16) == 0.52040292466647269602037015248896
    ensures Pow96(32) == 0.2708192040014184559945134363758220403329915059847434832829218816
  {
    assert Pow96(1) == 0.96;
    Pow96Add(1, 1);
    Pow96Add(2, 1);
    Pow96Add(2, 2);
    Pow96Add(4, 4);
    Pow96Add(8, 8);
    Pow96Add(16, 16);
  }

  /**
   * A spawned particle (radius drawn from [3, 15)) is still alive after 43
   * moves and is dead after 84: its lifetime lies between 44 and 84 frames.
   */
  lemma SpawnedLifetime(r0: real)
    requires 3.0 <= r0 < 15.0
    ensures RadiusAfter(r0, 43) > MinRadius
    ensures RadiusAfter(r0, 84) < MinRadius
  {
    RadiusAfterIsPower(r0, 43);
    RadiusAfterIsPower(r0, 84);
    Pow96Table();
    Pow96Add(8, 3);
    Pow96Add(32, 11);
    Pow96Add(32, 32);
    Pow96Add(16, 4);
    Pow96Add(64, 20);
  }

  /**
   * Drag keeps the speed bounded: with drag in [0, 0.99), a velocity
   * component within [-10, 10] stays there whatever wander injects.
   */
  lemma {:induction false} SpeedStaysBounded(k: ParticleState, ws: seq<Wobble>)
    requires 0.0 <= k.drag < MaxDrag
    requires -10.0 <= k.vx <= 10.0 && -10.0 <= k.vy <= 10.0
    requires forall i :: 0 <= i < |ws| ==> ValidWobble(ws[i])
    ensures -10.0 <= MovedAll(k, ws).vx <= 10.0
    ensures -10.0 <= MovedAll(k, ws).vy <= 10.0
    ensures MovedAll(k, ws).drag == k.drag
    decreases |ws|
  {
    if ws != [] {
      var prev := ws[..|ws| - 1];
      SpeedStaysBounded(k, prev);
      MoveKeepsSpeed(MovedAll(k, prev), ws[|ws| - 1]);
    }
  }

  /** One move keeps each velocity component within [-10, 10]. */
  lemma MoveKeepsSpeed(p: ParticleState, w: Wobble)
    requires 0.0 <= p.drag < MaxDrag && ValidWobble(w)
    requires -10.0 <= p.vx <= 10.0 && -10.0 <= p.vy <= 10.0
    ensures -10.0 <= Moved(p, w).vx <= 10.0 && -10.0 <= Moved(p, w).vy <= 10.0
  {
    DampedBound(p.vx, p.drag);
    DampedBound(p.vy, p.drag);
  }

  lemma DampedBound(v: real, drag: real)
    requires 0.0 <= drag < 0.99 && -10.0 <= v <= 10.0
    ensures -9.9 <= v * drag <= 9.9
  {
    MulMono(v, 10.0, drag);
    MulMono(-10.0, v, drag);
  }

  lemma UnitTimesForce(s: real, force: real)
    requires -1.0 <= s <= 1.0 && 0.0 <= force < 8.0
    ensures -8.0 <= s * force <= 8.0
  {
    MulMono(s, 1.0, force);
    MulMono(-1.0, s, force);
  }

  lemma MulMono(a: real, b: real, c: real)
    requires a <= b && 0.0 <= c
    ensures a * c <= b * c
  {
  }
}
