/**
 * The mutable Particle object: `init` and `move` assign its fields in place,
 * and each is proved to leave exactly the state the Kinematics functions give.
 */
module Particles {
  import opened Kinematics

  class Particle {
    var x: real
    var y: real
    var vx: real
    var vy: real
    var theta: real
    var radius: real
    var wander: real
    var drag: real
    var color: string
    var alive: bool

    /** All fields as one value. */
    function State(): ParticleState
      reads this
    {
      ParticleState(x, y, vx, vy, theta, radius, wander, drag, color, alive)
    }

    /** `new Particle(x, y, radius)`: the constructor runs `init` with its arguments. */
    constructor (x0: Arg, y0: Arg, radius0: Arg, theta0: real)
      requires 0.0 <= theta0 < TwoPi
      ensures State() == Initialised(x0, y0, radius0, theta0)
    {
      new;
      Init(x0, y0, radius0, theta0);
    }

    /**
     * `init(x, y, radius)`: overwrites every field, so nothing of the previous
     * life of a pooled particle survives. `theta0` is the random(2π) draw.
     */
    method Init(x0: Arg, y0: Arg, radius0: Arg, theta0: real)
      requires 0.0 <= theta0 < TwoPi
      modifies this
      ensures State() == Initialised(x0, y0, radius0, theta0)
    {
      alive := true;
      radius := OrDefault(radius0, 10.0);
      wander := 0.15;
      theta := theta0;
      drag := 0.92;
      color := "#fff";
      x := OrDefault(x0, 0.0);
      y := OrDefault(y0, 0.0);
      vx := 0.0;
      vy := 0.0;
    }

    /** `move()`: one simulation step; `w` holds the random turn and the sin/cos of the new heading. */
    method Move(w: Wobble)
      requires ValidWobble(w)
      modifies this
      ensures State() == Moved(old(State()), w)
    {
      x := x + vx;
      y := y + vy;
      vx := vx * drag;
      vy := vy * drag;
      theta := theta + w.turn * wander;
      vx := vx + w.sin * 0.1;
      vy := vy + w.cos * 0.1;
      radius := radius * 0.96;
      alive := radius > MinRadius;
    }
  }

  /** The `alive` flags of a list of particles, index by index. */
  function AliveFlags(ps: seq<Particle>): (r: seq<bool>)
    reads ps
    ensures |r| == |ps| && forall i :: 0 <= i < |ps| ==> r[i] == ps[i].alive
  {
    if ps == [] then [] else [ps[0].alive] + AliveFlags(ps[1..])
  }

  /** The states of a list of particles, index by index. */
  function States(ps: seq<Particle>): (r: seq<ParticleState>)
    reads ps
    ensures |r| == |ps| && forall i :: 0 <= i < |ps| ==> r[i] == ps[i].State()
  {
    if ps == [] then [] else [ps[0].State()] + States(ps[1..])
  }

  /** The states of a list are fixed by its particles' states index by index. */
  lemma StatesAre(ps: seq<Particle>, target: seq<ParticleState>)
    requires |ps| == |target| && forall j :: 0 <= j < |ps| ==> ps[j].State() == target[j]
    ensures States(ps) == target
  {
  }
}
