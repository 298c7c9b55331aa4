/**
 * The Controller process (process_Drone.c).  Each tick it takes at most one
 * key, one position override from the Coordinator and one repulsion sample,
 * updates the steering state (the active key and its boost level), adds the
 * force of the active key to the one-shot repulsion push and advances a
 * damped second-order integrator whose history is three positions per axis.
 * The new position goes back to the Coordinator as "%d,%d".
 *
 * Physics is idealised over `real`: the model is exact arithmetic, not IEEE
 * single precision.
 */
module Controller {
  import opened CText
  import Params

  /** The NUL character `get_opposite_key` returns for a non-direction. */
  const NoKey: char := 0 as char

  /** The eight direction keys, laid out around `d` on the keyboard. */
  predicate IsDirection(c: char) {
    c == 'w' || c == 'e' || c == 'r' || c == 's' || c == 'f' || c == 'x' || c == 'c' || c == 'v'
  }

  predicate IsDiagonal(c: char) {
    c == 'w' || c == 'r' || c == 'x' || c == 'v'
  }

  /** get_opposite_key: the direction pointing the other way, NUL for any other character. */
  function OppositeKey(key: char): (r: char)
    ensures IsDirection(key) ==> IsDirection(r) && r != key && (IsDiagonal(r) <==> IsDiagonal(key))
    ensures !IsDirection(key) ==> r == NoKey
  {
    match key
    case 'w' => 'v'
    case 'e' => 'c'
    case 'r' => 'x'
    case 's' => 'f'
    case 'f' => 's'
    case 'x' => 'r'
    case 'c' => 'e'
    case 'v' => 'w'
    case _ => NoKey
  }

  /** Taking the opposite twice gives the key back. */
  lemma OppositeInvolution(key: char)
    requires IsDirection(key)
    ensures OppositeKey(OppositeKey(key)) == key
  {
  }

  // ---------------------------------------------------------------- steering

  /** The key currently driving the physics and its boost level (each level adds 20%). */
  datatype Steering = Steering(active: char, boost: int)

  const MaxBoost := 2

  /** The steering state at start-up and after a brake. */
  const Idle := Steering(' ', 0)

  /** Keys that leave the steering alone: no key, quit, and pause (its wait is not modelled). */
  predicate Inert(key: char) {
    key == ' ' || key == NoKey || key == 'q' || key == 'p'
  }

  /**
   * The key handling of the main loop: `d` brakes, the active key raises the
   * boost up to 2, its opposite lowers it and reverses the direction once it
   * would drop below 0, and any other key takes over at boost 0.
   */
  function Steer(s: Steering, key: char): (r: Steering)
    ensures Inert(key) ==> r == s
    ensures key == 'd' ==> r == Idle
    ensures 0 <= s.boost <= MaxBoost ==> 0 <= r.boost <= MaxBoost
    ensures r.active != s.active ==> r.boost == 0 && r.active == (if key == 'd' then ' ' else key)
    ensures 0 <= s.boost < r.boost ==> key == s.active && r.boost == s.boost + 1
    ensures !Inert(key) && key != 'd' && key != s.active && key != OppositeKey(s.active) ==> r == Steering(key, 0)
  {
    if Inert(key) then s
    else if key == 'd' then Idle
    else if key == s.active then Steering(s.active, if s.boost < MaxBoost then s.boost + 1 else s.boost)
    else if key == OppositeKey(s.active) then
      if s.boost - 1 < 0 then Steering(key, 0) else Steering(s.active, s.boost - 1)
    else Steering(key, 0)
  }

  /** The steering after a sequence of keys, one per tick. */
  function SteerAll(s: Steering, keys: seq<char>): Steering
    decreases |keys|, 1
  {
    if keys == [] then s else SteerFrom(s, keys)
  }

  /** The steering after the first of `keys`, then the rest. */
  function SteerFrom(s: Steering, keys: seq<char>): Steering
    requires keys != []
    decreases |keys|, 0
  {
    SteerAll(Steer(s, keys[0]), keys[1..])
  }

  function Repeat(c: char, n: nat): (r: seq<char>)
    ensures |r| == n && forall i :: 0 <= i < n ==> r[i] == c
  {
    if n == 0 then [] else [c] + Repeat(c, n - 1)
  }

  /** A key the steering can hold as its active key. */
  predicate Holdable(c: char) {
    c != ' ' && !Inert(c) && c != 'd'
  }

  /** Pressing the active key n times adds n boost levels, saturating at 2. */
  lemma {:induction false} PressActiveRepeatedly(s: Steering, n: nat)
    requires Holdable(s.active) && 0 <= s.boost <= MaxBoost
    ensures SteerAll(s, Repeat(s.active, n)) == Steering(s.active, if s.boost + n < MaxBoost then s.boost + n else MaxBoost)
    decreases n
  {
    if n > 0 {
      var keys := Repeat(s.active, n);
      assert keys[1..] == Repeat(s.active, n - 1);
      assert SteerAll(s, keys) == SteerFrom(s, keys);
      PressActiveRepeatedly(Steer(s, s.active), n - 1);
    }
  }

  /**
   * Pressing the opposite of a direction key takes the boost down one level
   * per press; one press more than the boost reverses the direction at level 0.
   */
  lemma {:induction false} PressOppositeRepeatedly(s: Steering, n: nat)
    requires IsDirection(s.active) && 0 <= s.boost <= MaxBoost && n <= s.boost + 1
    ensures SteerAll(s, Repeat(OppositeKey(s.active), n))
         == if n <= s.boost then Steering(s.active, s.boost - n) else Steering(OppositeKey(s.active), 0)
    decreases n
  {
    if n > 0 {
      var o := OppositeKey(s.active);
      var keys := Repeat(o, n);
      assert keys[1..] == Repeat(o, n - 1);
      assert SteerAll(s, keys) == SteerFrom(s, keys);
      if s.boost == 0 {
        assert Steer(s, o) == Steering(o, 0);
        assert n == 1 && keys[1..] == [];
        assert SteerFrom(s, keys) == SteerAll(Steering(o, 0), []);
      } else {
        PressOppositeRepeatedly(Steer(s, o), n - 1);
      }
    }
  }

  // ------------------------------------------------------------------- force

  /** M_SQRT1_2, the per-axis share of a diagonal push. */
  const SqrtHalf: real := 0.70710678118654752440

  /** 1.0 + boost_level * 0.2 */
  function Multiplier(boost: int): real {
    1.0 + boost as real * 0.2
  }

  /**
   * The force the active key produces, in screen axes (y grows downwards): an
   * orthogonal key pushes along one axis with `force`, a diagonal key along
   * both with `force * SqrtHalf`, both scaled by the boost; any other key
   * gives no force.
   */
  function Force(key: char, boost: int, force: real): (f: (real, real))
    ensures !IsDirection(key) ==> f == (0.0, 0.0)
    ensures IsDirection(key) && !IsDiagonal(key) ==>
      var cur := Strength(boost, force);
      (f.0 == 0.0 && (f.1 == cur || f.1 == -cur)) || (f.1 == 0.0 && (f.0 == cur || f.0 == -cur))
    ensures IsDiagonal(key) ==>
      var diag := DiagonalStrength(boost, force);
      (f.0 == diag || f.0 == -diag) && (f.1 == diag || f.1 == -diag)
  {
    var cur := Strength(boost, force);
    var diag := DiagonalStrength(boost, force);
    match key
    case 'e' => (0.0, -cur)
    case 'c' => (0.0, cur)
    case 's' => (-cur, 0.0)
    case 'f' => (cur, 0.0)
    case 'w' => (-diag, -diag)
    case 'r' => (diag, -diag)
    case 'x' => (-diag, diag)
    case 'v' => (diag, diag)
    case _ => (0.0, 0.0)
  }

  /** cur_force: the strength of an orthogonal push at this boost. */
  function Strength(boost: int, force: real): real {
    force * Multiplier(boost)
  }

  /** cur_diag: the per-axis strength of a diagonal push at this boost. */
  function DiagonalStrength(boost: int, force: real): real {
    force * SqrtHalf * Multiplier(boost)
  }

  /** Opposite keys push in opposite directions with the same strength. */
  lemma {:induction false} ForceOpposite(key: char, boost: int, force: real)
    requires IsDirection(key)
    ensures Force(OppositeKey(key), boost, force) == (-Force(key, boost, force).0, -Force(key, boost, force).1)
  {
    var cur := Strength(boost, force);
    var diag := DiagonalStrength(boost, force);
    assert -(-cur) == cur && -(-diag) == diag;
  }

  // --------------------------------------------------------------- repulsion

  /** A repulsion message "%f,%f,%f": distance to the obstacle or edge and the offset away from it. */
  datatype Sample = Sample(distance: real, dx: real, dy: real)

  const MaxRepulsion: real := 10.0

  /** The factor between physics and screen cells. */
  const RepulsionScale: real := 200.0

  /** The repulsion magnitude 200 * eta / d^2 * (1/d - 1/rph), before the cap. */
  function Magnitude(eta: real, rph: real, d: real): real
    requires d != 0.0 && rph != 0.0
  {
    RepulsionScale * eta * (1.0 / (d * d)) * (1.0 / d - 1.0 / rph)
  }

  /** The cap at MAX_REPULSION, which bounds the magnitude from above only. */
  function Capped(m: real): (r: real)
    ensures r <= MaxRepulsion && r <= m
    ensures m <= MaxRepulsion ==> r == m
  {
    if m > MaxRepulsion then MaxRepulsion else m
  }

  /** The push of one sample: the capped magnitude along the unit offset (dx, dy) / d. */
  function Push(s: Sample, eta: real, rph: real): (real, real)
    requires s.distance != 0.0 && rph != 0.0
  {
    var m := Capped(Magnitude(eta, rph, s.distance));
    (m * (s.dx / s.distance), m * (s.dy / s.distance))
  }

  /** The push points along the sample's offset (dx, dy), away from the obstacle or edge. */
  lemma PushAlongOffset(s: Sample, eta: real, rph: real)
    requires s.distance != 0.0 && rph != 0.0
    ensures var p := Push(s, eta, rph);
            p.0 * s.dy == p.1 * s.dx
  {
    var m := Capped(Magnitude(eta, rph, s.distance));
    var ux := s.dx / s.distance;
    var uy := s.dy / s.distance;
    assert ux * s.dy == uy * s.dx by {
      assert ux * s.distance == s.dx && uy * s.distance == s.dy;
      assert ux * s.dy * s.distance == uy * s.dx * s.distance;
    }
    assert (m * ux) * s.dy == m * (ux * s.dy);
    assert (m * uy) * s.dx == m * (uy * s.dx);
  }

  /** When the offset is as long as the distance, the push is exactly as strong as the capped magnitude. */
  lemma PushLength(s: Sample, eta: real, rph: real)
    requires s.distance != 0.0 && rph != 0.0
    requires s.dx * s.dx + s.dy * s.dy == s.distance * s.distance
    ensures var p := Push(s, eta, rph);
            var m := Capped(Magnitude(eta, rph, s.distance));
            p.0 * p.0 + p.1 * p.1 == m * m
  {
    var d := s.distance;
    var m := Capped(Magnitude(eta, rph, d));
    var ux := s.dx / d;
    var uy := s.dy / d;
    assert ux * d == s.dx && uy * d == s.dy;
    assert (ux * ux + uy * uy) * (d * d) == s.dx * s.dx + s.dy * s.dy;
    assert ux * ux + uy * uy == 1.0;
    assert (m * ux) * (m * ux) + (m * uy) * (m * uy) == m * m * (ux * ux + uy * uy);
  }

  // -------------------------------------------------------------- integrator

  /** The physics is defined when the integrator's denominator m + k*T and the radius are nonzero. */
  predicate Defined(mass: real, k: real, T: real, rph: real) {
    mass + k * T != 0.0 && rph != 0.0
  }

  /** One integrator step per axis: the new position from the force and the two previous positions. */
  function Step(force: real, prev: real, prev2: real, mass: real, k: real, T: real): real
    requires mass + k * T != 0.0
  {
    (force * T * T + prev * (2.0 * mass + k * T) - mass * prev2) / (mass + k * T)
  }

  /**
   * The step solves the discretised equation of motion m * a + k * v = F,
   * with a = (x - 2 prev + prev2) / T^2 and v = (x - prev) / T, multiplied
   * through by T^2.
   */
  lemma StepSolvesMotion(force: real, prev: real, prev2: real, mass: real, k: real, T: real)
    requires mass + k * T != 0.0
    ensures var x := Step(force, prev, prev2, mass, k, T);
            mass * (x - 2.0 * prev + prev2) + k * T * (x - prev) == force * T * T
  {
    var denom := mass + k * T;
    var num := force * T * T + prev * (2.0 * mass + k * T) - mass * prev2;
    var x := num / denom;
    assert x * denom == num;
    assert mass * (x - 2.0 * prev + prev2) + k * T * (x - prev) == x * denom - prev * (2.0 * mass + k * T) + mass * prev2;
  }

  /** The step is the only position that satisfies the equation of motion. */
  lemma StepUnique(force: real, prev: real, prev2: real, mass: real, k: real, T: real, x: real)
    requires mass + k * T != 0.0
    requires mass * (x - 2.0 * prev + prev2) + k * T * (x - prev) == force * T * T
    ensures x == Step(force, prev, prev2, mass, k, T)
  {
    var y := Step(force, prev, prev2, mass, k, T);
    StepSolvesMotion(force, prev, prev2, mass, k, T);
    assert (x - y) * (mass + k * T) == 0.0;
  }

  /** A drone at rest with no force on it stays where it is. */
  lemma AtRest(x0: real, mass: real, k: real, T: real)
    requires mass + k * T != 0.0
    ensures Step(0.0, x0, x0, mass, k, T) == x0
  {
    StepUnique(0.0, x0, x0, mass, k, T, x0);
  }

  /** Without damping or force, the drone keeps its velocity: x - prev == prev - prev2. */
  lemma Inertia(prev: real, prev2: real, mass: real, T: real)
    requires mass != 0.0
    ensures Step(0.0, prev, prev2, mass, 0.0, T) == 2.0 * prev - prev2
  {
    StepUnique(0.0, prev, prev2, mass, 0.0, T, 2.0 * prev - prev2);
  }

  /** `(int)r`: truncation toward zero. */
  function Trunc(r: real): (n: int)
    ensures 0.0 <= r ==> n as real <= r < n as real + 1.0
    ensures r < 0.0 ==> n as real - 1.0 < r <= n as real
  {
    if r >= 0.0 then r.Floor else -((-r).Floor)
  }

  // ------------------------------------------------------------------- ticks

  /** The force of one tick: the active key's force plus the pending push, if any. */
  function Total(s: Steering, pending: bool, sample: Sample, force: real, eta: real, rph: real): (real, real)
    requires pending ==> sample.distance != 0.0 && rph != 0.0
  {
    var f := Force(s.active, s.boost, force);
    var p := if pending then Push(sample, eta, rph) else (0.0, 0.0);
    (f.0 + p.0, f.1 + p.1)
  }

  /** What one `read` on a pipe gave this tick: nothing ready, a message, or end of file. */
  datatype Read<T> = Quiet | Got(value: T) | Closed

  /**
   * The inputs of one tick of the main loop: the termination request, the
   * three pipes (keyboard, Coordinator, repulsion) and whether the position
   * write to the Coordinator succeeded.
   */
  datatype TickInput = TickInput(
    terminate: bool,
    key: Read<char>,
    position: Read<(real, real)>,
    sample: Read<Sample>,
    written: bool)

  /** The key the tick acts on: the one just read, or a blank when none came. */
  function KeyOf(r: Read<char>): char {
    if r.Got? then r.value else ' '
  }

  /** A tick after which the loop goes on: no pipe closed, no `q`, and the position was written. */
  predicate Continues(t: TickInput) {
    !t.key.Closed? && !t.position.Closed? && !t.sample.Closed? && KeyOf(t.key) != 'q' && t.written
  }

  /** Every repulsion sample the inputs carry has a nonzero distance. */
  predicate SamplesDefined(inputs: seq<TickInput>) {
    forall i :: 0 <= i < |inputs| ==> (inputs[i].sample.Got? ==> inputs[i].sample.value.distance != 0.0)
  }

  /**
   * What a tick works on: the steering, the pending push and its sample, and
   * the two previous positions of each axis.
   */
  datatype Motion = Motion(steering: Steering, repul: bool, sample: Sample, xPrev: real, xPrev2: real, yPrev: real, yPrev2: real)

  /** A pending push has a sample it can be computed from. */
  predicate PushDefined(m: Motion) {
    m.repul ==> m.sample.distance != 0.0
  }

  /** The position message written after a tick that reached `m`. */
  function Report(m: Motion): seq<char> {
    FormatPair(Trunc(m.xPrev), Trunc(m.yPrev))
  }

  class Drone {
    const mass: real
    const k: real
    /** The time step in seconds. */
    const T: real
    const force: real
    const eta: real
    const rph: real

    var activeKey: char
    var boost: int
    var running: bool
    /** Set when a repulsion sample arrives, cleared once its push has been applied. */
    var repul: bool
    var sample: Sample
    var xPrev: real
    var xPrev2: real
    var yPrev: real
    var yPrev2: real
    var xCurr: real
    var yCurr: real

    ghost predicate Valid()
      reads this
    {
      0 <= boost <= MaxBoost && Defined(mass, k, T, rph) && (repul ==> sample.distance != 0.0)
    }

    function Current(): Steering
      reads this
    {
      Steering(activeKey, boost)
    }

    function State(): Motion
      reads this
    {
      Motion(Current(), repul, sample, xPrev, xPrev2, yPrev, yPrev2)
    }

    /**
     * One tick on values: the override and the sample of `input` are taken,
     * its key steers, and one integrator step under the total force moves
     * each axis; the push is then spent.
     */
    function TickMotion(m: Motion, input: TickInput): (r: Motion)
      requires Defined(mass, k, T, rph) && PushDefined(m)
      requires input.sample.Got? ==> input.sample.value.distance != 0.0
      ensures !r.repul && r.steering == Steer(m.steering, KeyOf(input.key))
      ensures input.position.Got? ==> r.xPrev2 == input.position.value.0 && r.yPrev2 == input.position.value.1
      ensures !input.position.Got? ==> r.xPrev2 == m.xPrev && r.yPrev2 == m.yPrev
    {
      var over := input.position.Got?;
      var x1 := if over then input.position.value.0 else m.xPrev;
      var x2 := if over then input.position.value.0 else m.xPrev2;
      var y1 := if over then input.position.value.1 else m.yPrev;
      var y2 := if over then input.position.value.1 else m.yPrev2;
      var s := Steer(m.steering, KeyOf(input.key));
      var smp := if input.sample.Got? then input.sample.value else m.sample;
      var f := Total(s, m.repul || input.sample.Got?, smp, force, eta, rph);
      Motion(s, false, smp, Step(f.0, x1, x2, mass, k, T), x1, Step(f.1, y1, y2, mass, k, T), y1)
    }

    /** What Tick states about the new state is TickMotion. */
    lemma TickOf(p: Motion, q: Motion, input: TickInput)
      requires Defined(mass, k, T, rph) && PushDefined(p)
      requires input.sample.Got? ==> input.sample.value.distance != 0.0
      requires q.steering == Steer(p.steering, KeyOf(input.key)) && !q.repul
      requires q.sample == if input.sample.Got? then input.sample.value else p.sample
      requires var over := input.position.Got?;
        var x1 := if over then input.position.value.0 else p.xPrev;
        var x2 := if over then input.position.value.0 else p.xPrev2;
        var y1 := if over then input.position.value.1 else p.yPrev;
        var y2 := if over then input.position.value.1 else p.yPrev2;
        var f := Total(q.steering, p.repul || input.sample.Got?, q.sample, force, eta, rph);
        q.xPrev == Step(f.0, x1, x2, mass, k, T) && q.xPrev2 == x1
        && q.yPrev == Step(f.1, y1, y2, mass, k, T) && q.yPrev2 == y1
      ensures q == TickMotion(p, input)
    {
    }

    /** The state after the first `n` ticks of `inputs`, in order, from `m`. */
    function Trace(m: Motion, inputs: seq<TickInput>, n: nat): (r: Motion)
      requires Defined(mass, k, T, rph) && PushDefined(m) && SamplesDefined(inputs) && n <= |inputs|
      ensures PushDefined(r)
      decreases n, 1
    {
      if n == 0 then m else TraceLast(m, inputs, n)
    }

    /** Tick n - 1, after the ticks before it. */
    function TraceLast(m: Motion, inputs: seq<TickInput>, n: nat): (r: Motion)
      requires Defined(mass, k, T, rph) && PushDefined(m) && SamplesDefined(inputs) && 0 < n <= |inputs|
      ensures !r.repul
      decreases n, 0
    {
      TickMotion(Trace(m, inputs, n - 1), inputs[n - 1])
    }

    /** The position messages of the first `n` ticks of `inputs` from `m`, one per tick. */
    function Messages(m: Motion, inputs: seq<TickInput>, n: nat): (ms: seq<seq<char>>)
      requires Defined(mass, k, T, rph) && PushDefined(m) && SamplesDefined(inputs) && n <= |inputs|
      ensures |ms| == n
    {
      if n == 0 then [] else Messages(m, inputs, n - 1) + [Report(Trace(m, inputs, n))]
    }

    /** The steering after some ticks is the keys they read, applied in order. */
    lemma {:induction false} TraceSteers(m: Motion, inputs: seq<TickInput>, n: nat)
      requires Defined(mass, k, T, rph) && PushDefined(m) && SamplesDefined(inputs) && n <= |inputs|
      ensures Trace(m, inputs, n).steering == SteerAll(m.steering, KeysOf(inputs[..n]))
    {
      if n > 0 {
        assert Trace(m, inputs, n) == TickMotion(Trace(m, inputs, n - 1), inputs[n - 1]);
        TraceSteers(m, inputs, n - 1);
        assert inputs[..n] == inputs[..n - 1] + [inputs[n - 1]];
        KeysOfSnoc(inputs[..n - 1], inputs[n - 1]);
        SteerAllSnoc(m.steering, KeysOf(inputs[..n - 1]), KeyOf(inputs[n - 1].key));
      }
    }

    /** Tick i writes the position the drone reached after the first i + 1 ticks. */
    lemma {:induction false} MessagesAt(m: Motion, inputs: seq<TickInput>, n: nat)
      requires Defined(mass, k, T, rph) && PushDefined(m) && SamplesDefined(inputs) && n <= |inputs|
      ensures forall i :: 0 <= i < n ==> Messages(m, inputs, n)[i] == Report(Trace(m, inputs, i + 1))
    {
      if n > 0 {
        MessagesAt(m, inputs, n - 1);
      }
    }

    /**
     * Start-up with the parameters read from the parameter file and the first
     * position the Coordinator sends: all three history slots of each axis
     * hold that position, no key is active and no push is pending.
     */
    constructor (p: Params.Parameters, x0: real, y0: real)
      requires Defined(p.mass as real, p.k as real, p.t as real / 1000.0, p.rph as real)
      ensures Valid() && running && !repul
      ensures Current() == Idle
      ensures xCurr == xPrev == xPrev2 == x0 && yCurr == yPrev == yPrev2 == y0
      ensures mass == p.mass as real && k == p.k as real && T == p.t as real / 1000.0
      ensures force == p.force as real && eta == p.eta && rph == p.rph as real
    {
      mass, k, T := p.mass as real, p.k as real, p.t as real / 1000.0;
      force, eta, rph := p.force as real, p.eta, p.rph as real;
      activeKey, boost := ' ', 0;
      running, repul := true, false;
      sample := Sample(1.0, 0.0, 0.0);
      xCurr, yCurr := x0, y0;
      xPrev, xPrev2 := x0, x0;
      yPrev, yPrev2 := y0, y0;
    }

    /**
     * The three reads of a tick.  A closed keyboard or Coordinator pipe, or a
     * repulsion pipe at end of file, clears `running`; a position override
     * sets both history slots of each axis; a sample arms the one-shot push.
     */
    method Receive(input: TickInput)
      requires Valid()
      requires input.sample.Got? ==> input.sample.value.distance != 0.0
      modifies this
      ensures Valid()
      ensures running == (old(running) && !input.key.Closed? && !input.position.Closed? && !input.sample.Closed?)
      ensures input.position.Got? ==>
        xPrev == xPrev2 == input.position.value.0 && yPrev == yPrev2 == input.position.value.1
      ensures !input.position.Got? ==>
        xPrev == old(xPrev) && xPrev2 == old(xPrev2) && yPrev == old(yPrev) && yPrev2 == old(yPrev2)
      ensures repul == (old(repul) || input.sample.Got?)
      ensures sample == if input.sample.Got? then input.sample.value else old(sample)
      ensures Current() == old(Current()) && xCurr == old(xCurr) && yCurr == old(yCurr)
    {
      if input.key.Closed? {
        running := false;
      }
      match input.position {
        case Got(pos) =>
          xPrev, xPrev2 := pos.0, pos.0;
          yPrev, yPrev2 := pos.1, pos.1;
        case Closed =>
          running := false;
        case Quiet =>
      }
      match input.sample {
        case Got(s) =>
          sample := s;
          repul := true;
        case Closed =>
          running := false;
        case Quiet =>
      }
    }

    /** The key handling of one tick; `q` also clears `running`. */
    method PressKey(key: char)
      requires Valid()
      modifies this
      ensures Valid()
      ensures Current() == Steer(old(Current()), key)
      ensures running == (old(running) && key != 'q')
      ensures repul == old(repul) && sample == old(sample)
      ensures xPrev == old(xPrev) && xPrev2 == old(xPrev2) && yPrev == old(yPrev) && yPrev2 == old(yPrev2)
      ensures xCurr == old(xCurr) && yCurr == old(yCurr)
    {
      if key != ' ' && key != NoKey {
        if key == 'q' {
          running := false;
        } else if key == 'd' {
          boost := 0;
          activeKey := ' ';
        } else if key == 'p' {
          // the wait for `u` consumes keys without acting on them
        } else if key == activeKey {
          if boost < MaxBoost {
            boost := boost + 1;
          }
        } else if key == OppositeKey(activeKey) {
          boost := boost - 1;
          if boost < 0 {
            boost := 0;
            activeKey := key;
          }
        } else {
          boost := 0;
          activeKey := key;
        }
      }
    }

    /** The force on the drone this tick. */
    function TotalForce(): (real, real)
      reads this
      requires Valid()
    {
      Total(Current(), repul, sample, force, eta, rph)
    }

    /**
     * The physics of one tick: the total force drives one integrator step on
     * each axis, the history shifts by one slot, the push is consumed, and
     * the new position is formatted for the Coordinator.
     */
    method Advance() returns (message: seq<char>)
      requires Valid()
      modifies this
      ensures Valid() && !repul
      ensures var f := old(TotalForce());
        xCurr == xPrev == Step(f.0, old(xPrev), old(xPrev2), mass, k, T) && xPrev2 == old(xPrev)
        && yCurr == yPrev == Step(f.1, old(yPrev), old(yPrev2), mass, k, T) && yPrev2 == old(yPrev)
      ensures message == FormatPair(Trunc(xCurr), Trunc(yCurr))
      ensures Current() == old(Current()) && running == old(running) && sample == old(sample)
    {
      var total := TotalForce();
      repul := false;
      var xNew := Step(total.0, xPrev, xPrev2, mass, k, T);
      var yNew := Step(total.1, yPrev, yPrev2, mass, k, T);
      xPrev2, xPrev := xPrev, xNew;
      yPrev2, yPrev := yPrev, yNew;
      xCurr, yCurr := xNew, yNew;
      message := FormatPair(Trunc(xCurr), Trunc(yCurr));
    }

    /**
     * One pass of the main loop after the termination check: read, steer,
     * integrate, and write the position; a failed write clears `running`.
     */
    method Tick(input: TickInput) returns (message: seq<char>)
      requires Valid()
      requires input.sample.Got? ==> input.sample.value.distance != 0.0
      modifies this
      ensures Valid() && !repul
      ensures Current() == Steer(old(Current()), KeyOf(input.key))
      ensures running == (old(running) && Continues(input))
      ensures sample == if input.sample.Got? then input.sample.value else old(sample)
      ensures var over := input.position.Got?;
        var x1 := if over then input.position.value.0 else old(xPrev);
        var x2 := if over then input.position.value.0 else old(xPrev2);
        var y1 := if over then input.position.value.1 else old(yPrev);
        var y2 := if over then input.position.value.1 else old(yPrev2);
        var f := Total(Current(), old(repul) || input.sample.Got?, sample, force, eta, rph);
        xCurr == xPrev == Step(f.0, x1, x2, mass, k, T) && xPrev2 == x1
        && yCurr == yPrev == Step(f.1, y1, y2, mass, k, T) && yPrev2 == y1
      ensures message == FormatPair(Trunc(xCurr), Trunc(yCurr))
    {
      Receive(input);
      PressKey(KeyOf(input.key));
      message := Advance();
      if !input.written {
        running := false;
      }
    }

    /** Tick i of the main loop: the state and the messages extend the trace of the ticks before it by one. */
    method Next(inputs: seq<TickInput>, i: nat, ghost start: Motion) returns (message: seq<char>)
      requires Valid() && SamplesDefined(inputs) && i < |inputs| && PushDefined(start)
      requires State() == Trace(start, inputs, i)
      modifies this
      ensures Valid() && State() == Trace(start, inputs, i + 1)
      ensures Messages(start, inputs, i + 1) == Messages(start, inputs, i) + [message]
      ensures xCurr == xPrev && yCurr == yPrev
      ensures running == (old(running) && Continues(inputs[i]))
    {
      ghost var before := State();
      message := Tick(inputs[i]);
      TickOf(before, State(), inputs[i]);
      assert Trace(start, inputs, i + 1) == TraceLast(start, inputs, i + 1);
    }

    /**
     * The main loop: ticks run while `running` holds and no termination was
     * requested, one position message per tick.  The loop stops after the
     * first tick that does not continue, at a termination request, or when
     * the inputs run out.
     */
    method Run(inputs: seq<TickInput>) returns (messages: seq<seq<char>>)
      requires Valid()
      requires SamplesDefined(inputs)
      modifies this
      ensures Valid()
      ensures |messages| <= |inputs|
      ensures !old(running) ==> messages == []
      ensures forall i :: 0 <= i < |messages| ==> !inputs[i].terminate
      ensures forall i :: 0 <= i < |messages| - 1 ==> Continues(inputs[i])
      ensures running == (old(running) && forall i :: 0 <= i < |messages| ==> Continues(inputs[i]))
      ensures |messages| < |inputs| ==> !running || inputs[|messages|].terminate
      ensures Current() == SteerAll(old(Current()), KeysOf(inputs[..|messages|]))
      ensures State() == Trace(old(State()), inputs, |messages|)
      ensures messages == Messages(old(State()), inputs, |messages|)
      ensures |messages| > 0 ==> xCurr == xPrev && yCurr == yPrev
    {
      messages := [];
      var i := 0;
      ghost var start, wasRunning := State(), running;
      while i < |inputs| && running && !inputs[i].terminate
        invariant 0 <= i <= |inputs| && |messages| == i
        invariant Valid()
        invariant !wasRunning ==> i == 0
        invariant i == 0 || (Went(inputs, i - 1) && !inputs[i - 1].terminate)
        invariant running == (wasRunning && Went(inputs, i))
        invariant State() == Trace(start, inputs, i)
        invariant messages == Messages(start, inputs, i)
        invariant i > 0 ==> xCurr == xPrev && yCurr == yPrev
      {
        var message := Next(inputs, i, start);
        messages := messages + [message];
        i := i + 1;
      }
      TraceSteers(start, inputs, i);
      Ran(inputs, i);
    }
  }

  /** The first `n` ticks ran without a termination request and each of them continued. */
  predicate Went(inputs: seq<TickInput>, n: nat)
    requires n <= |inputs|
  {
    n == 0 || (Went(inputs, n - 1) && !inputs[n - 1].terminate && Continues(inputs[n - 1]))
  }

  /** The first `n` ticks went on exactly when none asked to terminate and each continued. */
  lemma {:induction false} WentEvery(inputs: seq<TickInput>, n: nat)
    requires n <= |inputs|
    ensures Went(inputs, n) <==> forall j :: 0 <= j < n ==> !inputs[j].terminate && Continues(inputs[j])
  {
    if n > 0 {
      WentEvery(inputs, n - 1);
    }
  }

  /**
   * After `n` ticks of a loop that runs a tick only when asked to go on:
   * none of them saw a termination request, all but the last continued, and
   * the loop goes on exactly when every one of them continued.
   */
  lemma Ran(inputs: seq<TickInput>, n: nat)
    requires n <= |inputs|
    requires n == 0 || (Went(inputs, n - 1) && !inputs[n - 1].terminate)
    ensures forall j :: 0 <= j < n ==> !inputs[j].terminate
    ensures forall j :: 0 <= j < n - 1 ==> Continues(inputs[j])
    ensures Went(inputs, n) <==> forall j :: 0 <= j < n ==> Continues(inputs[j])
  {
    WentEvery(inputs, n);
    if n > 0 {
      WentEvery(inputs, n - 1);
    }
  }

  /** The keys the ticks act on. */
  function KeysOf(inputs: seq<TickInput>): (keys: seq<char>)
    ensures |keys| == |inputs|
  {
    if inputs == [] then [] else [KeyOf(inputs[0].key)] + KeysOf(inputs[1..])
  }

  lemma {:induction false} KeysOfSnoc(inputs: seq<TickInput>, t: TickInput)
    ensures KeysOf(inputs + [t]) == KeysOf(inputs) + [KeyOf(t.key)]
  {
    if inputs != [] {
      assert (inputs + [t])[1..] == inputs[1..] + [t];
      KeysOfSnoc(inputs[1..], t);
    }
  }

  lemma {:induction false} SteerAllSnoc(s: Steering, keys: seq<char>, key: char)
    ensures SteerAll(s, keys + [key]) == Steer(SteerAll(s, keys), key)
    decreases keys
  {
    if keys != [] {
      assert (keys + [key])[1..] == keys[1..] + [key];
      assert SteerAll(s, keys) == SteerFrom(s, keys);
      assert (keys + [key])[0] == keys[0];
      assert SteerAll(s, keys + [key]) == SteerFrom(s, keys + [key]) == SteerAll(Steer(s, keys[0]), keys[1..] + [key]);
      SteerAllSnoc(Steer(s, keys[0]), keys[1..], key);
    } else {
      assert keys + [key] == [key];
      assert SteerAll(s, [key]) == SteerFrom(s, [key]) == SteerAll(Steer(s, key), []);
    }
  }
}
