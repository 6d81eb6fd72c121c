/** The ramps of the steering wheel's thread, one read or write at a time, while the drive thread goes on. */
module VehicleRamps {
  import opened Vehicles

  // ---- the thread of the steering wheel -------------------------------------------------------

  /** What `increase`, `decrease` and `resume` have worked out before their loop. */
  datatype Climb = Climb(up: bool, target: real, dv: real, dr: real)

  /** Before the loop test, before the step under the lock, or behind the loop. */
  datatype At = Testing | Stepping | Ended

  predicate Arrived(c: Climb, speed: real) { if c.up then c.target <= speed else speed <= c.target }

  /** `bycruise` is set, so the loop does not ask for the cruise control. */
  function RampStep(c: Climb, at: At, v: Vehicle): (At, Vehicle) {
    match at
    case Testing => (if Arrived(c, v.speed) then Ended else Stepping, v)
    case Stepping => (Testing, v.(speed := v.speed + c.dv, rpm := v.rpm + c.dr))
    case Ended => (Ended, v)
  }

  function RampSteps(c: Climb, at: At, v: Vehicle, n: nat): (At, Vehicle)
    decreases n
  {
    if n == 0 then (at, v)
    else
      var (b, w) := RampStep(c, at, v);
      RampSteps(c, b, w, n - 1)
  }

  // ---- uninterrupted --------------------------------------------------------------------------

  /** The loop that takes `n` steps from one vehicle to a target. */
  function ClimbOf(v: Vehicle, target: real, rpm: real, n: nat): Climb
    requires n > 0
  {
    Climb(v.speed < target, target, (target - v.speed) / n as real, (rpm - v.rpm) / n as real)
  }

  function PartOfTheWay(v: Vehicle, target: real, rpm: real, i: nat, n: nat): Vehicle
    requires n > 0
  {
    v.(speed := Along(v.speed, target, i, n), rpm := Along(v.rpm, rpm, i, n))
  }

  lemma {:induction false} RestOfTheWay(v: Vehicle, target: real, rpm: real, i: nat, n: nat)
    requires i <= n && n > 0 && v.speed != target
    ensures RampSteps(ClimbOf(v, target, rpm, n), Testing, PartOfTheWay(v, target, rpm, i, n), 2 * (n - i) + 1) ==
            (Ended, v.(speed := target, rpm := rpm))
    decreases n - i
  {
    hide Along;
    var c, w := ClimbOf(v, target, rpm, n), PartOfTheWay(v, target, rpm, i, n);
    AlongIs(v.speed, target, i, n);
    AlongIs(v.rpm, rpm, i, n);
    if i == n {
      assert RampSteps(c, Ended, w, 0) == (Ended, w);
    } else {
      AlongBefore(v.speed, target, i, n);
      var x := PartOfTheWay(v, target, rpm, i + 1, n);
      assert RampStep(c, Testing, w) == (Stepping, w) && RampStep(c, Stepping, w) == (Testing, x);
      assert RampSteps(c, Testing, w, 2 * (n - i) + 1) == RampSteps(c, Stepping, w, 2 * (n - i)) ==
             RampSteps(c, Testing, x, 2 * (n - i - 1) + 1);
      RestOfTheWay(v, target, rpm, i + 1, n);
    }
  }

  /** On its own a ramp ends exactly at its target, up or down: what a click does in one step. */
  lemma RampAlone(v: Vehicle, target: real, rpm: real, n: nat)
    requires n > 0 && v.speed != target
    ensures RampSteps(ClimbOf(v, target, rpm, n), Testing, v, 2 * n + 1) ==
            (Ended, if v.speed < target then Accelerated(v, target, rpm) else Braked(v, target, rpm))
  {
    AlongIs(v.speed, target, 0, n);
    AlongIs(v.rpm, rpm, 0, n);
    assert PartOfTheWay(v, target, rpm, 0, n) == v;
    RestOfTheWay(v, target, rpm, 0, n);
  }

  // ---- both threads ---------------------------------------------------------------------------

  datatype Who = Driver | Wheeler

  function Together(p: Point, c: Climb, at: At, v: Vehicle, turns: seq<Who>): (Point, At, Vehicle)
    decreases |turns|
  {
    if turns == [] then (p, at, v)
    else if turns[0].Driver? then
      var (q, w) := DriveStep(p, v);
      Together(q, c, at, w, turns[1..])
    else
      var (b, w) := RampStep(c, at, v);
      Together(p, c, b, w, turns[1..])
  }

  function Wheelers(turns: seq<Who>): nat {
    if turns == [] then 0 else (if turns[0].Wheeler? then 1 else 0) + Wheelers(turns[1..])
  }

  /** The turns before the first of the drive thread. */
  function Before(turns: seq<Who>): (n: nat)
    ensures n <= |turns| && (n < |turns| ==> turns[n].Driver?)
  {
    if turns == [] || turns[0].Driver? then 0 else 1 + Before(turns[1..])
  }

  lemma RampKeepsActive(c: Climb, at: At, v: Vehicle)
    ensures RampStep(c, at, v).1.active == v.active
  {
  }

  /** A drive thread that is not about to write does not matter. */
  lemma {:induction false} NoIntrusion(p: Point, c: Climb, at: At, v: Vehicle, turns: seq<Who>)
    requires v.active && (Writes(p) ==> Driver !in turns)
    ensures var r := Together(p, c, at, v, turns); (r.1, r.2) == RampSteps(c, at, v, Wheelers(turns))
    decreases |turns|
  {
    if turns != [] {
      assert forall x :: x in turns[1..] ==> x in turns;
      if turns[0].Driver? {
        var (q, w) := DriveStep(p, v);
        assert w == v && !Writes(q);
        NoIntrusion(q, c, at, v, turns[1..]);
      } else {
        var (b, w) := RampStep(c, at, v);
        RampKeepsActive(c, at, v);
        NoIntrusion(p, c, b, w, turns[1..]);
      }
    }
  }

  /** However the two threads alternate while cruise control is active, the drive thread gets in between at most once,
      with the one write it was about to do; before and behind it the ramp goes on as if alone. */
  lemma {:induction false} OneIntrusion(p: Point, c: Climb, at: At, v: Vehicle, turns: seq<Who>)
    requires v.active
    ensures var r := Together(p, c, at, v, turns); var n := Before(turns);
            if !Writes(p) || n == |turns| then (r.1, r.2) == RampSteps(c, at, v, Wheelers(turns))
            else
              var (b, w) := RampSteps(c, at, v, n);
              (r.1, r.2) == RampSteps(c, b, DriveStep(p, w).1, Wheelers(turns[n + 1..]))
    decreases |turns|
  {
    if turns != [] {
      if !Writes(p) {
        NoIntrusion(p, c, at, v, turns);
      } else if turns[0].Driver? {
        var (q, w) := DriveStep(p, v);
        assert w.active && !Writes(q) && turns[0 + 1..] == turns[1..];
        NoIntrusion(q, c, at, w, turns[1..]);
      } else {
        var (b, w) := RampStep(c, at, v);
        RampKeepsActive(c, at, v);
        OneIntrusion(p, c, b, w, turns[1..]);
        assert turns[1..][Before(turns[1..]) ..] == turns[Before(turns)..];
      }
    }
  }

  // ---- the end of a ramp ----------------------------------------------------------------------

  /** The steps go towards the target. */
  predicate Towards(c: Climb) { if c.up then c.dv > 0.0 else c.dv < 0.0 }

  /** Arrived, and less than one step too far unless it was so from the start. */
  predicate JustArrived(c: Climb, from: real, speed: real) {
    Arrived(c, speed) && (speed == from || !Arrived(c, speed - c.dv))
  }

  /** From any speed a ramp arrives, after as many steps as it takes to get there, and does not go further. */
  lemma {:induction false} RampArrives(c: Climb, v: Vehicle, k: nat, n: nat)
    requires Towards(c) && Arrived(c, v.speed + k as real * c.dv) && n >= 2 * k + 1
    ensures var (at, w) := RampSteps(c, Testing, v, n); at.Ended? && JustArrived(c, v.speed, w.speed)
    decreases n
  {
    if Arrived(c, v.speed) {
      StaysEnded(c, v, n - 1);
    } else {
      assert 0.0 * c.dv == 0.0;
      var w := v.(speed := v.speed + c.dv, rpm := v.rpm + c.dr);
      assert k as real == (k - 1) as real + 1.0;
      assert k as real * c.dv == (k - 1) as real * c.dv + c.dv;
      RampArrives(c, w, k - 1, n - 2);
      assert RampSteps(c, Testing, v, n) == RampSteps(c, Stepping, v, n - 1) == RampSteps(c, Testing, w, n - 2);
    }
  }

  lemma {:induction false} StaysEnded(c: Climb, v: Vehicle, n: nat)
    ensures RampSteps(c, Ended, v, n) == (Ended, v)
    decreases n
  {
    if n > 0 { StaysEnded(c, v, n - 1); }
  }

  /** The speed at the next loop test: a step that was decided on is still taken. */
  function AtNextTest(c: Climb, at: At, speed: real): real { if at.Stepping? then speed + c.dv else speed }

  /** Given the turns to get to its target from wherever the write of the drive thread left the vehicle, a ramp still
      arrives, and goes no further than that loop test or less than a step behind the target; a write that comes after
      its end stands. */
  lemma IntrudedRampArrives(p: Point, c: Climb, at: At, v: Vehicle, turns: seq<Who>, k: nat)
    requires v.active && Writes(p) && Towards(c) && Before(turns) < |turns|
    ensures var r := Together(p, c, at, v, turns);
            var (b, w) := RampSteps(c, at, v, Before(turns)); var x := DriveStep(p, w).1;
            var from := AtNextTest(c, b, x.speed);
            if b.Ended? then (r.1, r.2) == (Ended, x)
            else
              Arrived(c, from + k as real * c.dv) && Wheelers(turns[Before(turns) + 1..]) >= 2 * k + 2 ==>
                r.1.Ended? && JustArrived(c, from, r.2.speed)
  {
    OneIntrusion(p, c, at, v, turns);
    var (b, w) := RampSteps(c, at, v, Before(turns));
    var x, n := DriveStep(p, w).1, Wheelers(turns[Before(turns) + 1..]);
    if b.Ended? {
      StaysEnded(c, x, n);
    } else if Arrived(c, AtNextTest(c, b, x.speed) + k as real * c.dv) && n >= 2 * k + 2 {
      if b.Testing? {
        RampArrives(c, x, k, n);
      } else {
        RampArrives(c, RampStep(c, b, x).1, k, n - 1);
      }
    }
  }
}
