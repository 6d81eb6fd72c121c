/** The vehicle of the CAN simulator: a thread that drives it, and a steering wheel that takes over. */
module Vehicles {
  import opened Options

  const FREQ := 10
  const IDLE_RPM := 600.0

  /** The fields the threads share. */
  datatype Vehicle = Vehicle(mode: bool, active: bool, cruiseSpeed: int, cruiseRpm: int, speed: real, rpm: real)

  const PARKED := Vehicle(false, false, 0, 0, 0.0, IDLE_RPM)

  // ---- the drive thread, one read or write at a time ------------------------------------------

  /** A call of `accelerate` or of `brake`. */
  datatype Leg = Leg(up: bool, target: real, rpm: real, duration: nat)

  const LEGS := [Leg(true, 80.0, 3000.0, 5), Leg(true, 104.0, 4000.0, 3), Leg(false, 80.0, 3000.0, 3),
                 Leg(true, 104.0, 4000.0, 6), Leg(false, 40.0, 2000.0, 4), Leg(true, 90.0, 3000.0, 5),
                 Leg(false, 1.0, 650.0, 5)]

  predicate Reached(l: Leg, speed: real) { if l.up then l.target <= speed else speed <= l.target }

  /** Where the thread is: before what it reads or writes next. */
  datatype Point =
    | Begin                                  // the test of the outer loop
    | Enter(leg: nat)                        // the test on entry
    | Ramp(leg: nat)                         // the size of the steps
    | Look(leg: nat, dv: real, dr: real)     // the speed in the loop test
    | Ask(leg: nat, dv: real, dr: real)      // the cruise control in the loop test
    | Store(leg: nat, dv: real, dr: real)    // the step itself, under the lock
    | AskLast                                // the test after the last leg
    | Reset                                  // under the lock
    | Asleep

  predicate Writes(p: Point) { p.Store? || p.Reset? }

  function StepSize(from: real, to: real, duration: nat): real {
    if duration == 0 then 0.0 else (to - from) / (duration * FREQ) as real
  }

  function DriveStep(p: Point, v: Vehicle): (Point, Vehicle) {
    match p
    case Begin => (if v.active then Asleep else Enter(0), v)
    case Enter(k) =>
      if k >= |LEGS| then (AskLast, v) else (if Reached(LEGS[k], v.speed) then Enter(k + 1) else Ramp(k), v)
    case Ramp(k) =>
      if k >= |LEGS| then (AskLast, v)
      else
        var l := LEGS[k];
        (Look(k, StepSize(v.speed, l.target, l.duration), StepSize(v.rpm, l.rpm, l.duration)), v)
    case Look(k, dv, dr) =>
      if k >= |LEGS| then (AskLast, v) else (if Reached(LEGS[k], v.speed) then Enter(k + 1) else Ask(k, dv, dr), v)
    case Ask(k, dv, dr) => (if v.active then Enter(k + 1) else Store(k, dv, dr), v)
    case Store(k, dv, dr) => (Look(k, dv, dr), v.(speed := v.speed + dv, rpm := v.rpm + dr))
    case AskLast => (if v.active then Asleep else Reset, v)
    case Reset => (Asleep, v.(speed := 0.0, rpm := IDLE_RPM))
    case Asleep => (Begin, v)
  }

  /** A turn of the drive thread, or anything the other threads do to the vehicle. */
  datatype Turn = Drive | Others(v: Vehicle)

  /** How often the drive thread writes. */
  function WritesIn(p: Point, v: Vehicle, turns: seq<Turn>): nat
    decreases |turns|
  {
    if turns == [] then 0
    else if turns[0].Others? then WritesIn(p, turns[0].v, turns[1..])
    else
      var (q, w) := DriveStep(p, v);
      (if Writes(p) then 1 else 0) + WritesIn(q, w, turns[1..])
  }

  /** From when cruise control is active, and for as long as it stays so, the drive thread writes once more if it
      was just about to and gets a turn, and never otherwise, whatever the other threads do. */
  lemma {:induction false} DriveThreadStops(p: Point, v: Vehicle, turns: seq<Turn>)
    requires v.active && forall i :: 0 <= i < |turns| ==> turns[i].Others? ==> turns[i].v.active
    ensures WritesIn(p, v, turns) == if Writes(p) && Drive in turns then 1 else 0
    decreases |turns|
  {
    if turns != [] {
      var rest := turns[1..];
      assert forall i :: 0 <= i < |rest| ==> rest[i] == turns[i + 1];
      if turns[0].Others? {
        DriveThreadStops(p, turns[0].v, rest);
        assert Drive in turns <==> Drive in rest;
      } else {
        var (q, w) := DriveStep(p, v);
        assert w.active && !Writes(q);
        DriveThreadStops(q, w, rest);
      }
    }
  }

  // ---- the drive thread on its own ------------------------------------------------------------

  /** `i` steps of `n` on the way from `a` to `b`. */
  function Along(a: real, b: real, i: nat, n: nat): real
    requires n > 0
  {
    a + i as real * ((b - a) / n as real)
  }

  lemma AlongIs(a: real, b: real, i: nat, n: nat)
    requires n > 0
    ensures Along(a, b, 0, n) == a && Along(a, b, n, n) == b
    ensures Along(a, b, i + 1, n) == Along(a, b, i, n) + (b - a) / n as real
  {
    assert n as real * ((b - a) / n as real) == b - a;
  }

  /** The end is not reached before the last step. */
  lemma AlongBefore(a: real, b: real, i: nat, n: nat)
    requires i < n
    ensures a < b ==> Along(a, b, i, n) < b
    ensures a > b ==> Along(a, b, i, n) > b
  {
    var x, k := (b - a) / n as real, (n - i) as real;
    AlongIs(a, b, i, n);
    assert n as real == i as real + k;
    assert b == a + n as real * x;
    assert n as real * x == i as real * x + k * x;
    assert b == Along(a, b, i, n) + k * x;
    Sign(b - a, n as real, k);
  }

  lemma Sign(d: real, n: real, k: real)
    requires n > 0.0 && k > 0.0
    ensures d > 0.0 ==> k * (d / n) > 0.0
    ensures d < 0.0 ==> k * (d / n) < 0.0
  {
    var x := d / n;
    assert x * n == d;
    if d > 0.0 { assert x > 0.0; }
    if d < 0.0 { assert x < 0.0; }
  }

  /** So many turns of the drive thread with nothing in between. */
  function DriveSteps(p: Point, v: Vehicle, n: nat): (Point, Vehicle)
    decreases n
  {
    if n == 0 then (p, v)
    else
      var (q, w) := DriveStep(p, v);
      DriveSteps(q, w, n - 1)
  }

  lemma {:induction false} DriveStepsSplit(p: Point, v: Vehicle, m: nat, n: nat)
    ensures DriveSteps(p, v, m + n) == DriveSteps(DriveSteps(p, v, m).0, DriveSteps(p, v, m).1, n)
    decreases m
  {
    if m > 0 {
      var (q, w) := DriveStep(p, v);
      DriveStepsSplit(q, w, m - 1, n);
    }
  }

  /** The vehicle after `i` of the steps of a leg. */
  function OnTheWay(v: Vehicle, l: Leg, i: nat): Vehicle
    requires l.duration > 0
  {
    v.(speed := Along(v.speed, l.target, i, l.duration * FREQ), rpm := Along(v.rpm, l.rpm, i, l.duration * FREQ))
  }

  /** The loop of a leg: three turns a step, and one to see that the target is reached. */
  lemma {:induction false} LoopIsDriven(k: nat, v: Vehicle, i: nat)
    requires k < |LEGS| && !v.active && !Reached(LEGS[k], v.speed) && i <= LEGS[k].duration * FREQ
    ensures var l := LEGS[k]; var n := l.duration * FREQ;
            DriveSteps(Look(k, StepSize(v.speed, l.target, l.duration), StepSize(v.rpm, l.rpm, l.duration)),
                       OnTheWay(v, l, i), 3 * (n - i) + 1) ==
            (Enter(k + 1), v.(speed := l.target, rpm := l.rpm))
    decreases LEGS[k].duration * FREQ - i
  {
    hide Along, StepSize;
    var l := LEGS[k];
    var n := l.duration * FREQ;
    var dv, dr := StepSize(v.speed, l.target, l.duration), StepSize(v.rpm, l.rpm, l.duration);
    var w := OnTheWay(v, l, i);
    AlongIs(v.speed, l.target, i, n);
    AlongIs(v.rpm, l.rpm, i, n);
    if i == n {
      assert DriveStep(Look(k, dv, dr), w) == (Enter(k + 1), w);
      assert DriveSteps(Enter(k + 1), w, 0) == (Enter(k + 1), w);
    } else {
      AlongBefore(v.speed, l.target, i, n);
      assert !Reached(l, w.speed);
      StepIs(v, l);
      assert DriveStep(Look(k, dv, dr), w) == (Ask(k, dv, dr), w);
      assert DriveStep(Ask(k, dv, dr), w) == (Store(k, dv, dr), w);
      assert DriveStep(Store(k, dv, dr), w) == (Look(k, dv, dr), OnTheWay(v, l, i + 1));
      ThreeSteps(Look(k, dv, dr), w, 3 * (n - i - 1) + 1);
      LoopIsDriven(k, v, i + 1);
    }
  }

  lemma StepIs(v: Vehicle, l: Leg)
    requires l.duration > 0
    ensures StepSize(v.speed, l.target, l.duration) == (l.target - v.speed) / (l.duration * FREQ) as real
    ensures StepSize(v.rpm, l.rpm, l.duration) == (l.rpm - v.rpm) / (l.duration * FREQ) as real
  {
  }

  lemma ThreeSteps(p: Point, v: Vehicle, n: nat)
    ensures var (q, w) := DriveStep(p, v);
            var (q', w') := DriveStep(q, w);
            var (q'', w'') := DriveStep(q', w');
            DriveSteps(p, v, n + 3) == DriveSteps(q'', w'', n)
  {
    hide DriveStep;
    var (q, w) := DriveStep(p, v);
    var (q', w') := DriveStep(q, w);
    assert DriveSteps(p, v, n + 3) == DriveSteps(q, w, n + 2) == DriveSteps(q', w', n + 1);
  }

  function LegTurns(l: Leg): nat { 3 * (l.duration * FREQ) + 3 }

  /** A leg that is not interrupted ends exactly at its target, in speed and rpm, after as many steps as planned. */
  lemma LegIsDriven(k: nat, v: Vehicle)
    requires k < |LEGS| && !v.active && !Reached(LEGS[k], v.speed)
    ensures DriveSteps(Enter(k), v, LegTurns(LEGS[k])) == (Enter(k + 1), v.(speed := LEGS[k].target, rpm := LEGS[k].rpm))
  {
    hide Along, StepSize;
    var l := LEGS[k];
    var n := l.duration * FREQ;
    AlongIs(v.speed, l.target, 0, n);
    AlongIs(v.rpm, l.rpm, 0, n);
    LoopIsDriven(k, v, 0);
    var p := Look(k, StepSize(v.speed, l.target, l.duration), StepSize(v.rpm, l.rpm, l.duration));
    assert DriveStep(Enter(k), v) == (Ramp(k), v) && DriveStep(Ramp(k), v) == (p, v);
    assert OnTheWay(v, l, 0) == v;
    TwoSteps(Enter(k), v, 3 * n + 1);
  }

  lemma TwoSteps(p: Point, v: Vehicle, n: nat)
    ensures var (q, w) := DriveStep(p, v);
            var (q', w') := DriveStep(q, w);
            DriveSteps(p, v, n + 2) == DriveSteps(q', w', n)
  {
    hide DriveStep;
    var (q, w) := DriveStep(p, v);
    assert DriveSteps(p, v, n + 2) == DriveSteps(q, w, n + 1);
  }

  /** The turns of the legs from one on. */
  function TurnsFrom(k: nat): nat
    decreases |LEGS| - k
  {
    if k >= |LEGS| then 0 else LegTurns(LEGS[k]) + TurnsFrom(k + 1)
  }

  /** No leg starts at its target: each ends on the other side of the next. */
  predicate Ready(k: nat, v: Vehicle) { k < |LEGS| ==> !Reached(LEGS[k], v.speed) }

  lemma {:induction false} LegsAreDriven(k: nat, v: Vehicle)
    requires k <= |LEGS| && !v.active && Ready(k, v)
    ensures var (p, w) := DriveSteps(Enter(k), v, TurnsFrom(k));
            p == Enter(|LEGS|) && w == v.(speed := w.speed, rpm := w.rpm)
    decreases |LEGS| - k
  {
    if k < |LEGS| {
      hide DriveSteps;
      LegIsDriven(k, v);
      var w := v.(speed := LEGS[k].target, rpm := LEGS[k].rpm);
      assert Ready(k + 1, w);
      LegsAreDriven(k + 1, w);
      DriveStepsSplit(Enter(k), v, LegTurns(LEGS[k]), TurnsFrom(k + 1));
    }
  }

  /** A whole round without cruise control drives every leg to its end and parks the vehicle again. */
  lemma RoundIsDriven(v: Vehicle)
    requires !v.active && v.speed == 0.0
    ensures DriveSteps(Begin, v, TurnsFrom(0) + 4) == (Asleep, v.(speed := 0.0, rpm := IDLE_RPM))
  {
    hide DriveSteps, TurnsFrom;
    LegsAreDriven(0, v);
    var w := DriveSteps(Enter(0), v, TurnsFrom(0)).1;
    assert DriveStep(Begin, v) == (Enter(0), v);
    DriveStepsSplit(Begin, v, 1, TurnsFrom(0) + 3);
    OneStep(Begin, v);
    DriveStepsSplit(Enter(0), v, TurnsFrom(0), 3);
    assert DriveStep(Enter(|LEGS|), w) == (AskLast, w) && DriveStep(AskLast, w) == (Reset, w);
    ThreeSteps(Enter(|LEGS|), w, 0);
    NoSteps(Asleep, v.(speed := 0.0, rpm := IDLE_RPM));
  }

  lemma OneStep(p: Point, v: Vehicle)
    ensures DriveSteps(p, v, 1) == DriveStep(p, v)
  {
    hide DriveStep;
    var (q, w) := DriveStep(p, v);
    assert DriveSteps(q, w, 0) == (q, w);
  }

  lemma NoSteps(p: Point, v: Vehicle)
    ensures DriveSteps(p, v, 0) == (p, v)
  {
  }

  // ---- the buttons of the steering wheel ------------------------------------------------------

  /** `int(x)` */
  function Trunc(x: real): int { if x >= 0.0 then x.Floor else -((-x).Floor) }

  /** `accelerate` and `brake` when nothing interferes. */
  function Accelerated(v: Vehicle, target: real, rpm: real): Vehicle {
    if target <= v.speed then v else v.(speed := target, rpm := rpm)
  }

  function Braked(v: Vehicle, target: real, rpm: real): Vehicle {
    if target >= v.speed then v else v.(speed := target, rpm := rpm)
  }

  function Increased(v: Vehicle): Vehicle { if v.active then Accelerated(v, v.speed + 5.0, v.rpm * 1.1) else v }

  function Decreased(v: Vehicle): Vehicle { if v.active then Braked(v, v.speed - 5.0, v.rpm * 0.9) else v }

  function Resumed(v: Vehicle): Vehicle {
    if v.cruiseSpeed > Trunc(v.speed) then Accelerated(v, v.cruiseSpeed as real, v.cruiseRpm as real)
    else Braked(v, v.cruiseSpeed as real, v.cruiseRpm as real)
  }

  function Remembered(v: Vehicle): Vehicle { v.(cruiseSpeed := Trunc(v.speed), cruiseRpm := Trunc(v.rpm)) }

  /** The handler's own fields; it dies of a message that is too short. */
  datatype Wheel = Wheel(alive: bool, pressed: bool, enabled: bool, cancel: bool, dec: bool, inc: bool,
                         mode: bool, active: bool)

  const IDLE := Wheel(true, false, false, false, false, false, false, false)

  datatype Message = Message(id: nat, data: seq<nat>)

  const WHEEL_ID := 0x21

  /** `if ... and not self.buttonpressed`, four times. */
  function Press(w: Wheel, code: nat): Wheel {
    if w.pressed then w
    else if code == 0x80 then w.(pressed := true, enabled := true)
    else if code == 0x08 then w.(pressed := true, cancel := true)
    else if code == 0x10 then w.(pressed := true, dec := true)
    else if code == 0x40 then w.(pressed := true, inc := true)
    else w
  }

  function ReleaseEnabled(w: Wheel, v: Vehicle): (Wheel, Vehicle) {
    if !w.enabled then (w, v)
    else if !w.mode then (w.(enabled := false, mode := true), v.(mode := true))
    else
      (w.(enabled := false, mode := false, active := false), v.(mode := false, active := false, cruiseSpeed := 0, cruiseRpm := 0))
  }

  function ReleaseCancel(w: Wheel, v: Vehicle): (Wheel, Vehicle) {
    if !w.cancel then (w, v) else (w.(cancel := false, active := false), Remembered(v).(active := false))
  }

  function ReleaseDec(w: Wheel, v: Vehicle): (Wheel, Vehicle) {
    if !w.dec then (w, v)
    else if w.active then (w.(dec := false), Decreased(v))
    else (w.(dec := false, active := true), Remembered(v).(active := true))
  }

  function ReleaseInc(w: Wheel, v: Vehicle): (Wheel, Vehicle) {
    if !w.inc then (w, v)
    else if w.active then (w.(inc := false), Increased(v))
    else if v.cruiseSpeed > 0 then (w.(inc := false, active := true), Resumed(v.(active := true)))
    else (w.(inc := false), v)
  }

  function Release(w: Wheel, v: Vehicle): (Wheel, Vehicle) {
    var (w1, v1) := ReleaseEnabled(w, v);
    var (w2, v2) := ReleaseCancel(w1, v1);
    var (w3, v3) := ReleaseDec(w2, v2);
    var (w4, v4) := ReleaseInc(w3, v3);
    (w4.(pressed := false), v4)
  }

  function Handle(w: Wheel, v: Vehicle, m: Message): (Wheel, Vehicle) {
    if !w.alive || m.id != WHEEL_ID || m.data == [] then (w, v)
    else if |m.data| <= 6 then (w.(alive := false), v)
    else
      var w' := Press(w, m.data[6]);
      if m.data[6] == 0 && w'.pressed then Release(w', v) else (w', v)
  }

  // ---- both threads ---------------------------------------------------------------------------

  /** A turn of the drive thread, or a message; handling a message is one step. */
  datatype Event = Turned | Heard(m: Message)

  datatype Simulation = Simulation(p: Point, v: Vehicle, w: Wheel)

  function Happen(s: Simulation, e: Event): Simulation {
    match e
    case Turned => var (p, v) := DriveStep(s.p, s.v); s.(p := p, v := v)
    case Heard(m) => var (w, v) := Handle(s.w, s.v, m); s.(w := w, v := v)
  }

  function HappenAll(s: Simulation, es: seq<Event>): Simulation
    decreases |es|
  {
    if es == [] then s else HappenAll(Happen(s, es[0]), es[1..])
  }

  function Count(b: bool): nat { if b then 1 else 0 }

  function Flags(w: Wheel): nat { Count(w.enabled) + Count(w.cancel) + Count(w.dec) + Count(w.inc) }

  /** One button at most is pressed, and the handler knows what the vehicle does. */
  predicate InStep(w: Wheel, v: Vehicle) { Flags(w) == Count(w.pressed) && w.mode == v.mode && w.active == v.active }

  lemma HandleKeeps(w: Wheel, v: Vehicle, m: Message)
    requires InStep(w, v)
    ensures InStep(Handle(w, v, m).0, Handle(w, v, m).1)
  {
    if w.alive && m.id == WHEEL_ID && |m.data| > 6 { HandleIsClick(w, v, m); }
  }

  lemma DriveKeeps(p: Point, v: Vehicle)
    ensures DriveStep(p, v).1.mode == v.mode && DriveStep(p, v).1.active == v.active
  {
  }

  lemma HappenKeeps(s: Simulation, e: Event)
    requires InStep(s.w, s.v)
    ensures InStep(Happen(s, e).w, Happen(s, e).v)
  {
    hide DriveStep, Handle;
    if e.Turned? { DriveKeeps(s.p, s.v); } else { HandleKeeps(s.w, s.v, e.m); }
  }

  /** However the drive thread and the messages alternate: exactly one of the four flags is set if a button is
      pressed and none otherwise, and the handler's copies equal the vehicle's. */
  lemma {:induction false} WheelStaysInStep(s: Simulation, es: seq<Event>)
    requires InStep(s.w, s.v)
    ensures InStep(HappenAll(s, es).w, HappenAll(s, es).v)
    decreases |es|
  {
    hide InStep, Happen;
    if es != [] {
      HappenKeeps(s, es[0]);
      WheelStaysInStep(Happen(s, es[0]), es[1..]);
    }
  }

  // ---- what the buttons mean ------------------------------------------------------------------

  datatype Button = Enable | Cancel | SetDown | ResumeUp

  function ButtonOf(code: nat): Option<Button> {
    if code == 0x80 then Some(Enable) else if code == 0x08 then Some(Cancel)
    else if code == 0x10 then Some(SetDown) else if code == 0x40 then Some(ResumeUp) else None
  }

  /** A button pressed and released. */
  function Click(v: Vehicle, b: Button): Vehicle {
    match b
    case Enable => if v.mode then v.(mode := false, active := false, cruiseSpeed := 0, cruiseRpm := 0) else v.(mode := true)
    case Cancel => Remembered(v).(active := false)
    case SetDown => if v.active then Decreased(v) else Remembered(v).(active := true)
    case ResumeUp =>
      if v.active then Increased(v) else if v.cruiseSpeed > 0 then Resumed(v.(active := true)) else v
  }

  /** What happens to the vehicle: a turn of the drive thread, or a click. */
  datatype Act = Driven | Clicked(b: Button)

  function Perform(p: Point, v: Vehicle, a: Act): (Point, Vehicle) {
    match a
    case Driven => DriveStep(p, v)
    case Clicked(b) => (p, Click(v, b))
  }

  function PerformAll(p: Point, v: Vehicle, acts: seq<Act>): (Point, Vehicle)
    decreases |acts|
  {
    if acts == [] then (p, v)
    else
      var (q, w) := Perform(p, v, acts[0]);
      PerformAll(q, w, acts[1..])
  }

  predicate Unheard(m: Message) { m.id != WHEEL_ID || m.data == [] }

  /** The button that is held after a code: the first one that is pressed counts until the release. */
  function HeldAfter(held: Option<Button>, code: nat): Option<Button> {
    if held.None? then ButtonOf(code) else if code == 0 then None else held
  }

  /** Turns and clicks: a click is a press and its release, and there are none after a message that is too short. */
  function Acts(alive: bool, held: Option<Button>, es: seq<Event>): seq<Act>
    decreases |es|
  {
    if es == [] then []
    else if es[0].Turned? then [Driven] + Acts(alive, held, es[1..])
    else if !alive || Unheard(es[0].m) then Acts(alive, held, es[1..])
    else if |es[0].m.data| <= 6 then Acts(false, held, es[1..])
    else
      var code := es[0].m.data[6];
      (if held.Some? && code == 0 then [Clicked(held.value)] else []) + Acts(alive, HeldAfter(held, code), es[1..])
  }

  function Held(w: Wheel): Option<Button> {
    if w.enabled then Some(Enable) else if w.cancel then Some(Cancel) else if w.dec then Some(SetDown)
    else if w.inc then Some(ResumeUp) else None
  }

  lemma PressIs(w: Wheel, v: Vehicle, code: nat)
    requires InStep(w, v)
    ensures var w' := Press(w, code);
            && w'.alive == w.alive && InStep(w', v) && (w'.pressed <==> Held(w').Some?)
            && Held(w') == (if Held(w).None? then ButtonOf(code) else Held(w)) && (Held(w).Some? || code == 0 ==> w' == w)
  {
  }

  lemma ReleaseIs(w: Wheel, v: Vehicle)
    requires InStep(w, v)
    ensures Held(w).Some? ==>
              var (w', v') := Release(w, v);
              w'.alive == w.alive && InStep(w', v') && Held(w') == None && v' == Click(v, Held(w).value)
  {
    hide Decreased, Increased, Resumed, Remembered;
    Kept(v);
  }

  lemma Kept(v: Vehicle)
    ensures Decreased(v).mode == v.mode && Decreased(v).active == v.active
    ensures Increased(v).mode == v.mode && Increased(v).active == v.active
    ensures Resumed(v.(active := true)).mode == v.mode && Resumed(v.(active := true)).active
    ensures Remembered(v).mode == v.mode && Remembered(v).active == v.active
  {
  }

  lemma HandleIsClick(w: Wheel, v: Vehicle, m: Message)
    requires InStep(w, v) && w.alive && m.id == WHEEL_ID && |m.data| > 6
    ensures var (w', v') := Handle(w, v, m); var code := m.data[6];
            && w'.alive && InStep(w', v')
            && v' == (if Held(w).Some? && code == 0 then Click(v, Held(w).value) else v)
            && Held(w') == HeldAfter(Held(w), code)
  {
    hide Click, Press, Release, InStep, Held;
    PressIs(w, v, m.data[6]);
    ReleaseIs(w, v);
  }

  /** What one event does to the vehicle, in terms of the buttons. */
  lemma HappenIsActs(s: Simulation, e: Event, rest: seq<Act>)
    requires InStep(s.w, s.v)
    ensures var t := Happen(s, e);
            var acts := if e.Turned? then [Driven]
                        else if s.w.alive && !Unheard(e.m) && |e.m.data| > 6 && Held(s.w).Some? && e.m.data[6] == 0
                        then [Clicked(Held(s.w).value)] else [];
            PerformAll(t.p, t.v, rest) == PerformAll(s.p, s.v, acts + rest)
  {
    hide Click, InStep, Held, Press, Release, DriveStep;
    assert ([Driven] + rest)[1..] == rest && [] + rest == rest;
    if e.Heard? {
      if s.w.alive && !Unheard(e.m) && |e.m.data| > 6 { HandleIsClick(s.w, s.v, e.m); }
      if Held(s.w).Some? { assert ([Clicked(Held(s.w).value)] + rest)[1..] == rest; }
    }
  }

  /** How the handler goes on. */
  lemma HappenWheel(s: Simulation, e: Event)
    requires InStep(s.w, s.v)
    ensures var w := Happen(s, e).w;
            if e.Turned? || !s.w.alive || Unheard(e.m) then w == s.w
            else if |e.m.data| <= 6 then !w.alive && Held(w) == Held(s.w)
            else w.alive && Held(w) == HeldAfter(Held(s.w), e.m.data[6])
  {
    hide InStep, Press, Release, DriveStep, HeldAfter;
    if e.Heard? && s.w.alive && !Unheard(e.m) && |e.m.data| > 6 { HandleIsClick(s.w, s.v, e.m); }
  }

  /** The flags and copies are an implementation of clicks: however the drive thread and the messages alternate, the
      thread and the vehicle end as if the clicks were done between the same turns. */
  lemma {:induction false} MessagesAreClicks(s: Simulation, es: seq<Event>)
    requires InStep(s.w, s.v)
    ensures var t := HappenAll(s, es);
            (t.p, t.v) == PerformAll(s.p, s.v, Acts(s.w.alive, Held(s.w), es))
    decreases |es|
  {
    hide InStep, Held, HeldAfter, Happen, Unheard, PerformAll;
    if es == [] {
      NothingPerformed(s.p, s.v);
    } else {
      var t, rest := Happen(s, es[0]), es[1..];
      HappenKeeps(s, es[0]);
      HappenWheel(s, es[0]);
      MessagesAreClicks(t, rest);
      var acts := Acts(t.w.alive, Held(t.w), rest);
      assert [] + acts == acts;
      HappenIsActs(s, es[0], acts);
    }
  }

  lemma NothingPerformed(p: Point, v: Vehicle)
    ensures PerformAll(p, v, []) == (p, v)
  {
  }

  /** Cruise control can be made active while it is switched off: nothing asks for the mode. It happens, or stays
      so, exactly with these two buttons. */
  lemma ActiveWithoutMode(v: Vehicle, b: Button)
    ensures var w := Click(v, b);
            w.active && !w.mode <==>
              !v.mode && ((b == SetDown) || (b == ResumeUp && (v.active || v.cruiseSpeed > 0)))
    ensures Click(PARKED, SetDown).active && !Click(PARKED, SetDown).mode
  {
  }
}
