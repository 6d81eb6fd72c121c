/** The CAN simulator in numbers: the speeds of a round, and what each button does. */
module VehicleNumbers {
  import opened Options
  import opened Vehicles

  // ---- a round --------------------------------------------------------------------------------

  lemma OneLeg(v: Vehicle, w: Vehicle, k: nat, n: nat)
    requires k < |LEGS| && !v.active && !w.active && !Reached(LEGS[k], w.speed) && DriveSteps(Begin, v, n) == (Enter(k), w)
    ensures DriveSteps(Begin, v, n + LegTurns(LEGS[k])) == (Enter(k + 1), w.(speed := LEGS[k].target, rpm := LEGS[k].rpm))
  {
    hide DriveSteps;
    LegIsDriven(k, w);
    DriveStepsSplit(Begin, v, n, LegTurns(LEGS[k]));
  }

  /** A round of a vehicle that stands and is not on cruise control: speeds and rpm at the ends of the legs, and the
      turns at which they are reached, three for each step of a tenth of a second and three for each leg. */
  lemma RoundInNumbers(v: Vehicle)
    requires !v.active && v.speed == 0.0
    ensures DriveSteps(Begin, v, 154).1 == v.(speed := 80.0, rpm := 3000.0)
    ensures DriveSteps(Begin, v, 247).1 == v.(speed := 104.0, rpm := 4000.0)
    ensures DriveSteps(Begin, v, 340).1 == v.(speed := 80.0, rpm := 3000.0)
    ensures DriveSteps(Begin, v, 523).1 == v.(speed := 104.0, rpm := 4000.0)
    ensures DriveSteps(Begin, v, 646).1 == v.(speed := 40.0, rpm := 2000.0)
    ensures DriveSteps(Begin, v, 799).1 == v.(speed := 90.0, rpm := 3000.0)
    ensures DriveSteps(Begin, v, 952).1 == v.(speed := 1.0, rpm := 650.0)
    ensures DriveSteps(Begin, v, 955) == (Asleep, v.(speed := 0.0, rpm := 600.0))
  {
    OneStep(Begin, v);
    hide DriveSteps;
    OneLeg(v, v, 0, 1);
    OneLeg(v, v.(speed := 80.0, rpm := 3000.0), 1, 154);
    OneLeg(v, v.(speed := 104.0, rpm := 4000.0), 2, 247);
    OneLeg(v, v.(speed := 80.0, rpm := 3000.0), 3, 340);
    OneLeg(v, v.(speed := 104.0, rpm := 4000.0), 4, 523);
    OneLeg(v, v.(speed := 40.0, rpm := 2000.0), 5, 646);
    OneLeg(v, v.(speed := 90.0, rpm := 3000.0), 6, 799);
    var w := v.(speed := 1.0, rpm := 650.0);
    DriveStepsSplit(Begin, v, 952, 3);
    ThreeSteps(Enter(7), w, 0);
    NoSteps(Asleep, v.(speed := 0.0, rpm := 600.0));
  }

  /** A leg that cruise control interrupts is given up: when the cruise control is off again by the time the thread looks
      at the next leg, that one is driven as planned, from whatever speed there is; after the last leg the vehicle parks. */
  lemma LegIsAbandoned(k: nat, dv: real, dr: real, v: Vehicle, w: Vehicle)
    requires k < |LEGS| && v.active && !w.active
    ensures var (p, u) := DriveStep(Ask(k, dv, dr), v);
            && u == v && p == Enter(k + 1)
            && (k + 1 == |LEGS| ==> DriveSteps(p, w, 3) == (Asleep, w.(speed := 0.0, rpm := 600.0)))
            && (k + 1 < |LEGS| && !Reached(LEGS[k + 1], w.speed) ==>
                  DriveSteps(p, w, LegTurns(LEGS[k + 1])) == (Enter(k + 2), w.(speed := LEGS[k + 1].target, rpm := LEGS[k + 1].rpm)))
  {
    hide DriveSteps;
    if k + 1 == |LEGS| {
      ThreeSteps(Enter(7), w, 0);
      NoSteps(Asleep, w.(speed := 0.0, rpm := 600.0));
    } else if !Reached(LEGS[k + 1], w.speed) {
      LegIsDriven(k + 1, w);
    }
  }

  // ---- the buttons ----------------------------------------------------------------------------

  /** `int` cuts towards zero. */
  lemma TruncIs(x: real)
    ensures x >= 0.0 ==> Trunc(x) as real <= x < Trunc(x) as real + 1.0
    ensures x <= 0.0 ==> Trunc(x) as real - 1.0 < x <= Trunc(x) as real
  {
  }

  /** A message of the steering wheel with a code, and one with its release. */
  function PressAndRelease(down: seq<nat>, up: seq<nat>): seq<Event> { [Heard(Message(0x21, down)), Heard(Message(0x21, up))] }

  lemma ClickHappens(s: Simulation, down: seq<nat>, up: seq<nat>)
    requires InStep(s.w, s.v) && s.w.alive && !s.w.pressed && |down| > 6 && |up| > 6 && up[6] == 0
    ensures var t := HappenAll(s, PressAndRelease(down, up)); var b := ButtonOf(down[6]);
            && t.p == s.p && t.v == (if b.Some? then Click(s.v, b.value) else s.v)
            && InStep(t.w, t.v) && t.w.alive && !t.w.pressed
  {
    var es := PressAndRelease(down, up);
    NotHeld(s.w, s.v);
    WheelStaysInStep(s, es);
    var s1 := Happen(s, es[0]);
    HappenKeeps(s, es[0]);
    HandleIsClick(s.w, s.v, es[0].m);
    HandleIsClick(s1.w, s1.v, es[1].m);
    assert es[1..] == [es[1]] && [es[1]][1..] == [];
    var t := Happen(s1, es[1]);
    assert HappenAll(s, es) == HappenAll(s1, [es[1]]) == HappenAll(t, []) == t;
    NotHeld(t.w, t.v);
    hide Click, InStep, Handle, Held, HappenAll;
  }

  lemma NotHeld(w: Wheel, v: Vehicle)
    requires InStep(w, v)
    ensures w.pressed <==> Held(w).Some?
  {
  }

  /** 0x80 switches cruise control on and off, and off forgets; 0x08 makes it passive and remembers speed and rpm, cut to
      whole numbers. */
  lemma EnableAndCancel(s: Simulation, down: seq<nat>, up: seq<nat>)
    requires InStep(s.w, s.v) && s.w.alive && !s.w.pressed && |down| > 6 && |up| > 6 && up[6] == 0
    ensures var v, u := s.v, HappenAll(s, PressAndRelease(down, up)).v;
            && (down[6] == 0x80 && !v.mode ==> u == v.(mode := true))
            && (down[6] == 0x80 && v.mode ==> u == Vehicle(false, false, 0, 0, v.speed, v.rpm))
            && (down[6] == 0x08 ==> u == Vehicle(v.mode, false, Trunc(v.speed), Trunc(v.rpm), v.speed, v.rpm))
            && (down[6] !in {0x80, 0x08, 0x10, 0x40} ==> u == v)
  {
    ClickHappens(s, down, up);
    hide HappenAll;
  }

  /** 0x10 remembers speed and rpm and becomes active, or slows down by 5 and to 90 per cent of the rpm if it is active. */
  lemma SetDownInNumbers(s: Simulation, down: seq<nat>, up: seq<nat>)
    requires InStep(s.w, s.v) && s.w.alive && !s.w.pressed && |down| > 6 && |up| > 6 && up[6] == 0 && down[6] == 0x10
    ensures var v, u := s.v, HappenAll(s, PressAndRelease(down, up)).v;
            u == if v.active then v.(speed := v.speed - 5.0, rpm := v.rpm * 0.9)
                 else Vehicle(v.mode, true, Trunc(v.speed), Trunc(v.rpm), v.speed, v.rpm)
  {
    ClickHappens(s, down, up);
    hide HappenAll;
  }

  /** 0x40 speeds up by 5 and to 110 per cent of the rpm if it is active, and else resumes: the vehicle, if it does not go
      backwards, goes as fast as was remembered, with the rpm that were unless it did already. */
  lemma ResumeUpInNumbers(s: Simulation, down: seq<nat>, up: seq<nat>)
    requires InStep(s.w, s.v) && s.w.alive && !s.w.pressed && |down| > 6 && |up| > 6 && up[6] == 0 && down[6] == 0x40
    ensures var v, u := s.v, HappenAll(s, PressAndRelease(down, up)).v;
            && (v.active ==> u == v.(speed := v.speed + 5.0, rpm := v.rpm * 1.1))
            && (!v.active && v.cruiseSpeed <= 0 ==> u == v)
            && (!v.active && v.cruiseSpeed > 0 && v.speed >= 0.0 ==>
                  u == v.(active := true, speed := v.cruiseSpeed as real,
                          rpm := if v.speed == v.cruiseSpeed as real then v.rpm else v.cruiseRpm as real))
  {
    ClickHappens(s, down, up);
    hide HappenAll;
    TruncIs(s.v.speed);
  }

  /** Cancelling and then resuming drives on at the speed of the moment of cancelling, cut to a whole number. */
  lemma CancelAndResume(s: Simulation, cancel: seq<nat>, resume: seq<nat>, up: seq<nat>)
    requires InStep(s.w, s.v) && s.w.alive && !s.w.pressed && |up| > 6 && up[6] == 0 && s.v.speed >= 1.0
    requires |cancel| > 6 && cancel[6] == 0x08 && |resume| > 6 && resume[6] == 0x40
    ensures var t := HappenAll(s, PressAndRelease(cancel, up)); var u := HappenAll(t, PressAndRelease(resume, up)).v;
            !t.v.active && u.active && u.speed == Trunc(s.v.speed) as real <= s.v.speed < u.speed + 1.0
  {
    EnableAndCancel(s, cancel, up);
    ClickHappens(s, cancel, up);
    TruncIs(s.v.speed);
    ResumeUpInNumbers(HappenAll(s, PressAndRelease(cancel, up)), resume, up);
  }
}
