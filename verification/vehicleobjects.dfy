/** The simulator and the steering wheel as objects, each method proved against the function it computes. */
module VehicleObjects {
  import opened Vehicles

  class VehicleSimulator {
    var mode: bool
    var active: bool
    var cruiseSpeed: int
    var cruiseRpm: int
    var speed: real
    var rpm: real

    constructor ()
      ensures View() == PARKED
    {
      mode, active, cruiseSpeed, cruiseRpm, speed, rpm := false, false, 0, 0, 0.0, IDLE_RPM;
    }

    function View(): Vehicle
      reads this
    {
      Vehicle(mode, active, cruiseSpeed, cruiseRpm, speed, rpm)
    }

    /** `accelerate` by the cruise control: it ends exactly at its target, after as many steps as planned. */
    method Accelerate(targetSpeed: real, targetRpm: real, duration: nat) returns (ghost steps: nat)
      requires duration > 0
      modifies this`speed, this`rpm
      ensures View() == Accelerated(old(View()), targetSpeed, targetRpm)
      ensures steps == if targetSpeed <= old(speed) then 0 else duration * FREQ
    {
      steps := 0;
      if targetSpeed <= speed { return; }
      var n := duration * FREQ;
      var v, r := (targetSpeed - speed) / n as real, (targetRpm - rpm) / n as real;
      ghost var s0, r0 := speed, rpm;
      AlongIs(s0, targetSpeed, 0, n);
      AlongIs(r0, targetRpm, 0, n);
      while speed < targetSpeed
        invariant steps <= n && speed == Along(s0, targetSpeed, steps, n) && rpm == Along(r0, targetRpm, steps, n)
        decreases n - steps
      {
        AlongIs(s0, targetSpeed, steps, n);
        AlongIs(r0, targetRpm, steps, n);
        speed := speed + v;
        rpm := rpm + r;
        steps := steps + 1;
      }
      if steps < n { AlongBefore(s0, targetSpeed, steps, n); }
    }

    method Brake(targetSpeed: real, targetRpm: real, duration: nat) returns (ghost steps: nat)
      requires duration > 0
      modifies this`speed, this`rpm
      ensures View() == Braked(old(View()), targetSpeed, targetRpm)
      ensures steps == if targetSpeed >= old(speed) then 0 else duration * FREQ
    {
      steps := 0;
      if targetSpeed >= speed { return; }
      var n := duration * FREQ;
      var v, r := (speed - targetSpeed) / n as real, (rpm - targetRpm) / n as real;
      ghost var s0, r0 := speed, rpm;
      Opposite(s0, targetSpeed, n as real);
      Opposite(r0, targetRpm, n as real);
      AlongIs(s0, targetSpeed, 0, n);
      AlongIs(r0, targetRpm, 0, n);
      while speed > targetSpeed
        invariant steps <= n && speed == Along(s0, targetSpeed, steps, n) && rpm == Along(r0, targetRpm, steps, n)
        decreases n - steps
      {
        AlongIs(s0, targetSpeed, steps, n);
        AlongIs(r0, targetRpm, steps, n);
        speed := speed - v;
        rpm := rpm - r;
        steps := steps + 1;
      }
      if steps < n { AlongBefore(s0, targetSpeed, steps, n); }
    }

    static lemma Opposite(a: real, b: real, n: real)
      requires n > 0.0
      ensures (a - b) / n == -((b - a) / n)
    {
    }

    method Increase()
      modifies this`speed, this`rpm
      ensures View() == Increased(old(View()))
    {
      if active { var _ := Accelerate(speed + 5.0, rpm * 1.1, 2); }
    }

    method Decrease()
      modifies this`speed, this`rpm
      ensures View() == Decreased(old(View()))
    {
      if active { var _ := Brake(speed - 5.0, rpm * 0.9, 2); }
    }

    method Resume()
      modifies this`speed, this`rpm
      ensures View() == Resumed(old(View()))
    {
      if cruiseSpeed > Trunc(speed) {
        var _ := Accelerate(cruiseSpeed as real, cruiseRpm as real, 2);
      } else {
        var _ := Brake(cruiseSpeed as real, cruiseRpm as real, 2);
      }
    }
  }

  class SteeringWheelMessageHandler {
    const simulator: VehicleSimulator
    var alive: bool
    var buttonpressed: bool
    var buttonenabled: bool
    var buttoncancel: bool
    var buttondec: bool
    var buttoninc: bool
    var cruisemode: bool
    var cruiseactive: bool

    constructor (simulator: VehicleSimulator)
      ensures this.simulator == simulator && State() == IDLE
    {
      this.simulator := simulator;
      alive, buttonpressed, buttonenabled, buttoncancel, buttondec, buttoninc := true, false, false, false, false, false;
      cruisemode, cruiseactive := false, false;
    }

    function State(): Wheel
      reads this
    {
      Wheel(alive, buttonpressed, buttonenabled, buttoncancel, buttondec, buttoninc, cruisemode, cruiseactive)
    }

    /** One message. */
    method Receive(m: Message)
      modifies this, simulator
      ensures (State(), simulator.View()) == Handle(old(State()), old(simulator.View()), m)
    {
      if !alive || m.id != WHEEL_ID || m.data == [] { return; }
      if |m.data| <= 6 {
        alive := false;
        return;
      }
      var code := m.data[6];
      if code == 0x80 && !buttonpressed { buttonpressed, buttonenabled := true, true; }
      if code == 0x08 && !buttonpressed { buttonpressed, buttoncancel := true, true; }
      if code == 0x10 && !buttonpressed { buttonpressed, buttondec := true, true; }
      if code == 0x40 && !buttonpressed { buttonpressed, buttoninc := true, true; }
      if code == 0x00 && buttonpressed { Released(); }
    }

    method Released()
      modifies this, simulator
      ensures (State(), simulator.View()) == Release(old(State()), old(simulator.View()))
    {
      if buttonenabled {
        buttonenabled := false;
        cruisemode := !cruisemode;
        simulator.mode := cruisemode;
        if !cruisemode {
          cruiseactive := false;
          simulator.active := cruiseactive;
          simulator.cruiseSpeed := 0;
          simulator.cruiseRpm := 0;
        }
      }
      assert (State(), simulator.View()) == ReleaseEnabled(old(State()), old(simulator.View()));
      ReleasedCancel();
      ReleasedDec();
      ReleasedInc();
      buttonpressed := false;
    }

    method ReleasedCancel()
      modifies this, simulator
      ensures (State(), simulator.View()) == ReleaseCancel(old(State()), old(simulator.View()))
    {
      if buttoncancel {
        buttoncancel := false;
        simulator.cruiseSpeed := Trunc(simulator.speed);
        simulator.cruiseRpm := Trunc(simulator.rpm);
        cruiseactive := false;
        simulator.active := cruiseactive;
      }
    }

    method ReleasedDec()
      modifies this, simulator
      ensures (State(), simulator.View()) == ReleaseDec(old(State()), old(simulator.View()))
    {
      if buttondec {
        buttondec := false;
        if cruiseactive {
          simulator.Decrease();
        } else {
          simulator.cruiseSpeed := Trunc(simulator.speed);
          simulator.cruiseRpm := Trunc(simulator.rpm);
          cruiseactive := !cruiseactive;
          simulator.active := cruiseactive;
        }
      }
    }

    method ReleasedInc()
      modifies this, simulator
      ensures (State(), simulator.View()) == ReleaseInc(old(State()), old(simulator.View()))
    {
      if buttoninc {
        buttoninc := false;
        if cruiseactive {
          simulator.Increase();
        } else if simulator.cruiseSpeed > 0 {
          cruiseactive := !cruiseactive;
          simulator.active := cruiseactive;
          simulator.Resume();
        }
      }
    }
  }
}
