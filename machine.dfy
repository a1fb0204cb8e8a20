/** The CoffeeMachine object: its status record and current-state tag are
    fields that the methods update in place, and the GPIO outputs are a ghost,
    append-only log of pin writes. Each method is proved against the matching
    function of module Supervisor. */
module Machine {
  import opened Pins
  import opened Supervisor

  class CoffeeMachine {
    /** The time read at the start of the latest tick (or at construction). */
    var currentTime: int
    var status: Status
    var state: State
    /** The latest temperature reading; absent until one is taken. */
    var temp: Option<real>
    /** Every pin write issued so far, oldest first. */
    ghost var log: seq<PinWrite>

    /** The fields a tick reads and changes, as one value. */
    function Model(): Snapshot
      reads this
    {
      Snapshot(status, state, temp)
    }

    /** Start-up at time `now`: the status record is set to "main on, pump,
        heater and timeout off", each output pin is cleared in PIN_OUTPUTS order,
        the Base handler is made current and a forced temperature check runs
        (`reading` is what the sensor would report; with USE_TEMP false it is
        never taken). */
    constructor (now: int, reading: real)
      ensures Model() == Initial(now) && currentTime == now
      ensures log == LowWrites(PIN_OUTPUTS)
      ensures log == [PinWrite(PIN_MAIN, Low), PinWrite(PIN_HEATER, Low), PinWrite(PIN_PUMP, Low)]
    {
      currentTime := now;
      status := Status(true, false, false, false, now, now, now, now);
      temp := None;
      log := [];
      new;
      for i := 0 to |PIN_OUTPUTS|
        invariant log == LowWrites(PIN_OUTPUTS[..i])
        invariant status == Initial(now).status && temp == None && currentTime == now
      {
        SetPin(PIN_OUTPUTS[i], false);
      }
      assert PIN_OUTPUTS[..|PIN_OUTPUTS|] == PIN_OUTPUTS;
      state := Base;
      CheckTemp(USE_TEMP, true, now, reading);
    }

    /** `setpin`: drive `pin` HIGH when `test` holds and LOW otherwise. */
    method SetPin(pin: int, test: bool)
      modifies this`log
      ensures log == old(log) + [PinWrite(pin, LevelOf(test))]
    {
      log := log + [PinWrite(pin, LevelOf(test))];
    }

    /** The heater handler is a stub: it changes nothing. */
    method HandleHeater()
      ensures Model() == old(Model()) && log == old(log)
    {
    }

    /** The power-button callback is a stub: it changes nothing. */
    method CallbackPowerButton()
      ensures Model() == old(Model()) && log == old(log)
    {
    }

    /** The pump-button callback is a stub: it changes nothing. */
    method CallbackPumpButton()
      ensures Model() == old(Model()) && log == old(log)
    {
    }

    /** The Base handler: main power on, pump off; only runs the heater handler. */
    method StateBase()
      ensures Model() == old(Model()) && log == old(log)
    {
      HandleHeater();
    }

    /** The PumpOn handler: only runs the heater handler. */
    method StatePumpOn()
      ensures Model() == old(Model()) && log == old(log)
    {
      HandleHeater();
    }

    /** The AllOff handler does nothing. */
    method StateAllOff()
      ensures Model() == old(Model()) && log == old(log)
    {
    }

    /** Runs the handler of the current state; no handler changes anything. */
    method RunState()
      ensures Model() == old(Model()) && log == old(log)
    {
      match state
      case Base => StateBase();
      case PumpOn => StatePumpOn();
      case AllOff => StateAllOff();
    }

    /** `set_alloff`: every output flag off and AllOff current; nothing else changes. */
    method SetAllOff()
      modifies this`status, this`state
      ensures Model() == SwitchedOff(old(Model()))
    {
      status := status.(main := false);
      status := status.(pump := false);
      status := status.(heater := false);
      state := AllOff;
    }

    /** `_checktemp`: with temperature use on, read the sensor when forced or
        when the last reading is more than TEMP_INTERVAL_MS old. */
    method CheckTemp(useTemp: bool, forced: bool, now: int, reading: real)
      modifies this`status, this`temp
      ensures Model() == TempChecked(old(Model()), useTemp, forced, now, reading)
    {
      if useTemp {
        if forced || now - status.tempLastCheck > TEMP_INTERVAL_MS {
          status := status.(tempLastCheck := now);
          temp := Some(reading);
        }
      }
    }

    /** `tick` at time `now`. Returns true when the tick aborts because it came
        more than TICK_LIMIT_MS after the previous one: then no pin is written
        and the status is untouched. Otherwise the new status, state and pin
        writes are those of Supervisor.Step. */
    method Tick(now: int) returns (halted: bool)
      modifies this`currentTime, this`status, this`state, this`log
      ensures currentTime == now
      ensures halted == Step(old(Model()), now).Halted?
      ensures halted ==> Model() == old(Model()) && log == old(log)
      ensures !halted ==> Model() == Step(old(Model()), now).snapshot
      ensures !halted ==> log == old(log) + Step(old(Model()), now).writes
    {
      currentTime := now;
      var timeSinceLastTick := currentTime - status.lastTick;
      RunState();
      if timeSinceLastTick > TICK_LIMIT_MS {
        return true;
      }
      if currentTime - status.lastPowerOn > MAX_TIME_ON_MS {
        SetAllOff();
      }
      SetPin(PIN_MAIN, status.main);
      SetPin(PIN_PUMP, status.pump);
      SetPin(PIN_HEATER, status.heater);
      status := status.(lastTick := currentTime);
      halted := false;
    }
  }

  /** A client: construct the machine, then tick at each time of `times`
      until a tick aborts, as the endless main loop does for its first
      |times| ticks. The machine stays safe throughout, and the run agrees
      with Supervisor.Run. */
  method RunMachine(start: int, reading: real, times: seq<int>) returns (cm: CoffeeMachine, completed: nat)
    ensures completed <= |times|
    ensures completed == |times| <==> Run(Initial(start), times).Continued?
    ensures Reachable(cm.Model()) && Safe(cm.status)
    ensures Run(Initial(start), times[..completed]).Continued?
    ensures cm.Model() == Run(Initial(start), times[..completed]).snapshot
    ensures completed < |times| ==> Run(Initial(start), times[..completed + 1]).Halted?
    ensures cm.log == LowWrites(PIN_OUTPUTS) + Run(Initial(start), times[..completed]).writes
    ensures OnlyMainHigh(cm.log)
  {
    cm := new CoffeeMachine(start, reading);
    completed := 0;
    var halted := false;
    while completed < |times| && !halted
      invariant completed <= |times|
      invariant Run(Initial(start), times[..completed]).Continued?
      invariant cm.Model() == Run(Initial(start), times[..completed]).snapshot
      invariant cm.log == LowWrites(PIN_OUTPUTS) + Run(Initial(start), times[..completed]).writes
      invariant halted ==> completed < |times| && Run(Initial(start), times[..completed + 1]).Halted?
      decreases |times| - completed, !halted
    {
      ghost var prefix := Run(Initial(start), times[..completed]);
      ghost var step := Step(prefix.snapshot, times[completed]);
      RunAppend(Initial(start), times[..completed], [times[completed]]);
      assert times[..completed] + [times[completed]] == times[..completed + 1];
      assert step.Continued? ==> Run(prefix.snapshot, [times[completed]]) == Continued(step.snapshot, step.writes + []);
      halted := cm.Tick(times[completed]);
      if !halted {
        assert step.writes + [] == step.writes;
        assert Run(Initial(start), times[..completed + 1]).writes == prefix.writes + step.writes;
        completed := completed + 1;
      }
    }
    if halted {
      RunAppend(Initial(start), times[..completed + 1], times[completed + 1..]);
      assert times[..completed + 1] + times[completed + 1..] == times;
    } else {
      assert times[..completed] == times;
    }
    RunKeepsReachable(Initial(start), times[..completed]);
    OnlyMainHighAppend(LowWrites(PIN_OUTPUTS), Run(Initial(start), times[..completed]).writes);
  }
}
