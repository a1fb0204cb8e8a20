# CoffeeMachine supervisory state machine, in Dafny

This project models the `CoffeeMachine` controller of `coffeemachine.py`. The
controller drives three relay outputs of an espresso machine: main power, heater
and pump. It keeps a status record and a current-state handler, `Base`, `PumpOn` or
`AllOff`. The endless main loop calls `tick` on it over and over. One tick does four
things in order:

1. It runs the current state handler. None of the handlers changes anything: the
   heater handler is an empty stub.
2. It aborts the process when more than 0.5 s has passed since the previous tick.
3. It switches everything off when power has been on for more than 3600 s.
4. It writes the main, pump and heater pins and stamps `last_tick`.

Module layout:

- `pins.dfy` (module `Pins`) holds the board pin numbers, the two pin levels and the
  level `setpin` chooses for a boolean.
- `supervisor.dfy` (module `Supervisor`) holds the status record and the state tag
  as values. It has one function per operation: `Initial`, `SwitchedOff`,
  `TempChecked` and `Step` (one tick). `Run` is a finite sequence of ticks. The
  lemmas state what holds over whole runs.
- `machine.dfy` (module `Machine`) holds the class `CoffeeMachine`. Its fields are
  the ones the source updates in place. The GPIO outputs become a ghost,
  append-only log of `(pin, level)` writes. Each method's postcondition ties the new
  fields, and the new log, to the matching `Supervisor` function. `RunMachine` is a
  client that builds the machine and ticks it through a finite list of times, as
  the main loop does.

Times are integer milliseconds, and the current time is a parameter. The
thresholds are 500 ms for the tick watchdog, 3 600 000 ms for the maximum time
on, and 500 ms for the temperature interval. Every decision in the source is a
strict `>` on a time difference. So a gap of exactly 500 ms does not abort, and
exactly 3600 s on does not switch off.

The code never sets `timeout`, `pump` or `heater`, and nothing ever makes
`PumpOn` current. Heater regulation and both button callbacks are empty stubs,
and the maximum-on-time cutoff latches no timeout flag. The safety invariants
`heater ⇒ main` and `timeout ⇒ all outputs off` are proved about this behaviour
(`Supervisor.RunKeepsReachable`).

## Model

| member | source | states |
|---|---|---|
| `Pins.LevelOf` | coffeemachine.py:55-61 | `setpin` drives a pin HIGH exactly when its test is true and LOW exactly when it is false |
| `Pins.LowWrites` | coffeemachine.py:81-84 | clearing a list of pins issues one LOW write per pin, in the list's order |
| `Supervisor.Initial` | coffeemachine.py:74-76 | the initial status has main on and pump, heater and timeout off, with every timestamp equal to the start time; the handler is Base and no reading is held; this machine is reachable and safe |
| `Supervisor.SwitchedOff` | coffeemachine.py:152-157 | `set_alloff` leaves main, pump and heater off with AllOff current; the timeout flag, every timestamp and the reading are unchanged; reachability is preserved |
| `Supervisor.TempChecked` | coffeemachine.py:159-167 | when temperature use is off, or the check is unforced and at most 500 ms after the last one, nothing changes; otherwise `temp_lastcheck` becomes now and the reading is stored; in no case does anything else change |
| `Supervisor.Outputs` | coffeemachine.py:198-200 | a tick's writes are exactly three, to MAIN then PUMP then HEATER, each HIGH exactly when its status flag is true |
| `Supervisor.Step` | coffeemachine.py:170-202 | a tick aborts exactly when more than 500 ms have passed since `last_tick` (exactly 500 ms does not abort), and an abort writes nothing; a completed tick writes the final flags, stamps `last_tick := now`, keeps timeout, startup, power-on and temperature timestamps and the reading; past the maximum on-time it ends all-off, otherwise flags and state are unchanged; it preserves reachability |
| `Supervisor.Run` | coffeemachine.py:206-210 | a completed run of n ticks issues 3n writes and leaves `last_tick` at the last tick's time |
| `Supervisor.RunAppend` | coffeemachine.py:209-210 | ticking through one list of times and then another is the same as ticking through their concatenation |
| `Supervisor.RunHaltsIffOverrun` | coffeemachine.py:191-192 | a run aborts if and only if some tick comes more than 500 ms after the one before it (or after the last tick, for the first) |
| `Supervisor.RunKeepsReachable` | coffeemachine.py:74-76 | from a reachable machine every completed run stays reachable, so `heater ⇒ main` and `timeout ⇒ all off` hold; pump, heater and timeout are never set, power-on and startup times never change, and only the MAIN pin is ever driven HIGH |
| `Supervisor.AllOffIsAbsorbing` | coffeemachine.py:195-200 | once all outputs are off in AllOff, every later completed tick keeps them off and writes only LOW |
| `Supervisor.CutoffIsPermanent` | coffeemachine.py:195-200 | once a tick finds power on for more than 3600 s, it and every later completed tick end all-off with all pins written LOW |
| `Supervisor.TickOutputsSettle` | coffeemachine.py:195-200 | two consecutive completed ticks write identical levels unless the second is the first past the cutoff, from any machine and whatever order the two clock readings come in |
| `Supervisor.TempCheckRateLimited` | coffeemachine.py:159-165 | just after a reading taken at t1, an unforced check at most 500 ms later changes nothing |
| `Machine.CoffeeMachine.constructor` | coffeemachine.py:69-118 | construction yields `Supervisor.Initial(now)`, and the log is exactly MAIN LOW, HEATER LOW, PUMP LOW; the forced temperature check changes nothing because temperature use is off |
| `Machine.CoffeeMachine.SetPin` | coffeemachine.py:55-61 | appends exactly one write, the pin at the level of its test |
| `Machine.CoffeeMachine.HandleHeater` | coffeemachine.py:126-128 | changes neither status, state, reading nor log |
| `Machine.CoffeeMachine.CallbackPowerButton` | coffeemachine.py:130-132 | changes nothing |
| `Machine.CoffeeMachine.CallbackPumpButton` | coffeemachine.py:134-136 | changes nothing |
| `Machine.CoffeeMachine.StateBase` | coffeemachine.py:139-141 | changes nothing |
| `Machine.CoffeeMachine.StatePumpOn` | coffeemachine.py:143-145 | changes nothing |
| `Machine.CoffeeMachine.StateAllOff` | coffeemachine.py:147-150 | changes nothing |
| `Machine.CoffeeMachine.RunState` | coffeemachine.py:175 | running the current handler, whichever it is, changes nothing |
| `Machine.CoffeeMachine.SetAllOff` | coffeemachine.py:152-157 | the new fields are `SwitchedOff` of the old ones |
| `Machine.CoffeeMachine.CheckTemp` | coffeemachine.py:159-167 | the new fields are `TempChecked` of the old ones |
| `Machine.CoffeeMachine.Tick` | coffeemachine.py:170-202 | `current_time := now`; returns halted exactly when `Step` aborts, and then status, state and log are untouched; otherwise the fields become `Step`'s snapshot and the log grows by `Step`'s three writes |
| `Machine.RunMachine` | coffeemachine.py:206-210 | ticking a new machine through a list of times completes all of them exactly when `Run` does; otherwise it stops at the first overrunning tick; the machine equals `Run`'s result on the completed ticks and is reachable and safe, and the log is the start-up LOW writes followed by `Run`'s writes, with only MAIN ever HIGH |

## Left out

- GPIO setup and cleanup (`GPIO.setmode`, `GPIO.setup`, `GPIO.cleanup`) are not modelled: they are hardware configuration. `GPIO.output` becomes an entry in the ghost write log.
- The 10 ms sleep after each LOW write is not modelled: it only affects timing.
- Debug printing and the temperature messages are left out: they are output only.
- The MAX31855 thermocouple driver is a foreign library. Its reading is a parameter of `CheckTemp` and of the constructor, and the `thermocouple` attribute is not modelled.
- Machine.CoffeeMachine.constructor: the source reads the clock once for each timestamp. The model uses a single `now` for all of them.
- Machine.CoffeeMachine.constructor: with temperature use on, the source would call the sensor before `thermocouple` is assigned. The model keeps the fixed `USE_TEMP = false`, and under that setting the forced check does nothing.
- The import-failure handling at start-up and the `__del__` cleanup are not modelled: they are process bootstrap and teardown.
- The endless main loop is modelled only through finite lists of tick times (`Run`, `RunMachine`). A model cannot run forever.
- The abort (`sys.exit`) is the `halted` result of `Tick` and the `Halted` outcome of `Step`. Termination of the process itself is not modelled.
- Times are integer milliseconds, not floating-point seconds. A difference below one millisecond is not represented.
- The input button pins and the thermocouple pins are not modelled: the core never uses them.
- The timeout latch, heater regulation, button handling, the event queue and the temperature history are left out because the code does not contain them.
