/** The coffee machine's supervisory state machine as values: the status record,
    the current-state tag, and what one tick does to them. Times are integer
    milliseconds and the current time is always a parameter. The class in module
    Machine is proved against these functions; the lemmas here state what holds
    over whole runs of ticks. */
module Supervisor {
  import opened Pins

  /** A tick that starts more than this long after the previous one aborts (0.5 s). */
  const TICK_LIMIT_MS: int := 500
  /** Everything is switched off once power has been on longer than this (3600 s). */
  const MAX_TIME_ON_MS: int := 3_600_000
  /** Minimum spacing of unforced temperature reads (0.5 s). */
  const TEMP_INTERVAL_MS: int := 500
  /** Temperature sensing is switched off in this configuration. */
  const USE_TEMP: bool := false

  datatype Option<T> = None | Some(value: T)

  /** Which per-tick handler is current. */
  datatype State = Base | PumpOn | AllOff

  /** The status record: the three output flags, the timeout flag and the timestamps. */
  datatype Status = Status(
    main: bool, pump: bool, heater: bool, timeout: bool,
    startupTime: int, lastPowerOn: int, lastTick: int, tempLastCheck: int)

  /** Everything a tick reads or changes: status, current state and the last
      temperature reading (absent until one is taken). */
  datatype Snapshot = Snapshot(status: Status, state: State, temp: Option<real>)

  /** The result of a tick: the process aborted, or the tick completed with a
      new machine and the pin writes it issued, in order. */
  datatype Outcome = Halted | Continued(snapshot: Snapshot, writes: seq<PinWrite>)

  /** The safety conditions a status must meet: the heater is never powered
      without main power, and a timed-out machine has every output off. */
  predicate Safe(s: Status) {
    (s.heater ==> s.main) && (s.timeout ==> !s.main && !s.pump && !s.heater)
  }

  /** The machines a run can reach: pump, heater and timeout are never set,
      and the machine is either powered in Base or unpowered in AllOff. */
  predicate Reachable(m: Snapshot) {
    !m.status.pump && !m.status.heater && !m.status.timeout &&
    ((m.state == Base && m.status.main) || (m.state == AllOff && !m.status.main))
  }

  /** All three outputs off and the AllOff handler current. */
  predicate IsAllOff(m: Snapshot) {
    m.state == AllOff && !m.status.main && !m.status.pump && !m.status.heater
  }

  /** The part of the status a tick only changes through the output flags and
      `lastTick`: the timeout flag and the three other timestamps. */
  predicate SameBookkeeping(a: Status, b: Status) {
    a.timeout == b.timeout && a.startupTime == b.startupTime &&
    a.lastPowerOn == b.lastPowerOn && a.tempLastCheck == b.tempLastCheck
  }

  /** Every write in `ws` drives its pin LOW. */
  predicate AllLow(ws: seq<PinWrite>) {
    forall i :: 0 <= i < |ws| ==> ws[i].level == Low
  }

  /** Only the main relay's pin is ever driven HIGH. */
  predicate OnlyMainHigh(ws: seq<PinWrite>) {
    forall i :: 0 <= i < |ws| && ws[i].level == High ==> ws[i].pin == PIN_MAIN
  }

  /** Prefixing LOW-only writes keeps "only MAIN is ever HIGH". */
  lemma OnlyMainHighAppend(a: seq<PinWrite>, b: seq<PinWrite>)
    requires AllLow(a) && OnlyMainHigh(b)
    ensures OnlyMainHigh(a + b)
  {
  }

  /** The machine at construction time `now`: main power assumed on, pump,
      heater and timeout off, every timestamp `now`, handler Base. */
  function Initial(now: int): (m: Snapshot)
    ensures Reachable(m) && Safe(m.status)
    ensures m.state == Base && m.status.main && m.temp == None
    ensures m.status.startupTime == now && m.status.lastPowerOn == now
    ensures m.status.lastTick == now && m.status.tempLastCheck == now
  {
    Snapshot(Status(true, false, false, false, now, now, now, now), Base, None)
  }

  /** `set_alloff`: switch every output flag off and make AllOff current. */
  function SwitchedOff(m: Snapshot): (r: Snapshot)
    ensures IsAllOff(r)
    ensures Reachable(m) ==> Reachable(r)
    ensures SameBookkeeping(r.status, m.status) && r.status.lastTick == m.status.lastTick
    ensures r.temp == m.temp
  {
    m.(status := m.status.(main := false, pump := false, heater := false), state := AllOff)
  }

  /** `_checktemp`: with temperature use enabled, take a reading when forced or
      when more than TEMP_INTERVAL_MS has passed since the last one; otherwise
      leave everything alone. */
  function TempChecked(m: Snapshot, useTemp: bool, forced: bool, now: int, reading: real): (r: Snapshot)
    ensures !(useTemp && (forced || now - m.status.tempLastCheck > TEMP_INTERVAL_MS)) ==> r == m
    ensures useTemp && (forced || now - m.status.tempLastCheck > TEMP_INTERVAL_MS) ==>
      r.status.tempLastCheck == now && r.temp == Some(reading)
    ensures r.state == m.state && r.status.(tempLastCheck := m.status.tempLastCheck) == m.status
  {
    if useTemp && (forced || now - m.status.tempLastCheck > TEMP_INTERVAL_MS) then
      m.(status := m.status.(tempLastCheck := now), temp := Some(reading))
    else
      m
  }

  /** The three writes that end a tick: main, then pump, then heater. */
  function Outputs(s: Status): (ws: seq<PinWrite>)
    ensures |ws| == 3
    ensures ws[0].pin == PIN_MAIN && ws[1].pin == PIN_PUMP && ws[2].pin == PIN_HEATER
    ensures (ws[0].level == High <==> s.main) && (ws[1].level == High <==> s.pump)
    ensures ws[2].level == High <==> s.heater
  {
    [PinWrite(PIN_MAIN, LevelOf(s.main)), PinWrite(PIN_PUMP, LevelOf(s.pump)),
     PinWrite(PIN_HEATER, LevelOf(s.heater))]
  }

  /** `tick` at time `now`. The current handler runs first and changes nothing
      (Base and PumpOn only call the empty heater handler, AllOff does nothing).
      A gap of more than TICK_LIMIT_MS since the last tick aborts; otherwise
      power on for more than MAX_TIME_ON_MS switches everything off, the three
      outputs are written and `lastTick` becomes `now`. */
  function Step(m: Snapshot, now: int): (r: Outcome)
    ensures r.Halted? <==> now - m.status.lastTick > TICK_LIMIT_MS
    ensures r.Continued? ==> r.writes == Outputs(r.snapshot.status)
    ensures r.Continued? ==> r.snapshot.status.lastTick == now
    ensures r.Continued? ==> SameBookkeeping(r.snapshot.status, m.status) && r.snapshot.temp == m.temp
    ensures r.Continued? && now - m.status.lastPowerOn > MAX_TIME_ON_MS ==> IsAllOff(r.snapshot)
    ensures r.Continued? && now - m.status.lastPowerOn <= MAX_TIME_ON_MS ==>
      r.snapshot.state == m.state && r.snapshot.status.main == m.status.main &&
      r.snapshot.status.pump == m.status.pump && r.snapshot.status.heater == m.status.heater
    ensures r.Continued? && Reachable(m) ==> Reachable(r.snapshot)
  {
    if now - m.status.lastTick > TICK_LIMIT_MS then
      Halted
    else
      var m1 := if now - m.status.lastPowerOn > MAX_TIME_ON_MS then SwitchedOff(m) else m;
      Continued(m1.(status := m1.status.(lastTick := now)), Outputs(m1.status))
  }

  /** Ticks at the successive times of `times`, stopping at the first abort;
      the writes of all completed ticks are concatenated in order. */
  function Run(m: Snapshot, times: seq<int>): (r: Outcome)
    ensures r.Continued? ==> |r.writes| == 3 * |times|
    ensures r.Continued? && times != [] ==> r.snapshot.status.lastTick == times[|times| - 1]
    decreases |times|
  {
    if times == [] then
      Continued(m, [])
    else
      match Step(m, times[0])
      case Halted => Halted
      case Continued(m1, w1) =>
        match Run(m1, times[1..])
        case Halted => Halted
        case Continued(m2, w2) => Continued(m2, w1 + w2)
  }

  /** Running two stretches of ticks one after the other is running their
      concatenation: the run stops at the first abort of either stretch. */
  lemma {:induction false} RunAppend(m: Snapshot, a: seq<int>, b: seq<int>)
    ensures Run(m, a + b) ==
      match Run(m, a)
      case Halted => Halted
      case Continued(m1, w1) =>
        match Run(m1, b)
        case Halted => Halted
        case Continued(m2, w2) => Continued(m2, w1 + w2)
    decreases |a|
  {
    if a == [] {
      assert a + b == b;
    } else {
      assert (a + b)[0] == a[0] && (a + b)[1..] == a[1..] + b;
      match Step(m, a[0])
      case Halted =>
      case Continued(m1, w1) =>
        RunAppend(m1, a[1..], b);
        match Run(m1, a[1..])
        case Halted =>
        case Continued(m2, w2) =>
          match Run(m2, b)
          case Halted =>
          case Continued(m3, w3) =>
            assert w1 + (w2 + w3) == (w1 + w2) + w3;
    }
  }

  /** The i-th tick of `times` starts more than TICK_LIMIT_MS after its
      predecessor (the previous tick time, or `last` for the first). */
  predicate Overran(last: int, times: seq<int>, i: int)
    requires 0 <= i < |times|
  {
    times[i] - (if i == 0 then last else times[i - 1]) > TICK_LIMIT_MS
  }

  /** A run aborts exactly when one of its ticks comes too late after the
      previous one. Exactly TICK_LIMIT_MS is not too late. */
  lemma {:induction false} RunHaltsIffOverrun(m: Snapshot, times: seq<int>)
    ensures Run(m, times).Halted? <==>
      exists i :: 0 <= i < |times| && Overran(m.status.lastTick, times, i)
    decreases |times|
  {
    if times != [] {
      var last := m.status.lastTick;
      match Step(m, times[0])
      case Halted =>
        assert Overran(last, times, 0);
      case Continued(m1, w1) =>
        var rest := times[1..];
        RunHaltsIffOverrun(m1, rest);
        assert !Overran(last, times, 0);
        forall j | 0 <= j < |rest|
          ensures Overran(times[0], rest, j) <==> Overran(last, times, j + 1)
        {
        }
        if Run(m, times).Halted? {
          var j :| 0 <= j < |rest| && Overran(times[0], rest, j);
          assert Overran(last, times, j + 1);
        } else {
          forall i | 0 <= i < |times|
            ensures !Overran(last, times, i)
          {
            if i > 0 {
              assert !Overran(times[0], rest, i - 1);
            }
          }
        }
      }
  }

  /** Every completed run from a reachable machine ends reachable (so safe),
      never touches the timeout flag or the power-on and startup timestamps,
      and only ever drives the main relay HIGH. */
  lemma {:induction false} RunKeepsReachable(m: Snapshot, times: seq<int>)
    requires Reachable(m)
    requires Run(m, times).Continued?
    ensures Reachable(Run(m, times).snapshot) && Safe(Run(m, times).snapshot.status)
    ensures SameBookkeeping(Run(m, times).snapshot.status, m.status)
    ensures OnlyMainHigh(Run(m, times).writes)
    decreases |times|
  {
    if times != [] {
      var s := Step(m, times[0]);
      var m1, w1 := s.snapshot, s.writes;
      var r2 := Run(m1, times[1..]);
      RunKeepsReachable(m1, times[1..]);
      assert OnlyMainHigh(w1);
      assert Run(m, times).writes == w1 + r2.writes;
    }
  }

  /** Once every output is off, later completed ticks keep it off and write
      only LOW levels. */
  lemma {:induction false} AllOffIsAbsorbing(m: Snapshot, times: seq<int>)
    requires IsAllOff(m)
    requires Run(m, times).Continued?
    ensures IsAllOff(Run(m, times).snapshot)
    ensures AllLow(Run(m, times).writes)
    decreases |times|
  {
    if times != [] {
      var s := Step(m, times[0]);
      var r2 := Run(s.snapshot, times[1..]);
      AllOffIsAbsorbing(s.snapshot, times[1..]);
      assert AllLow(s.writes);
      assert Run(m, times).writes == s.writes + r2.writes;
    }
  }

  /** The maximum-on-time cutoff is permanent: once a tick finds power on for
      longer than MAX_TIME_ON_MS, that tick and every later completed tick end
      with all outputs off and write all three pins LOW. */
  lemma CutoffIsPermanent(m: Snapshot, times: seq<int>)
    requires times != [] && times[0] - m.status.lastPowerOn > MAX_TIME_ON_MS
    requires Run(m, times).Continued?
    ensures IsAllOff(Run(m, times).snapshot)
    ensures AllLow(Run(m, times).writes)
  {
    var s := Step(m, times[0]);
    var r2 := Run(s.snapshot, times[1..]);
    AllOffIsAbsorbing(s.snapshot, times[1..]);
    assert AllLow(s.writes);
    assert Run(m, times).writes == s.writes + r2.writes;
  }

  /** Two consecutive completed ticks write the same levels unless the second
      is the first to pass the cutoff: with nothing else going on, the outputs
      are stable. The clock may even step back between the two ticks. */
  lemma TickOutputsSettle(m: Snapshot, t1: int, t2: int)
    requires t2 - m.status.lastPowerOn <= MAX_TIME_ON_MS || t1 - m.status.lastPowerOn > MAX_TIME_ON_MS
    requires Step(m, t1).Continued? && Step(Step(m, t1).snapshot, t2).Continued?
    ensures Step(Step(m, t1).snapshot, t2).writes == Step(m, t1).writes
  {
  }

  /** Unforced temperature checks are rate limited: right after a reading taken
      at `t1`, an unforced check at most TEMP_INTERVAL_MS later does nothing. */
  lemma TempCheckRateLimited(m: Snapshot, forced: bool, t1: int, t2: int, x: real, y: real)
    requires forced || t1 - m.status.tempLastCheck > TEMP_INTERVAL_MS
    requires t2 - t1 <= TEMP_INTERVAL_MS
    ensures TempChecked(TempChecked(m, true, forced, t1, x), true, false, t2, y)
         == TempChecked(m, true, forced, t1, x)
  {
  }
}
