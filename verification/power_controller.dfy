// The power controller of the INS-node as a transition system: one step per
// statement of the main loop, and interrupt routines between any two of them.
module PowerController {
  import opened RingArithmetic

  const ULONG_RANGE: nat := 0x1_0000_0000

  datatype PowerState = SleepWifiOff | SleepWifiOn | PrepareShutdown

  /** The watchdog setting (0 .. 9) and how long each state lasts, in ms. */
  datatype Config = Config(timeout: nat, offDuration: nat, onDuration: nat, shutdownDuration: nat)
  {
    /** getTimeoutDuration: `1 << (currentTimeout + 4)`. */
    function Period(): nat { Pow2(timeout + 4) }

    function Duration(state: PowerState): nat
    {
      match state
      case SleepWifiOff => offDuration
      case SleepWifiOn => onDuration
      case PrepareShutdown => shutdownDuration
    }

    /** Durations are positive and leave room for one period in 32 bits. */
    predicate Valid()
    {
      timeout <= 9 && forall state :: 0 < Duration(state) <= ULONG_RANGE - Period()
    }
  }

  const SHIPPED := Config(9, 16000, 16000, 10000)

  /** The statement about to be executed. */
  datatype Pc =
    | Top              // switch (currentState)
    | Arm              // if (!watchDogEnabled) triggerWatchDogIn(...)
    | Asleep           // goToSleep()
    | Check            // if (watchDogBarked)
    | ClearBark        // watchDogBarked = false
    | ClearEnabled     // watchDogEnabled = false
    | Credit           // timeWeHaveSlept += getTimeoutDuration()
    | Compare          // if (timeWeHaveSlept >= totalSleepDuration)
    | ResetSlept       // timeWeHaveSlept = 0; return true
    | Decide           // the test on what stayAsleepFor returned
    | SetOn | PinHigh
    | SetPrepare | Notify | ClearSignal | ResetEarly
    | Guarded | PinLow | ResetPostponed | DropSignal | Reenable   // interrupts are off here

  datatype State = State(
    pc: Pc,
    current: PowerState,
    slept: nat,           // timeWeHaveSlept
    barked: bool,         // watchDogBarked
    enabled: bool,        // watchDogEnabled
    signal: bool,         // signalFromWifiModule
    wifiPin: bool,        // WIFI_MODULE_PIN is HIGH
    armed: bool,          // the watchdog hardware is counting
    timeToChange: bool,   // what stayAsleepFor returned
    credited: nat,        // history: barks credited since the state was entered
    allCredited: nat,     // history: barks credited since power-up
    barks: nat,           // history: watchdog interrupts since power-up
    merged: nat           // history: barks that found watchDogBarked already set
  )

  function Initial(): State
  {
    State(Top, SleepWifiOff, 0, false, false, false, false, false, false, 0, 0, 0, 0)
  }

  datatype Event = Main | PinChange(rxHigh: bool) | Bark

  predicate InterruptsOff(pc: Pc) { pc in {Guarded, PinLow, ResetPostponed, DropSignal, Reenable} }

  predicate Enabled(s: State, event: Event)
  {
    match event
    case Main => true
    case PinChange(_) => !InterruptsOff(s.pc)
    case Bark => !InterruptsOff(s.pc) && s.armed
  }

  function Next(c: Config, s: State, event: Event): State
  {
    match event
    case Main => MainStep(c, s)
    case PinChange(rxHigh) => if s.current == SleepWifiOn && rxHigh then s.(signal := true) else s
    case Bark =>
      s.(barked := true, armed := false, barks := s.barks + 1, merged := s.merged + if s.barked then 1 else 0)
  }

  predicate InSleep(pc: Pc)
  {
    match pc
    case Top | Arm | Asleep | Check | ClearBark | ClearEnabled | Credit | Compare | ResetSlept => true
    case _ => false
  }

  /** One statement of the main program. */
  function MainStep(c: Config, s: State): State
  {
    if InSleep(s.pc) then SleepStep(c, s) else LoopStep(s)
  }

  /** One statement of stayAsleepFor(). Waking up is possible at any time, which
      covers every interrupt and every spurious wake-up. */
  function SleepStep(c: Config, s: State): State
    requires InSleep(s.pc)
  {
    match s.pc
    case Top => s.(pc := Arm)
    case Arm => if !s.enabled then s.(pc := Asleep, armed := true, enabled := false) else s.(pc := Asleep)
    case Asleep => s.(pc := Check)
    case Check => if s.barked then s.(pc := ClearBark) else s.(pc := Decide, timeToChange := false)
    case ClearBark => s.(pc := ClearEnabled, barked := false, allCredited := s.allCredited + 1)
    case ClearEnabled => s.(pc := Credit, enabled := false)
    case Credit =>
      s.(pc := Compare, slept := (s.slept + c.Period()) % ULONG_RANGE, credited := s.credited + 1)
    case Compare =>
      if s.slept >= c.Duration(s.current) then s.(pc := ResetSlept) else s.(pc := Decide, timeToChange := false)
    case ResetSlept => s.(pc := Decide, slept := 0, timeToChange := true)
  }

  /** One statement of loop(), after stayAsleepFor() has returned. */
  function LoopStep(s: State): State
    requires !InSleep(s.pc)
  {
    match s.pc
    case Decide =>
      (match s.current
       case SleepWifiOff => s.(pc := if s.timeToChange then SetOn else Top)
       case SleepWifiOn => s.(pc := if s.timeToChange || s.signal then SetPrepare else Top)
       case PrepareShutdown => s.(pc := Guarded))
    case SetOn => s.(pc := PinHigh, current := SleepWifiOn, credited := 0)
    case PinHigh => s.(pc := Top, wifiPin := true)
    case SetPrepare => s.(pc := Notify, current := PrepareShutdown, credited := 0)
    case Notify => s.(pc := ClearSignal)
    case ClearSignal => s.(pc := ResetEarly, signal := false)
    case ResetEarly => s.(pc := Top, slept := 0)
    case Guarded =>
      if s.timeToChange then s.(pc := PinLow, current := SleepWifiOff, credited := 0)
      else if s.signal then s.(pc := ResetPostponed, current := SleepWifiOn, credited := 0)
      else s.(pc := DropSignal)
    case PinLow => s.(pc := DropSignal, wifiPin := false)
    case ResetPostponed => s.(pc := DropSignal, slept := 0)
    case DropSignal => s.(pc := Reenable, signal := false)
    case Reenable => s.(pc := Top)
  }

  // ---- The invariant ----

  /** The time slept so far is one period per credited bark, and the state is
      not over. */
  predicate InTime(c: Config, s: State)
  {
    s.slept == s.credited * c.Period() && s.slept < c.Duration(s.current)
  }

  /** k periods are the first whole number of them that reaches the duration. */
  predicate JustReached(k: nat, period: nat, duration: nat)
  {
    k >= 1 && (k - 1) * period < duration <= k * period
  }

  predicate PinFollows(s: State) { s.wifiPin <==> s.current != SleepWifiOff }

  /** What holds once stayAsleepFor has returned. */
  predicate Returned(c: Config, s: State)
  {
    && PinFollows(s)
    && (if s.timeToChange then s.slept == 0 && JustReached(s.credited, c.Period(), c.Duration(s.current))
        else InTime(c, s))
  }

  /** Bark bookkeeping: each bark was credited, is waiting, or found an earlier
      one still waiting. */
  predicate BarksAccounted(s: State)
  {
    s.barks == s.allCredited + (if s.barked then 1 else 0) + s.merged
  }

  predicate PhaseOk(c: Config, s: State)
  {
    match s.pc
    case Top | Arm | Asleep | Check | ClearEnabled | Credit => PinFollows(s) && InTime(c, s)
    case ClearBark => PinFollows(s) && InTime(c, s) && s.barked
    case Compare =>
      PinFollows(s) && s.slept == s.credited * c.Period() && s.credited >= 1
      && (s.credited - 1) * c.Period() < c.Duration(s.current)
    case ResetSlept =>
      PinFollows(s) && s.slept >= c.Duration(s.current)
      && JustReached(s.credited, c.Period(), c.Duration(s.current))
    case Decide => Returned(c, s)
    case SetOn => Returned(c, s) && s.current == SleepWifiOff && s.timeToChange
    case PinHigh => s.current == SleepWifiOn && !s.wifiPin && InTime(c, s)
    case SetPrepare => Returned(c, s) && s.current == SleepWifiOn && (s.timeToChange || s.signal)
    case Notify | ClearSignal => s.current == PrepareShutdown && s.wifiPin && s.credited == 0
    case ResetEarly => s.current == PrepareShutdown && s.wifiPin && s.credited == 0
    case Guarded => Returned(c, s) && s.current == PrepareShutdown
    case PinLow => s.current == SleepWifiOff && s.wifiPin && InTime(c, s)
    case ResetPostponed => false
    case DropSignal | Reenable => PinFollows(s) && InTime(c, s) && s.current != SleepWifiOn
  }

  /** A signal is only kept while the module is on; clearing it late is the
      business of the two statements that follow the change of state. */
  predicate SignalOk(s: State)
  {
    s.signal ==> s.current == SleepWifiOn || s.pc in {Notify, ClearSignal}
  }

  predicate Inv(c: Config, s: State)
  {
    PhaseOk(c, s) && SignalOk(s) && BarksAccounted(s) && !s.enabled
  }

  /** The ten settings of the watchdog, in ms. */
  lemma PeriodIs(c: Config)
    requires c.timeout <= 9
    ensures c.Period() == [16, 32, 64, 128, 256, 512, 1024, 2048, 4096, 8192][c.timeout]
  {
    Pow2Add(4, c.timeout);
    assert Pow2(4) == 16;
    assert c.timeout in {0, 1, 2, 3, 4, 5, 6, 7, 8, 9};
    assert Pow2(3) == 8 && Pow2(6) == 64 && Pow2(9) == 512;
  }

  lemma PeriodBounds(c: Config)
    requires c.timeout <= 9
    ensures 16 <= c.Period() <= 8192
  {
    PeriodIs(c);
    hide Pow2, Config.Period;
  }

  lemma OnePeriodMore(k: nat, period: nat)
    ensures (k + 1) * period == k * period + period
  {
  }

  lemma InterruptKeepsInv(c: Config, s: State, event: Event)
    requires Inv(c, s) && Enabled(s, event) && event != Main
    ensures Inv(c, Next(c, s, event))
  {
    hide Pow2, JustReached;
  }

  lemma SleepKeepsInv(c: Config, s: State)
    requires c.Valid() && Inv(c, s) && InSleep(s.pc)
    ensures Inv(c, SleepStep(c, s))
  {
    if s.pc.Credit? || s.pc.Compare? || s.pc.ResetSlept? {
      CreditKeepsInv(c, s);
    } else {
      hide Pow2, JustReached, Config.Period, Config.Duration, Config.Valid;
    }
  }

  lemma CreditKeepsInv(c: Config, s: State)
    requires c.Valid() && Inv(c, s) && (s.pc.Credit? || s.pc.Compare? || s.pc.ResetSlept?)
    ensures Inv(c, SleepStep(c, s))
  {
    PeriodBounds(c);
    var period, duration := c.Period(), c.Duration(s.current);
    assert 0 < duration <= ULONG_RANGE - period;
    OnePeriodMore(s.credited, period);
    hide Pow2;
  }

  lemma DecisionKeepsInv(c: Config, s: State)
    requires c.Valid() && Inv(c, s) && s.pc in {Decide, SetOn, PinHigh, SetPrepare}
    ensures Inv(c, LoopStep(s))
  {
    assert c.Duration(LoopStep(s).current) > 0 && 0 * c.Period() == 0;
    hide Pow2, JustReached;
  }

  lemma EndOfStateKeepsInv(c: Config, s: State)
    requires c.Valid() && Inv(c, s) && !InSleep(s.pc) && s.pc !in {Decide, SetOn, PinHigh, SetPrepare}
    ensures Inv(c, LoopStep(s))
  {
    assert c.Duration(LoopStep(s).current) > 0 && 0 * c.Period() == 0;
    hide Pow2, JustReached;
  }

  /** Every statement and every interrupt, at any point where it can come,
      keeps the invariant. */
  lemma StepKeepsInv(c: Config, s: State, event: Event)
    requires c.Valid() && Inv(c, s) && Enabled(s, event)
    ensures Inv(c, Next(c, s, event))
  {
    hide Inv, SleepStep, LoopStep, Enabled;
    if event != Main {
      InterruptKeepsInv(c, s, event);
    } else if InSleep(s.pc) {
      SleepKeepsInv(c, s);
    } else if s.pc in {Decide, SetOn, PinHigh, SetPrepare} {
      DecisionKeepsInv(c, s);
    } else {
      EndOfStateKeepsInv(c, s);
    }
  }

  // ---- Whole runs ----

  ghost predicate IsRun(c: Config, states: seq<State>, events: seq<Event>)
  {
    && |states| == |events| + 1 && states[0] == Initial()
    && forall i :: 0 <= i < |events| ==> Enabled(states[i], events[i]) && states[i + 1] == Next(c, states[i], events[i])
  }

  lemma RunStep(c: Config, states: seq<State>, events: seq<Event>, i: nat)
    requires IsRun(c, states, events) && i < |events|
    ensures |states| == |events| + 1 && Enabled(states[i], events[i]) && states[i + 1] == Next(c, states[i], events[i])
  {
    hide Enabled, Next;
  }

  lemma InitialInv(c: Config)
    requires c.Valid()
    ensures Inv(c, Initial())
  {
    assert c.Duration(SleepWifiOff) > 0;
  }

  lemma {:induction false} RunKeepsInv(c: Config, states: seq<State>, events: seq<Event>, i: nat)
    requires c.Valid() && IsRun(c, states, events) && i < |states|
    ensures Inv(c, states[i])
  {
    hide Inv, Next, Enabled, Initial;
    if i == 0 {
      InitialInv(c);
    } else {
      RunKeepsInv(c, states, events, i - 1);
      RunStep(c, states, events, i - 1);
      StepKeepsInv(c, states[i - 1], events[i - 1]);
    }
  }

  /** Whenever loop() starts over: the module is powered exactly when the state
      says so, a signal is pending only while it is on, and the time slept is a
      whole number of watchdog periods and short of the state's duration. */
  lemma AtLoopBoundary(c: Config, states: seq<State>, events: seq<Event>, i: nat)
    requires c.Valid() && IsRun(c, states, events) && i < |states| && states[i].pc == Top
    ensures var s := states[i];
      && (s.wifiPin <==> s.current != SleepWifiOff)
      && (s.signal ==> s.current == SleepWifiOn)
      && s.slept == s.credited * c.Period() && s.slept < c.Duration(s.current)
  {
    RunKeepsInv(c, states, events, i);
  }

  /** The least number of periods that covers the duration. */
  function PeriodsNeeded(duration: nat, period: nat): nat
    requires period > 0
  {
    (duration + period - 1) / period
  }

  lemma JustReachedIsCeiling(k: nat, period: nat, duration: nat)
    requires period > 0 && JustReached(k, period, duration)
    ensures k == PeriodsNeeded(duration, period) && k * period - duration < period
  {
    OnePeriodMore(k - 1, period);
    ModUnique(duration + period - 1, period, k, duration + period - 1 - k * period);
  }

  /** The edges of the state machine. A state is left either after exactly the
      number of credited barks its duration needs, overshooting it by less
      than one period, or, for SLEEP_WIFI_ON only, on a signal. In particular
      PREPARE_SHUTDOWN only leads to SLEEP_WIFI_OFF. */
  lemma StateChanges(c: Config, states: seq<State>, events: seq<Event>, i: nat)
    requires c.Valid() && IsRun(c, states, events) && i < |events|
    requires states[i].current != states[i + 1].current
    ensures var s, t := states[i], states[i + 1];
      && (t.current == match s.current
                       case SleepWifiOff => SleepWifiOn
                       case SleepWifiOn => PrepareShutdown
                       case PrepareShutdown => SleepWifiOff)
      && t.credited == 0
      && var duration := match s.current
                         case SleepWifiOff => c.offDuration
                         case SleepWifiOn => c.onDuration
                         case PrepareShutdown => c.shutdownDuration;
      && ((s.timeToChange && s.credited == PeriodsNeeded(duration, c.Period())
           && s.credited * c.Period() - duration < c.Period())
          || (!s.timeToChange && s.current == SleepWifiOn && s.signal))
  {
    RunKeepsInv(c, states, events, i);
    var s, t := states[i], states[i + 1];
    assert t == Next(c, s, events[i]);
    ChangePoint(c, s, events[i]);
    if s.timeToChange {
      JustReachedIsCeiling(s.credited, c.Period(), c.Duration(s.current));
    }
  }

  lemma ChangePoint(c: Config, s: State, event: Event)
    requires Inv(c, s) && Next(c, s, event).current != s.current
    ensures s.pc in {SetOn, SetPrepare, Guarded} && Returned(c, s) && Next(c, s, event).credited == 0
    ensures Next(c, s, event).current == match s.current
                                         case SleepWifiOff => SleepWifiOn
                                         case SleepWifiOn => PrepareShutdown
                                         case PrepareShutdown => SleepWifiOff
    ensures s.timeToChange || (s.current == SleepWifiOn && s.signal)
  {
    assert event.Main? && !InSleep(s.pc) by {
      if event.Main? && InSleep(s.pc) { SleepKeepsState(c, s); }
    }
    assert s.pc == Guarded ==> !s.signal;
    hide JustReached, InTime, PinFollows, BarksAccounted, SignalOk, Pow2, SleepStep;
  }

  lemma SleepKeepsState(c: Config, s: State)
    requires InSleep(s.pc)
    ensures SleepStep(c, s).current == s.current
  {
  }

  /** The branch that would postpone a shutdown, which the protocol table of
      the documentation promises, is never reached. */
  lemma PostponeUnreachable(c: Config, states: seq<State>, events: seq<Event>, i: nat)
    requires c.Valid() && IsRun(c, states, events) && i < |states|
    ensures states[i].pc != ResetPostponed
    ensures states[i].pc == Guarded ==> !states[i].signal
  {
    RunKeepsInv(c, states, events, i);
  }

  // ---- The signal ----

  /** The RX pin has been found high since SLEEP_WIFI_ON was entered, and the
      state is still that one. */
  ghost predicate SignalledSince(states: seq<State>, events: seq<Event>, i: nat)
    requires |events| < |states| && i < |states|
  {
    exists k :: 0 <= k < i && k < |events| && SignalledAt(states, events, k, i)
  }

  predicate SignalledAt(states: seq<State>, events: seq<Event>, k: nat, i: nat)
    requires k < |events| && k < i < |states|
  {
    events[k] == PinChange(true) && forall m :: k <= m <= i ==> states[m].current == SleepWifiOn
  }

  /** While SLEEP_WIFI_ON lasts a signal is set by the pin change and by nothing
      else, and stays; the state starts without one. */
  lemma SignalStep(c: Config, s: State, event: Event)
    requires Inv(c, s) && Next(c, s, event).current == SleepWifiOn
    ensures Next(c, s, event).signal <==> s.current == SleepWifiOn && (s.signal || event == PinChange(true))
  {
    if s.current != SleepWifiOn { ChangePoint(c, s, event); }
    if event.Main? && InSleep(s.pc) { SleepKeepsSignal(c, s); }
    hide Pow2, JustReached, InTime, Returned, SleepStep;
  }

  lemma SleepKeepsSignal(c: Config, s: State)
    requires InSleep(s.pc)
    ensures SleepStep(c, s).signal == s.signal && SleepStep(c, s).current == s.current
  {
  }

  lemma SignalledStep(states: seq<State>, events: seq<Event>, i: nat)
    requires |events| < |states| && 0 < i <= |events| && states[i].current == SleepWifiOn
    ensures SignalledSince(states, events, i) <==>
              states[i - 1].current == SleepWifiOn
              && (SignalledSince(states, events, i - 1) || events[i - 1] == PinChange(true))
  {
    if SignalledSince(states, events, i) {
      var k :| 0 <= k < i && k < |events| && SignalledAt(states, events, k, i);
      if k < i - 1 { assert SignalledAt(states, events, k, i - 1); }
    }
    if states[i - 1].current == SleepWifiOn && SignalledSince(states, events, i - 1) {
      var k :| 0 <= k < i - 1 && k < |events| && SignalledAt(states, events, k, i - 1);
      assert SignalledAt(states, events, k, i);
    }
    if states[i - 1].current == SleepWifiOn && events[i - 1] == PinChange(true) {
      assert SignalledAt(states, events, i - 1, i);
    }
  }

  /** In SLEEP_WIFI_ON a signal is pending exactly when the pin was found high
      since the state was entered. */
  lemma {:induction false} SignalIffPinHigh(c: Config, states: seq<State>, events: seq<Event>, i: nat)
    requires c.Valid() && IsRun(c, states, events) && i < |states| && states[i].current == SleepWifiOn
    ensures states[i].signal <==> SignalledSince(states, events, i)
  {
    assert |states| == |events| + 1 && states[0].current == SleepWifiOff;
    hide *;
    RunKeepsInv(c, states, events, i - 1);
    RunStep(c, states, events, i - 1);
    SignalStep(c, states[i - 1], events[i - 1]);
    SignalledStep(states, events, i);
    if states[i - 1].current == SleepWifiOn {
      SignalIffPinHigh(c, states, events, i - 1);
    }
  }

  /** So the decision at the end of a pass leaves SLEEP_WIFI_ON exactly when the
      time is up or the module has signalled since the state was entered. */
  lemma LeavesOnIff(c: Config, states: seq<State>, events: seq<Event>, i: nat)
    requires c.Valid() && IsRun(c, states, events) && i < |events| && events[i] == Main
    requires states[i].pc == Decide && states[i].current == SleepWifiOn
    ensures states[i + 1].pc
            == if states[i].timeToChange || SignalledSince(states, events, i) then SetPrepare else Top
  {
    SignalIffPinHigh(c, states, events, i);
    RunStep(c, states, events, i);
    hide IsRun, SignalledSince;
  }

  /** No bark is credited twice, and none disappears unless it came while an
      earlier one was still waiting to be credited. */
  lemma BarkConservation(c: Config, states: seq<State>, events: seq<Event>, i: nat)
    requires c.Valid() && IsRun(c, states, events) && i < |states|
    ensures var s := states[i];
      s.barks == s.allCredited + (if s.barked then 1 else 0) + s.merged
  {
    RunKeepsInv(c, states, events, i);
  }

  /** The constants the controller is built with: sleeping states last two
      periods of 8192 ms, the shutdown warning lasts two as well. */
  lemma ShippedConfig()
    ensures SHIPPED.Valid() && SHIPPED.Period() == 8192
    ensures forall state :: PeriodsNeeded(SHIPPED.Duration(state), 8192) == 2
  {
    Pow2Add(6, 7);
    assert Pow2(6) == 64 && Pow2(7) == 128;
  }
}
