// Runs of the power controller in which a state is left on another bark than
// its duration asks for, or is not left at all.
module PowerRuns {
  import opened RingArithmetic
  import opened PowerController
  import opened PowerStays

  datatype Trace = Trace(states: seq<State>, events: seq<Event>)

  /** The trace is a run that ends in s and has not changed its state since
      entering it at index i with e. */
  ghost predicate StaysIn(c: Config, r: Trace, i: nat, e: State, s: State)
  {
    && IsRun(c, r.states, r.events) && i <= |r.events| && r.states[i] == e && r.states[|r.events|] == s
    && (i == 0 || r.states[i - 1].current != r.states[i].current)
    && OneState(r.states, i, |r.events|)
  }

  lemma StepRun(c: Config, r: Trace, event: Event) returns (r': Trace)
    requires IsRun(c, r.states, r.events) && Enabled(r.states[|r.events|], event)
    ensures IsRun(c, r'.states, r'.events)
    ensures r'.states == r.states + [Next(c, r.states[|r.events|], event)] && r'.events == r.events + [event]
  {
    var s := r.states[|r.events|];
    r' := Trace(r.states + [Next(c, s, event)], r.events + [event]);
    forall k | 0 <= k < |r'.events|
      ensures Enabled(r'.states[k], r'.events[k]) && r'.states[k + 1] == Next(c, r'.states[k], r'.events[k])
    {
      if k < |r.events| { RunStep(c, r.states, r.events, k); }
    }
    hide Next, Enabled, Initial;
  }

  /** One more step in the same state. */
  lemma Go(c: Config, r: Trace, i: nat, e: State, s: State, event: Event) returns (r': Trace, s': State)
    requires StaysIn(c, r, i, e, s) && Enabled(s, event) && Next(c, s, event).current == s.current
    ensures s' == Next(c, s, event) && StaysIn(c, r', i, e, s')
    ensures r'.states == r.states + [s'] && r'.events == r.events + [event]
  {
    hide Next, Enabled, Initial;
    r' := StepRun(c, r, event);
    s' := Next(c, s, event);
  }

  /** The step that leaves the state. */
  lemma Leave(c: Config, r: Trace, i: nat, e: State, s: State, event: Event) returns (r': Trace, j: nat)
    requires StaysIn(c, r, i, e, s) && Enabled(s, event) && Next(c, s, event).current != s.current
    ensures Stay(c, r'.states, r'.events, i, j) && r'.states[i] == e && r'.states[j] == s
    ensures StaysIn(c, r', j + 1, Next(c, s, event), Next(c, s, event))
  {
    hide Next, Enabled, Initial;
    r' := StepRun(c, r, event);
    j := |r.events|;
  }

  // ---- Crediting barks until the state is over ----

  /** From the top of loop() into sleep, with the watchdog running. */
  lemma FallAsleep(c: Config, r: Trace, i: nat, e: State, s: State) returns (r': Trace, s': State)
    requires StaysIn(c, r, i, e, s) && s.pc.Top? && !s.enabled
    ensures StaysIn(c, r', i, e, s') && |r'.events| == |r.events| + 2 && r.states <= r'.states
    ensures s' == s.(pc := Asleep, armed := true)
  {
    hide StaysIn, Pow2;
    r', s' := Go(c, r, i, e, s, Main);
    r', s' := Go(c, r', i, e, s', Main);
  }

  /** A pin change wakes the controller before the watchdog does. */
  lemma WokenByPin(c: Config, r: Trace, i: nat, e: State, s: State) returns (r': Trace, s': State)
    requires StaysIn(c, r, i, e, s) && s.pc.Asleep? && !s.barked
    ensures StaysIn(c, r', i, e, s') && |r'.events| == |r.events| + 3 && r.states <= r'.states
    ensures s' == s.(pc := Decide, timeToChange := false, signal := s.signal || s.current.SleepWifiOn?)
  {
    hide StaysIn, Pow2;
    r', s' := Go(c, r, i, e, s, PinChange(true));
    r', s' := Go(c, r', i, e, s', Main);
    r', s' := Go(c, r', i, e, s', Main);
  }

  /** The statements that warn the module and start the shutdown. */
  lemma WarningSent(c: Config, r: Trace, i: nat, e: State, s: State) returns (r': Trace, s': State)
    requires StaysIn(c, r, i, e, s) && s.pc.Notify?
    ensures StaysIn(c, r', i, e, s') && s' == s.(pc := Top, signal := false, slept := 0)
  {
    hide StaysIn, Pow2;
    r', s' := Go(c, r, i, e, s, Main);
    r', s' := Go(c, r', i, e, s', Main);
    r', s' := Go(c, r', i, e, s', Main);
  }

  /** Woken by a bark, or with one still waiting: the flag is cleared. */
  lemma ClearsFlag(c: Config, r: Trace, i: nat, e: State, s: State) returns (r': Trace, s': State)
    requires StaysIn(c, r, i, e, s) && s.pc.Asleep? && s.barked
    ensures StaysIn(c, r', i, e, s')
    ensures s' == s.(pc := ClearEnabled, barked := false, allCredited := s.allCredited + 1)
  {
    hide StaysIn, Pow2;
    r', s' := Go(c, r, i, e, s, Main);
    r', s' := Go(c, r', i, e, s', Main);
    r', s' := Go(c, r', i, e, s', Main);
  }

  /** And the statements up to the comparison credit the bark. */
  lemma CreditOne(c: Config, r: Trace, i: nat, e: State, s: State) returns (r': Trace, s': State)
    requires StaysIn(c, r, i, e, s) && s.pc.Asleep? && s.barked && !s.enabled
    requires s.slept + c.Period() < ULONG_RANGE
    ensures StaysIn(c, r', i, e, s')
    ensures s' == s.(pc := Compare, barked := false, slept := s.slept + c.Period(),
                     credited := s.credited + 1, allCredited := s.allCredited + 1)
  {
    hide StaysIn, Pow2;
    r', s' := ClearsFlag(c, r, i, e, s);
    r', s' := Go(c, r', i, e, s', Main);
    r', s' := Go(c, r', i, e, s', Main);
  }

  lemma ShutdownGoesOn(c: Config, r: Trace, i: nat, e: State, s: State) returns (r': Trace, s': State)
    requires StaysIn(c, r, i, e, s) && s.pc.Decide? && s.current.PrepareShutdown? && !s.timeToChange && !s.signal
    ensures StaysIn(c, r', i, e, s') && s' == s.(pc := Top)
  {
    hide StaysIn, Pow2;
    r', s' := Go(c, r, i, e, s, Main);
    r', s' := Go(c, r', i, e, s', Main);
    assert s' == s.(pc := DropSignal);
    r', s' := Go(c, r', i, e, s', Main);
    r', s' := Go(c, r', i, e, s', Main);
  }

  /** Back to the top of loop() when the state is not over. */
  lemma PassEnds(c: Config, r: Trace, i: nat, e: State, s: State) returns (r': Trace, s': State)
    requires StaysIn(c, r, i, e, s) && s.pc.Compare? && s.slept < c.Duration(s.current)
    requires !s.signal && !s.current.SleepWifiOn?
    ensures StaysIn(c, r', i, e, s') && s' == s.(pc := Top, timeToChange := false)
  {
    hide StaysIn, Pow2;
    r', s' := Go(c, r, i, e, s, Main);
    assert s' == s.(pc := Decide, timeToChange := false);
    if s.current.PrepareShutdown? {
      r', s' := ShutdownGoesOn(c, r', i, e, s');
    } else {
      r', s' := Go(c, r', i, e, s', Main);
    }
  }

  /** Asleep again until the watchdog barks. */
  lemma SleepAgain(c: Config, r: Trace, i: nat, e: State, s: State) returns (r': Trace, s': State)
    requires StaysIn(c, r, i, e, s) && s.pc.Top? && !s.barked && !s.enabled
    ensures StaysIn(c, r', i, e, s')
    ensures s' == s.(pc := Asleep, barked := true, armed := false, barks := s.barks + 1)
  {
    hide StaysIn, Pow2;
    r', s' := FallAsleep(c, r, i, e, s);
    r', s' := Go(c, r', i, e, s', Bark);
  }

  /** One bark for every credit but the first brings a state to its end. */
  lemma {:induction false} UntilDue(c: Config, r: Trace, i: nat, e: State, s: State) returns (r': Trace, s': State)
    requires c.Valid() && StaysIn(c, r, i, e, s) && s.pc.Asleep? && s.barked
    requires !s.enabled && !s.signal && !s.current.SleepWifiOn? && s.slept < c.Duration(s.current)
    ensures StaysIn(c, r', i, e, s')
    ensures s'.pc.Decide? && s'.timeToChange && !s'.barked && !s'.signal && !s'.enabled && s'.current == s.current
    ensures s'.merged == s.merged && s'.barks - s.barks == s'.credited - s.credited - 1
    decreases c.Duration(s.current) - s.slept
  {
    PeriodBounds(c);
    assert c.Duration(s.current) <= ULONG_RANGE - c.Period();
    hide StaysIn, Pow2, Next, Config.Period, Config.Duration, Config.Valid;
    r', s' := CreditOne(c, r, i, e, s);
    if s'.slept < c.Duration(s.current) {
      r', s' := PassEnds(c, r', i, e, s');
      r', s' := SleepAgain(c, r', i, e, s');
      r', s' := UntilDue(c, r', i, e, s');
    } else {
      r', s' := EndsSleep(c, r', i, e, s');
    }
  }

  lemma EndsSleep(c: Config, r: Trace, i: nat, e: State, s: State) returns (r': Trace, s': State)
    requires StaysIn(c, r, i, e, s) && s.pc.Compare? && s.slept >= c.Duration(s.current)
    ensures StaysIn(c, r', i, e, s')
    ensures s' == s.(pc := Decide, slept := 0, timeToChange := true)
  {
    hide StaysIn, Pow2;
    r', s' := Go(c, r, i, e, s, Main);
    r', s' := Go(c, r', i, e, s', Main);
  }

  lemma PowerUp(c: Config) returns (r: Trace)
    ensures StaysIn(c, r, 0, Initial(), Initial()) && r == Trace([Initial()], [])
  {
    r := Trace([Initial()], []);
  }

  // ---- Too late: barks are merged ----

  /** A bark that comes right after stayAsleepFor found none is still waiting
      when the re-armed watchdog barks again. The first pass ends early on a
      pin change. */
  lemma TwoBarksOneCredit(c: Config) returns (r: Trace, s: State)
    requires c.Valid()
    ensures StaysIn(c, r, 0, Initial(), s)
    ensures s == Initial().(pc := Asleep, barked := true, barks := 2, merged := 1)
  {
    r := PowerUp(c);
    hide StaysIn, Pow2;
    r, s := FallAsleep(c, r, 0, Initial(), Initial());
    r, s := WokenByPin(c, r, 0, Initial(), s);
    r, s := Go(c, r, 0, Initial(), s, Bark);
    r, s := Go(c, r, 0, Initial(), s, Main);
    r, s := FallAsleep(c, r, 0, Initial(), s);
    r, s := Go(c, r, 0, Initial(), s, Bark);
  }

  /** With any configuration SLEEP_WIFI_OFF can last one bark longer than its
      duration asks for. */
  lemma StateCanEndLate(c: Config) returns (r: Trace, j: nat)
    requires c.Valid()
    ensures Stay(c, r.states, r.events, 0, j) && r.states[j].current == SleepWifiOff && r.states[j].timeToChange
    ensures r.states[j].barks - r.states[0].barks == PeriodsNeeded(c.Duration(SleepWifiOff), c.Period()) + 1
  {
    var s;
    r, s := TwoBarksOneCredit(c);
    assert c.Duration(SleepWifiOff) > 0;
    r, s := UntilDue(c, r, 0, Initial(), s);
    r, s := Go(c, r, 0, Initial(), s, Main);
    r, j := Leave(c, r, 0, Initial(), s, Main);
    StayInBarks(c, r.states, r.events, 0, j);
  }

  // ---- Too early: a bark is carried over ----

  /** SLEEP_WIFI_ON entered after the normal number of barks. */
  lemma WifiOn(c: Config) returns (r: Trace, i: nat, s: State)
    requires c.Valid()
    ensures StaysIn(c, r, i, s, s)
    ensures s.pc.PinHigh? && s.current == SleepWifiOn && !s.barked && !s.enabled && !s.signal
  {
    r := PowerUp(c);
    hide Pow2;
    s := Initial();
    assert c.Duration(SleepWifiOff) > 0;
    r, s := FallAsleep(c, r, 0, Initial(), s);
    r, s := Go(c, r, 0, Initial(), s, Bark);
    r, s := UntilDue(c, r, 0, Initial(), s);
    r, s := Go(c, r, 0, Initial(), s, Main);
    var j;
    r, j := Leave(c, r, 0, Initial(), s, Main);
    i, s := j + 1, Next(c, s, Main);
  }

  /** The module signals, and the watchdog barks after stayAsleepFor returned:
      PREPARE_SHUTDOWN starts with a bark that is not its own. */
  lemma WarnedWithBarkWaiting(c: Config) returns (r: Trace, i: nat, s: State)
    requires c.Valid()
    ensures StaysIn(c, r, i, s, s)
    ensures s.pc.Notify? && s.current == PrepareShutdown && s.barked && !s.enabled && s.credited == 0
  {
    r, i, s := WifiOn(c);
    ghost var e := s;
    hide StaysIn, Pow2;
    r, s := Go(c, r, i, e, s, Main);
    r, s := FallAsleep(c, r, i, e, s);
    r, s := WokenByPin(c, r, i, e, s);
    r, s := Go(c, r, i, e, s, Bark);
    r, s := Go(c, r, i, e, s, Main);
    var j;
    r, j := Leave(c, r, i, e, s, Main);
    i, s := j + 1, Next(c, s, Main);
  }

  /** The first sleep of that state is ended by a pin change. */
  lemma WarnedAsleep(c: Config) returns (r: Trace, i: nat, e: State, s: State)
    requires c.Valid()
    ensures StaysIn(c, r, i, e, s) && s.pc.Asleep? && s.barked && !s.enabled && !s.signal && s.slept == 0
    ensures s.current == PrepareShutdown && s.credited == 0 && s.barks == e.barks && s.merged == e.merged
    ensures e.barked
  {
    r, i, s := WarnedWithBarkWaiting(c);
    e := s;
    hide StaysIn, Pow2;
    r, s := WarningSent(c, r, i, e, s);
    r, s := FallAsleep(c, r, i, e, s);
    r, s := Go(c, r, i, e, s, PinChange(false));
  }

  /** With any configuration PREPARE_SHUTDOWN can end on one bark fewer than its
      duration asks for. */
  lemma ShutdownCanComeEarly(c: Config) returns (r: Trace, i: nat, j: nat)
    requires c.Valid()
    ensures Stay(c, r.states, r.events, i, j) && r.states[j].current == PrepareShutdown && r.states[j].timeToChange
    ensures r.states[j].barks - r.states[i].barks == PeriodsNeeded(c.Duration(PrepareShutdown), c.Period()) - 1
  {
    var e, s;
    r, i, e, s := WarnedAsleep(c);
    assert c.Duration(PrepareShutdown) > 0;
    hide StaysIn, Pow2;
    r, s := UntilDue(c, r, i, e, s);
    r, s := Go(c, r, i, e, s, Main);
    r, j := Leave(c, r, i, e, s, Main);
    hide Stay;
    StayInBarks(c, r.states, r.events, i, j);
  }

  // ---- Never: every pass restarts the watchdog ----

  /** Pin changes that come before the watchdog barks keep the controller in its
      state for any number of passes of loop() without a single bark. */
  lemma {:induction false} StaysWithoutBarks(c: Config, passes: nat) returns (r: Trace, s: State)
    requires c.Valid()
    ensures StaysIn(c, r, 0, Initial(), s) && |r.events| == 6 * passes && s.pc.Top?
    ensures s.barks == 0 && !s.barked && !s.enabled && s.slept == 0 && s.current == SleepWifiOff
    ensures forall k :: 0 <= k <= passes ==> r.states[6 * k].pc.Top?
  {
    if passes == 0 {
      r := PowerUp(c);
      s := Initial();
    } else {
      r, s := StaysWithoutBarks(c, passes - 1);
      r, s := FallAsleep(c, r, 0, Initial(), s);
      r, s := WokenByPin(c, r, 0, Initial(), s);
      r, s := Go(c, r, 0, Initial(), s, Main);
    }
  }
}
