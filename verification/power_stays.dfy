// How long the power controller stays in a state, in watchdog interrupts.
module PowerStays {
  import opened RingArithmetic
  import opened PowerController

  // ---- One stay ----

  predicate OneState(states: seq<State>, i: nat, j: nat)
    requires i <= j < |states|
  {
    forall k :: i <= k <= j ==> states[k].current == states[i].current
  }

  /** The stay in one state from states[i], the first state with it, to
      states[j], the last one. */
  ghost predicate Stay(c: Config, states: seq<State>, events: seq<Event>, i: nat, j: nat)
  {
    && IsRun(c, states, events) && i <= j < |events|
    && (i == 0 || states[i - 1].current != states[i].current)
    && OneState(states, i, j)
    && states[j + 1].current != states[j].current
  }

  function Waiting(s: State): nat { if s.barked then 1 else 0 }

  predicate CreditUnderWay(pc: Pc)
  {
    match pc
    case ClearEnabled | Credit => true
    case _ => false
  }

  /** Barks credited before the state was entered. */
  function CreditedBefore(s: State): int
  {
    s.allCredited - s.credited - (if CreditUnderWay(s.pc) then 1 else 0)
  }

  /** Where the state variable is assigned, it gets a new value. */
  lemma AssignsNewState(c: Config, s: State)
    requires Inv(c, s)
    ensures s.pc == SetOn ==> s.current == SleepWifiOff
    ensures s.pc == SetPrepare ==> s.current == SleepWifiOn
    ensures s.pc == Guarded ==> s.current == PrepareShutdown
  {
    hide Pow2, JustReached, InTime, Returned;
  }

  lemma SleepAllCredited(c: Config, s: State)
    requires InSleep(s.pc)
    ensures SleepStep(c, s).allCredited == s.allCredited + (if s.pc.ClearBark? then 1 else 0)
  {
  }

  lemma SleepCredited(c: Config, s: State)
    requires InSleep(s.pc)
    ensures SleepStep(c, s).credited == s.credited + (if s.pc.Credit? then 1 else 0)
  {
    hide Pow2;
    match s.pc {
      case Credit =>
      case Check | Compare =>
      case _ =>
    }
  }

  lemma SleepUnderWay(c: Config, s: State)
    requires InSleep(s.pc)
    ensures CreditUnderWay(SleepStep(c, s).pc) <==> s.pc.ClearBark? || s.pc.ClearEnabled?
  {
  }

  lemma LoopAllCredited(s: State)
    requires !InSleep(s.pc)
    ensures LoopStep(s).allCredited == s.allCredited
  {
  }

  lemma LoopCredited(s: State)
    requires !InSleep(s.pc) && LoopStep(s).current == s.current
    requires !s.pc.SetOn? && !s.pc.SetPrepare? && (s.pc.Guarded? ==> s.current == PrepareShutdown)
    ensures LoopStep(s).credited == s.credited
  {
  }

  lemma LoopNotUnderWay(s: State)
    requires !InSleep(s.pc)
    ensures !CreditUnderWay(LoopStep(s).pc)
  {
    assert LoopStep(s).pc in {Top, SetOn, PinHigh, SetPrepare, Notify, ClearSignal, ResetEarly, Guarded,
                              PinLow, ResetPostponed, DropSignal, Reenable};
  }

  lemma InterruptInStay(c: Config, s: State, event: Event)
    requires !event.Main?
    ensures CreditedBefore(Next(c, s, event)) == CreditedBefore(s)
  {
    hide MainStep;
  }

  lemma StepInStay(c: Config, s: State, event: Event)
    requires Inv(c, s) && Next(c, s, event).current == s.current
    ensures CreditedBefore(Next(c, s, event)) == CreditedBefore(s)
  {
    AssignsNewState(c, s);
    assert event.Main? ==> !s.pc.SetOn? && !s.pc.SetPrepare?;
    hide Inv, SleepStep, LoopStep;
    if event.Main? {
      if InSleep(s.pc) {
        SleepAllCredited(c, s);
        SleepCredited(c, s);
        SleepUnderWay(c, s);
      } else {
        LoopAllCredited(s);
        LoopCredited(s);
        LoopNotUnderWay(s);
      }
    } else {
      InterruptInStay(c, s, event);
    }
  }

  lemma RunLength(c: Config, states: seq<State>, events: seq<Event>)
    requires IsRun(c, states, events)
    ensures |states| == |events| + 1
  {
  }

  lemma OneStateShorter(states: seq<State>, i: nat, j: nat)
    requires i < j < |states| && OneState(states, i, j)
    ensures OneState(states, i, j - 1) && states[j - 1].current == states[j].current
  {
  }

  lemma StepInRun(c: Config, states: seq<State>, events: seq<Event>, i: nat)
    requires c.Valid() && IsRun(c, states, events) && i < |events|
    requires states[i + 1].current == states[i].current
    ensures CreditedBefore(states[i + 1]) == CreditedBefore(states[i])
  {
    hide *;
    RunStep(c, states, events, i);
    RunKeepsInv(c, states, events, i);
    StepInStay(c, states[i], events[i]);
  }

  lemma {:induction false} CreditedBeforeIsConstant(c: Config, states: seq<State>, events: seq<Event>, i: nat, j: nat)
    requires c.Valid() && IsRun(c, states, events) && i <= j < |states|
    requires OneState(states, i, j)
    ensures CreditedBefore(states[j]) == CreditedBefore(states[i])
    decreases j
  {
    hide *;
    if i < j {
      RunLength(c, states, events);
      OneStateShorter(states, i, j);
      CreditedBeforeIsConstant(c, states, events, i, j - 1);
      StepInRun(c, states, events, j - 1);
    }
  }

  /** At the ends of a stay no credit is under way. */
  lemma EndsOfStay(c: Config, states: seq<State>, events: seq<Event>, i: nat, j: nat)
    requires c.Valid() && Stay(c, states, events, i, j)
    ensures CreditedBefore(states[i]) == states[i].allCredited
    ensures CreditedBefore(states[j]) == states[j].allCredited - states[j].credited
  {
    RunKeepsInv(c, states, events, j);
    RunStep(c, states, events, j);
    ChangePoint(c, states[j], events[j]);
    if i > 0 {
      RunKeepsInv(c, states, events, i - 1);
      RunStep(c, states, events, i - 1);
      hide IsRun, Inv;
      ChangePoint(c, states[i - 1], events[i - 1]);
    }
  }

  /** The watchdog interrupts during a stay are those credited to it, plus those
      that found an earlier one waiting, plus one left waiting at the end, less
      one found waiting at the start. So a state that is not cut short is left
      on exactly the ceil(D/T)-th bark if and only if nothing waiting was
      brought in that was not also merged or left behind. */
  lemma StayInBarks(c: Config, states: seq<State>, events: seq<Event>, i: nat, j: nat)
    requires c.Valid() && Stay(c, states, events, i, j)
    ensures var s, t := states[i], states[j];
      && t.barks - s.barks == t.credited + Waiting(t) - Waiting(s) + t.merged - s.merged
      && (t.timeToChange ==>
            var needed := PeriodsNeeded(c.Duration(t.current), c.Period());
            && t.credited == needed
            && (t.barks - s.barks == needed <==> Waiting(s) == Waiting(t) + t.merged - s.merged))
  {
    BarkConservation(c, states, events, i);
    BarkConservation(c, states, events, j);
    EndsOfStay(c, states, events, i, j);
    CreditedBeforeIsConstant(c, states, events, i, j);
    StateChanges(c, states, events, j);
  }

  // ---- A condition on the interrupts alone ----

  /** From i to j every watchdog interrupt comes while the processor sleeps. */
  predicate BarksAsleep(states: seq<State>, events: seq<Event>, i: nat, j: nat)
    requires i <= j <= |events| <= |states|
  {
    forall k :: i <= k < j && events[k].Bark? ==> states[k].pc.Asleep?
  }

  /** A waiting bark is about to be credited, and no other can come before. */
  predicate AboutToCredit(s: State)
  {
    s.barked ==> !s.armed && (s.pc.Asleep? || s.pc.Check? || s.pc.ClearBark?)
  }

  lemma SleepAboutToCredit(c: Config, s: State)
    requires InSleep(s.pc) && AboutToCredit(s)
    ensures AboutToCredit(SleepStep(c, s)) && SleepStep(c, s).merged == s.merged
  {
    hide Pow2;
  }

  lemma LoopAboutToCredit(s: State)
    requires !InSleep(s.pc) && AboutToCredit(s)
    ensures AboutToCredit(LoopStep(s)) && LoopStep(s).merged == s.merged
  {
    assert !LoopStep(s).barked;
  }

  lemma StepAboutToCredit(c: Config, s: State, event: Event)
    requires Enabled(s, event) && AboutToCredit(s) && (event.Bark? ==> s.pc.Asleep?)
    ensures AboutToCredit(Next(c, s, event)) && Next(c, s, event).merged == s.merged
  {
    hide SleepStep, LoopStep, InterruptsOff;
    if event.Main? {
      if InSleep(s.pc) { SleepAboutToCredit(c, s); } else { LoopAboutToCredit(s); }
    }
  }

  lemma BarksAsleepShorter(states: seq<State>, events: seq<Event>, i: nat, j: nat)
    requires i < j <= |events| <= |states| && BarksAsleep(states, events, i, j)
    ensures BarksAsleep(states, events, i, j - 1) && (events[j - 1].Bark? ==> states[j - 1].pc.Asleep?)
  {
  }

  lemma {:induction false} NothingMerges(c: Config, states: seq<State>, events: seq<Event>, i: nat, j: nat)
    requires IsRun(c, states, events) && i <= j <= |events|
    requires BarksAsleep(states, events, i, j) && AboutToCredit(states[i])
    ensures j < |states| && AboutToCredit(states[j]) && states[j].merged == states[i].merged
    decreases j
  {
    hide *;
    RunLength(c, states, events);
    if i < j {
      BarksAsleepShorter(states, events, i, j);
      NothingMerges(c, states, events, i, j - 1);
      RunStep(c, states, events, j - 1);
      StepAboutToCredit(c, states[j - 1], events[j - 1]);
    }
  }

  /** So if no bark waits at the start of a stay and each one that comes wakes
      the processor, a state that is not cut short is left on exactly the
      ceil(D/T)-th bark. */
  lemma StayOnTimeIfBarksAsleep(c: Config, states: seq<State>, events: seq<Event>, i: nat, j: nat)
    requires c.Valid() && Stay(c, states, events, i, j)
    requires !states[i].barked && BarksAsleep(states, events, i, j) && states[j].timeToChange
    ensures states[j].barks - states[i].barks == PeriodsNeeded(c.Duration(states[j].current), c.Period())
  {
    StayInBarks(c, states, events, i, j);
    NothingMerges(c, states, events, i, j);
    RunKeepsInv(c, states, events, j);
    RunStep(c, states, events, j);
    ChangePoint(c, states[j], events[j]);
    hide IsRun, Inv;
  }
}
