// The worker thread of the asynchronous logger: what it does with the messages
// it pops, independently of where they come from.
module AsyncWorker {

  datatype Msg = Log(level: nat, text: string) | Flush | Terminate

  /** The level below which each sink ignores a message (sink.h:36-39). */
  datatype Sinks = Sinks(levels: seq<nat>)
  {
    predicate ShouldLog(k: nat, m: Msg)
      requires k < |levels|
    {
      m.Log? && m.level >= levels[k]
    }
  }

  datatype Event =
    | Delivered(sink: nat, ticket: nat)
    | Raised(ticket: nat)        // handling the ticket threw; error handler called
    | Flushed(sink: nat)
    | FlushFailed(sink: nat)     // flushing threw; error handler called

  datatype Phase =
    | Ready                      // about to call process_next_msg
    | Popping                    // inside dequeue
    | Formatting                 // a log message was popped
    | Delivering(k: nat)         // sink k is next
    | Flushing(k: nat)           // queue found empty; sink k is next to be flushed
    | Exited

  /** taken: the messages popped so far, so taken[t] is ticket t's message.
      thrown: for each ticket whose handling threw, the first sink left out. */
  datatype Worker = Worker(phase: Phase, flushRequested: bool, terminateRequested: bool,
                           taken: seq<Msg>, thrown: map<nat, nat>, events: seq<Event>)

  datatype Act =
    | Begin
    | Pop(m: Msg)
    | Format(throws: bool)
    | Deliver(throws: bool)
    | FindEmpty(due: bool)       // due: the flush interval has expired
    | FlushSink(throws: bool)

  predicate Can(w: Worker, a: Act)
  {
    match a
    case Begin => w.phase.Ready?
    case Pop(_) => w.phase.Popping?
    case Format(_) => w.phase.Formatting? && w.taken != []
    case Deliver(_) => w.phase.Delivering? && w.taken != []
    case FindEmpty(_) => w.phase.Popping?
    case FlushSink(_) => w.phase.Flushing?
  }

  function Leave(w: Worker): Worker
  {
    w.(phase := if w.terminateRequested then Exited else Ready)
  }

  function Do(sinks: Sinks, w: Worker, a: Act): Worker
    requires Can(w, a)
  {
    match a
    case Begin => w.(phase := Popping)
    case Pop(m) =>
      var w := w.(taken := w.taken + [m]);
      (match m
       case Flush => w.(phase := Ready, flushRequested := true)
       case Terminate => w.(phase := Ready, flushRequested := true, terminateRequested := true)
       case Log(_, _) => w.(phase := Formatting))
    case Format(throws) =>
      if throws then Throw(w, 0) else w.(phase := Delivering(0))
    case Deliver(throws) =>
      var k, t := w.phase.k, |w.taken| - 1;
      if k >= |sinks.levels| then w.(phase := Ready)
      else if !sinks.ShouldLog(k, w.taken[t]) then w.(phase := Delivering(k + 1))
      else if throws then Throw(w, k)
      else w.(phase := Delivering(k + 1), events := w.events + [Delivered(k, t)])
    case FindEmpty(due) =>
      if w.flushRequested || due then w.(phase := Flushing(0)) else Leave(w)
    case FlushSink(throws) =>
      var k := w.phase.k;
      if k >= |sinks.levels| then Leave(w.(flushRequested := false))
      else if throws then w.(phase := Ready, events := w.events + [FlushFailed(k)])
      else w.(phase := Flushing(k + 1), events := w.events + [Flushed(k)])
  }

  function Throw(w: Worker, k: nat): Worker
    requires w.taken != []
  {
    var t := |w.taken| - 1;
    w.(phase := Ready, thrown := w.thrown[t := k], events := w.events + [Raised(t)])
  }

  const STARTED := Worker(Ready, false, false, [], map[], [])

  // ---- Reading the event log ----

  /** The tickets sink k received, in order of receipt. */
  function Received(events: seq<Event>, k: nat): seq<nat>
  {
    if events == [] then [] else
    var e := events[|events| - 1];
    Received(events[..|events| - 1], k) + (if e.Delivered? && e.sink == k then [e.ticket] else [])
  }

  /** The tickets sink k received since it was last flushed. */
  function Unflushed(events: seq<Event>, k: nat): seq<nat>
  {
    if events == [] then [] else
    var e, before := events[|events| - 1], Unflushed(events[..|events| - 1], k);
    if e == Flushed(k) then []
    else if e.Delivered? && e.sink == k then before + [e.ticket]
    else before
  }

  lemma {:induction false} ReceivedIffDelivered(events: seq<Event>, k: nat, t: nat)
    ensures t in Received(events, k) <==> Delivered(k, t) in events
  {
    if events != [] {
      ReceivedIffDelivered(events[..|events| - 1], k, t);
      assert events == events[..|events| - 1] + [events[|events| - 1]];
    }
  }

  lemma Snoc(events: seq<Event>, e: Event, k: nat)
    ensures Received(events + [e], k) == Received(events, k) + (if e.Delivered? && e.sink == k then [e.ticket] else [])
    ensures Unflushed(events + [e], k) ==
      if e == Flushed(k) then []
      else Unflushed(events, k) + (if e.Delivered? && e.sink == k then [e.ticket] else [])
  {
    assert (events + [e])[..|events|] == events;
  }

  /** Sink k is to get ticket t: it is a log message at or above the sink's
      level, and no exception cut its handling short before sink k. */
  predicate Gets(sinks: Sinks, taken: seq<Msg>, thrown: map<nat, nat>, k: nat, t: nat)
    requires k < |sinks.levels| && t < |taken|
  {
    sinks.ShouldLog(k, taken[t]) && (t in thrown ==> k < thrown[t])
  }

  /** The tickets below n that sink k is to get, in ticket order. */
  function Due(sinks: Sinks, taken: seq<Msg>, thrown: map<nat, nat>, k: nat, n: nat): seq<nat>
    requires k < |sinks.levels| && n <= |taken|
  {
    if n == 0 then []
    else Due(sinks, taken, thrown, k, n - 1) + (if Gets(sinks, taken, thrown, k, n - 1) then [n - 1] else [])
  }

  lemma {:induction false} DueIffGets(sinks: Sinks, taken: seq<Msg>, thrown: map<nat, nat>, k: nat, n: nat, t: nat)
    requires k < |sinks.levels| && n <= |taken|
    ensures t in Due(sinks, taken, thrown, k, n) <==> t < n && Gets(sinks, taken, thrown, k, t)
  {
    if n > 0 {
      DueIffGets(sinks, taken, thrown, k, n - 1, t);
    }
  }

  predicate AscendsBelow(s: seq<nat>, n: nat)
  {
    (forall i :: 0 <= i < |s| ==> s[i] < n) && (forall i, j :: 0 <= i < j < |s| ==> s[i] < s[j])
  }

  lemma {:induction false} DueAscends(sinks: Sinks, taken: seq<Msg>, thrown: map<nat, nat>, k: nat, n: nat)
    requires k < |sinks.levels| && n <= |taken|
    ensures AscendsBelow(Due(sinks, taken, thrown, k, n), n)
  {
    if n > 0 {
      DueAscends(sinks, taken, thrown, k, n - 1);
    }
  }

  /** Later pops and exceptions do not change what earlier tickets are due. */
  lemma {:induction false} DueStable(sinks: Sinks, taken: seq<Msg>, thrown: map<nat, nat>,
                                     taken': seq<Msg>, thrown': map<nat, nat>, k: nat, n: nat)
    requires k < |sinks.levels| && n <= |taken| <= |taken'|
    requires forall t :: 0 <= t < n ==> taken'[t] == taken[t]
    requires forall t :: 0 <= t < n ==> (t in thrown' <==> t in thrown) && (t in thrown ==> thrown'[t] == thrown[t])
    ensures Due(sinks, taken', thrown', k, n) == Due(sinks, taken, thrown, k, n)
  {
    if n > 0 {
      DueStable(sinks, taken, thrown, taken', thrown', k, n - 1);
    }
  }

  // ---- The worker's invariant ----

  predicate Busy(w: Worker) { w.phase.Formatting? || w.phase.Delivering? }

  /** Tickets completely handled: all that were popped, less the one in hand. */
  function Handled(w: Worker): nat
  {
    if Busy(w) && w.taken != [] then |w.taken| - 1 else |w.taken|
  }

  predicate AsksForFlush(m: Msg) { m.Flush? || m.Terminate? }

  ghost predicate PhaseOk(sinks: Sinks, w: Worker)
  {
    && (forall t :: t in w.thrown ==> t < |w.taken|)
    && (Busy(w) ==> w.taken != [] && w.taken[|w.taken| - 1].Log? && |w.taken| - 1 !in w.thrown)
    && (w.phase.Delivering? ==> w.phase.k <= |sinks.levels|)
    && (w.phase.Flushing? ==> w.phase.k <= |sinks.levels|)
  }

  function DueTo(sinks: Sinks, w: Worker, k: nat): seq<nat>
    requires k < |sinks.levels|
  {
    Due(sinks, w.taken, w.thrown, k, Handled(w))
  }

  /** The ticket in hand, if the worker is already past sink k with it. */
  function InHand(sinks: Sinks, w: Worker, k: nat): seq<nat>
    requires k < |sinks.levels|
  {
    if w.phase.Delivering? && k < w.phase.k && w.taken != [] && sinks.ShouldLog(k, w.taken[|w.taken| - 1])
    then [|w.taken| - 1] else []
  }

  /** What sink k has received is what the handled tickets owe it, then the
      ticket in hand. */
  ghost predicate DeliveryOk(sinks: Sinks, w: Worker, k: nat)
    requires k < |sinks.levels|
  {
    Received(w.events, k) == DueTo(sinks, w, k) + InHand(sinks, w, k)
  }

  ghost predicate RaisedOk(w: Worker)
  {
    forall t :: Raised(t) in w.events <==> t in w.thrown
  }

  ghost predicate FlagsOk(w: Worker)
  {
    && (w.terminateRequested <==> Terminate in w.taken)
    && (w.terminateRequested && !w.phase.Exited? ==> w.flushRequested)
    && (w.phase.Exited? ==> w.terminateRequested)
  }

  /** A flush is requested by a flush or terminate message only. */
  ghost predicate RequestOk(w: Worker)
  {
    w.flushRequested ==> exists t :: 0 <= t < |w.taken| && AsksForFlush(w.taken[t])
  }

  /** With no flush request outstanding, everything delivered before the last
      flush or terminate message has been flushed. */
  ghost predicate FlushOk(sinks: Sinks, w: Worker, k: nat)
  {
    && (!w.flushRequested ==>
          forall t, f :: t in Unflushed(w.events, k) && 0 <= f < |w.taken| && AsksForFlush(w.taken[f]) ==> f < t)
    && (w.phase.Flushing? && k < w.phase.k ==> Unflushed(w.events, k) == [])
    && (w.phase.Exited? ==> Unflushed(w.events, k) == [])
  }

  ghost predicate WorkerInv(sinks: Sinks, w: Worker)
  {
    && PhaseOk(sinks, w)
    && (forall k :: 0 <= k < |sinks.levels| ==> DeliveryOk(sinks, w, k))
    && RaisedOk(w)
    && FlagsOk(w) && RequestOk(w)
    && (forall k :: 0 <= k < |sinks.levels| ==> FlushOk(sinks, w, k))
  }

  lemma StartedEstablishesInv(sinks: Sinks)
    ensures WorkerInv(sinks, STARTED)
  {
  }

  lemma PhaseKept(sinks: Sinks, w: Worker, a: Act)
    requires PhaseOk(sinks, w) && Can(w, a)
    ensures PhaseOk(sinks, Do(sinks, w, a))
  {
  }

  lemma DueSnoc(sinks: Sinks, taken: seq<Msg>, thrown: map<nat, nat>, k: nat, t: nat)
    requires k < |sinks.levels| && t < |taken|
    ensures Due(sinks, taken, thrown, k, t + 1)
            == Due(sinks, taken, thrown, k, t) + (if Gets(sinks, taken, thrown, k, t) then [t] else [])
  {
  }

  lemma PopKeepsDelivery(sinks: Sinks, w: Worker, m: Msg, k: nat)
    requires PhaseOk(sinks, w) && w.phase.Popping? && k < |sinks.levels| && DeliveryOk(sinks, w, k)
    ensures var w' := Do(sinks, w, Pop(m));
            PhaseOk(sinks, w') && DeliveryOk(sinks, w', k)
  {
    var w', t := Do(sinks, w, Pop(m)), |w.taken|;
    PhaseKept(sinks, w, Pop(m));
    assert w'.taken == w.taken + [m] && w'.thrown == w.thrown && w'.events == w.events;
    assert Handled(w) == t && Handled(w') == if m.Log? then t else t + 1;
    assert InHand(sinks, w, k) == [] == InHand(sinks, w', k);
    hide PhaseOk, Do, Handled, InHand, Due, Received;
    DueStable(sinks, w.taken, w.thrown, w'.taken, w'.thrown, k, t);
    DueSnoc(sinks, w'.taken, w'.thrown, k, t);
    assert !m.Log? ==> !Gets(sinks, w'.taken, w'.thrown, k, t);
  }

  lemma ThrowKeepsDelivery(sinks: Sinks, w: Worker, j: nat, k: nat)
    requires PhaseOk(sinks, w) && k < |sinks.levels| && DeliveryOk(sinks, w, k)
    requires (w.phase.Formatting? && j == 0) || (w.phase == Delivering(j) && j < |sinks.levels|)
    ensures DeliveryOk(sinks, Throw(w, j), k)
  {
    var t, w' := |w.taken| - 1, Throw(w, j);
    assert t !in w.thrown;
    hide PhaseOk, Received, Unflushed, Due;
    Snoc(w.events, Raised(t), k);
    DueStable(sinks, w.taken, w.thrown, w'.taken, w'.thrown, k, t);
    DueSnoc(sinks, w'.taken, w'.thrown, k, t);
    assert Gets(sinks, w'.taken, w'.thrown, k, t) <==> sinks.ShouldLog(k, w.taken[t]) && k < j;
  }

  lemma LastSinkDone(sinks: Sinks, w: Worker, k: nat)
    requires PhaseOk(sinks, w) && w.phase.Delivering? && w.phase.k == |sinks.levels|
    requires k < |sinks.levels| && DeliveryOk(sinks, w, k)
    ensures DeliveryOk(sinks, Do(sinks, w, Deliver(false)), k)
  {
    var t := |w.taken| - 1;
    assert t !in w.thrown;
    hide PhaseOk, Received, Unflushed, Due;
    DueSnoc(sinks, w.taken, w.thrown, k, t);
    assert Gets(sinks, w.taken, w.thrown, k, t) <==> sinks.ShouldLog(k, w.taken[t]);
  }

  lemma NextSinkServed(sinks: Sinks, w: Worker, k: nat)
    requires PhaseOk(sinks, w) && w.phase.Delivering? && w.phase.k < |sinks.levels|
    requires k < |sinks.levels| && DeliveryOk(sinks, w, k)
    ensures DeliveryOk(sinks, Do(sinks, w, Deliver(false)), k)
  {
    hide Received, Unflushed, Due;
    Snoc(w.events, Delivered(w.phase.k, |w.taken| - 1), k);
  }

  lemma DeliverKeepsDelivery(sinks: Sinks, w: Worker, k: nat)
    requires PhaseOk(sinks, w) && w.phase.Delivering? && k < |sinks.levels| && DeliveryOk(sinks, w, k)
    ensures var w' := Do(sinks, w, Deliver(false));
            PhaseOk(sinks, w') && DeliveryOk(sinks, w', k)
  {
    PhaseKept(sinks, w, Deliver(false));
    hide DeliveryOk, Do;
    if w.phase.k < |sinks.levels| {
      NextSinkServed(sinks, w, k);
    } else {
      LastSinkDone(sinks, w, k);
    }
  }

  lemma QuietFrame(sinks: Sinks, w: Worker, w': Worker, k: nat)
    requires PhaseOk(sinks, w) && PhaseOk(sinks, w') && k < |sinks.levels| && DeliveryOk(sinks, w, k)
    requires w'.taken == w.taken && w'.thrown == w.thrown && Handled(w') == Handled(w)
    requires Received(w'.events, k) == Received(w.events, k)
    requires !w.phase.Delivering? && (w'.phase.Delivering? ==> w'.phase.k == 0)
    ensures DeliveryOk(sinks, w', k)
  {
  }

  lemma QuietStep(sinks: Sinks, w: Worker, a: Act, k: nat)
    requires PhaseOk(sinks, w) && Can(w, a)
    requires a.Begin? || a.FindEmpty? || a.FlushSink? || a == Format(false)
    ensures var w' := Do(sinks, w, a);
            && w'.taken == w.taken && w'.thrown == w.thrown && Handled(w') == Handled(w)
            && Received(w'.events, k) == Received(w.events, k)
            && !w.phase.Delivering? && (w'.phase.Delivering? ==> w'.phase.k == 0)
  {
    hide Received, Unflushed, PhaseOk;
    if a.FlushSink? {
      Snoc(w.events, FlushFailed(w.phase.k), k);
      Snoc(w.events, Flushed(w.phase.k), k);
    }
  }

  /** Where an exception from a sink leads, and where it makes no difference. */
  lemma DeliverCases(sinks: Sinks, w: Worker, throws: bool)
    requires Can(w, Deliver(throws))
    ensures Do(sinks, w, Deliver(throws)) == Do(sinks, w, Deliver(false))
            || (w.phase.k < |sinks.levels| && Do(sinks, w, Deliver(throws)) == Throw(w, w.phase.k))
  {
  }

  lemma DeliveryKept(sinks: Sinks, w: Worker, a: Act, k: nat)
    requires PhaseOk(sinks, w) && Can(w, a) && k < |sinks.levels| && DeliveryOk(sinks, w, k)
    ensures PhaseOk(sinks, Do(sinks, w, a)) && DeliveryOk(sinks, Do(sinks, w, a), k)
  {
    PhaseKept(sinks, w, a);
    if a.Deliver? { DeliverCases(sinks, w, a.throws); }
    assert a == Format(true) ==> Do(sinks, w, a) == Throw(w, 0);
    hide DeliveryOk, PhaseOk, Do, Handled;
    match a
    case Pop(m) => PopKeepsDelivery(sinks, w, m, k);
    case Format(throws) =>
      if throws {
        ThrowKeepsDelivery(sinks, w, 0, k);
      } else {
        QuietStep(sinks, w, a, k);
        QuietFrame(sinks, w, Do(sinks, w, a), k);
      }
    case Deliver(throws) =>
      if Do(sinks, w, a) == Do(sinks, w, Deliver(false)) {
        DeliverKeepsDelivery(sinks, w, k);
      } else {
        ThrowKeepsDelivery(sinks, w, w.phase.k, k);
      }
    case _ =>
      QuietStep(sinks, w, a, k);
      QuietFrame(sinks, w, Do(sinks, w, a), k);
  }

  lemma FlushFrame(sinks: Sinks, w: Worker, w': Worker, k: nat)
    requires FlushOk(sinks, w, k) && Unflushed(w'.events, k) == Unflushed(w.events, k) && w'.taken == w.taken
    requires w'.flushRequested == w.flushRequested
    requires w'.phase.Flushing? && k < w'.phase.k ==> w.phase.Flushing? && k < w.phase.k
    requires !w'.phase.Exited?
    ensures FlushOk(sinks, w', k)
  {
  }

  lemma PopKeepsFlush(sinks: Sinks, w: Worker, m: Msg, k: nat)
    requires w.phase.Popping? && FlushOk(sinks, w, k)
    ensures FlushOk(sinks, Do(sinks, w, Pop(m)), k)
  {
    var w' := Do(sinks, w, Pop(m));
    hide Unflushed;
    assert !w'.flushRequested ==>
      m.Log? && forall f :: 0 <= f < |w'.taken| && AsksForFlush(w'.taken[f]) ==> f < |w.taken|;
  }

  /** Delivering only adds the ticket in hand to what is unflushed. */
  lemma FlushGrows(sinks: Sinks, w: Worker, w': Worker, k: nat)
    requires FlushOk(sinks, w, k) && w.taken != [] && !AsksForFlush(w.taken[|w.taken| - 1])
    requires w'.taken == w.taken && w'.flushRequested == w.flushRequested
    requires forall t :: t in Unflushed(w'.events, k) ==> t in Unflushed(w.events, k) || t == |w.taken| - 1
    requires !w'.phase.Flushing? && !w'.phase.Exited?
    ensures FlushOk(sinks, w', k)
  {
    hide Unflushed;
  }

  lemma DeliverEvents(sinks: Sinks, w: Worker, a: Act)
    requires Can(w, a) && a.Deliver?
    ensures var w', t := Do(sinks, w, a), |w.taken| - 1;
      && w'.taken == w.taken && w'.flushRequested == w.flushRequested
      && !w'.phase.Flushing? && !w'.phase.Exited?
      && (|| w'.events == w.events
          || w'.events == w.events + [Delivered(w.phase.k, t)]
          || w'.events == w.events + [Raised(t)])
  {
  }

  lemma DeliverEffect(sinks: Sinks, w: Worker, a: Act, k: nat)
    requires Can(w, a) && a.Deliver?
    ensures var w' := Do(sinks, w, a);
      forall t :: t in Unflushed(w'.events, k) ==> t in Unflushed(w.events, k) || t == |w.taken| - 1
  {
    var t := |w.taken| - 1;
    DeliverEvents(sinks, w, a);
    hide Do, Unflushed, Received;
    Snoc(w.events, Delivered(w.phase.k, t), k);
    Snoc(w.events, Raised(t), k);
  }

  lemma DeliverKeepsFlush(sinks: Sinks, w: Worker, a: Act, k: nat)
    requires PhaseOk(sinks, w) && Can(w, a) && a.Deliver? && FlushOk(sinks, w, k)
    ensures FlushOk(sinks, Do(sinks, w, a), k)
  {
    DeliverEffect(sinks, w, a, k);
    DeliverEvents(sinks, w, a);
    hide FlushOk, Do, Unflushed;
    FlushGrows(sinks, w, Do(sinks, w, a), k);
  }

  lemma FlushSinkKeepsFlush(sinks: Sinks, w: Worker, a: Act, k: nat)
    requires PhaseOk(sinks, w) && Can(w, a) && a.FlushSink? && k < |sinks.levels| && FlushOk(sinks, w, k)
    ensures FlushOk(sinks, Do(sinks, w, a), k)
  {
    var w' := Do(sinks, w, a);
    assert w'.taken == w.taken && w.phase.k <= |sinks.levels|;
    hide PhaseOk, Unflushed, Received;
    Snoc(w.events, Flushed(w.phase.k), k);
    Snoc(w.events, FlushFailed(w.phase.k), k);
  }

  lemma FlushKept(sinks: Sinks, w: Worker, a: Act, k: nat)
    requires PhaseOk(sinks, w) && FlagsOk(w) && Can(w, a) && k < |sinks.levels| && FlushOk(sinks, w, k)
    ensures FlushOk(sinks, Do(sinks, w, a), k)
  {
    match a
    case Pop(m) => PopKeepsFlush(sinks, w, m, k);
    case Deliver(_) => DeliverKeepsFlush(sinks, w, a, k);
    case FlushSink(_) => FlushSinkKeepsFlush(sinks, w, a, k);
    case Format(_) =>
      Snoc(w.events, Raised(|w.taken| - 1), k);
      FlushFrame(sinks, w, Do(sinks, w, a), k);
    case _ => FlushFrame(sinks, w, Do(sinks, w, a), k);
  }

  lemma FlagsKept(sinks: Sinks, w: Worker, a: Act)
    requires PhaseOk(sinks, w) && RaisedOk(w) && FlagsOk(w) && Can(w, a)
    ensures RaisedOk(Do(sinks, w, a)) && FlagsOk(Do(sinks, w, a))
  {
  }

  lemma RequestKept(sinks: Sinks, w: Worker, a: Act)
    requires RequestOk(w) && Can(w, a)
    ensures RequestOk(Do(sinks, w, a))
  {
    var w' := Do(sinks, w, a);
    if a.Pop? {
      assert w'.taken[|w.taken|] == a.m;
      assert forall t :: 0 <= t < |w.taken| ==> w'.taken[t] == w.taken[t];
    }
  }

  lemma DoPreservesInv(sinks: Sinks, w: Worker, a: Act)
    requires WorkerInv(sinks, w) && Can(w, a)
    ensures WorkerInv(sinks, Do(sinks, w, a))
  {
    var w' := Do(sinks, w, a);
    PhaseKept(sinks, w, a);
    FlagsKept(sinks, w, a);
    RequestKept(sinks, w, a);
    hide PhaseOk, RaisedOk, FlagsOk, RequestOk, DeliveryOk, FlushOk, Do;
    forall k | 0 <= k < |sinks.levels| ensures DeliveryOk(sinks, w', k) && FlushOk(sinks, w', k) {
      DeliveryKept(sinks, w, a, k);
      FlushKept(sinks, w, a, k);
    }
  }

  // ---- The pass over an empty queue ----

  /** The worker after the flush steps that are left, when none of them throws. */
  function FlushRest(sinks: Sinks, w: Worker): Worker
    decreases if !w.phase.Flushing? then 0
              else if w.phase.k >= |sinks.levels| then 1 else |sinks.levels| - w.phase.k + 1
  {
    if w.phase.Flushing? then FlushRest(sinks, Do(sinks, w, FlushSink(false))) else w
  }

  /** Sinks k .. n - 1, flushed in this order. */
  function FlushedFrom(k: nat, n: nat): (events: seq<Event>)
    ensures |events| == if k < n then n - k else 0
    ensures forall i :: 0 <= i < |events| ==> events[i] == Flushed(k + i)
    decreases n - k
  {
    if k >= n then [] else [Flushed(k)] + FlushedFrom(k + 1, n)
  }

  lemma {:induction false} FlushRestIs(sinks: Sinks, w: Worker)
    requires w.phase.Flushing?
    ensures FlushRest(sinks, w) == w.(phase := if w.terminateRequested then Exited else Ready, flushRequested := false,
                                      events := w.events + FlushedFrom(w.phase.k, |sinks.levels|))
    decreases |sinks.levels| - w.phase.k
  {
    var k, w' := w.phase.k, Do(sinks, w, FlushSink(false));
    if k < |sinks.levels| {
      FlushRestIs(sinks, w');
      assert w.events + [Flushed(k)] + FlushedFrom(k + 1, |sinks.levels|)
             == w.events + FlushedFrom(k, |sinks.levels|);
    } else {
      assert w.events + [] == w.events && FlushRest(sinks, w') == w';
    }
  }

  lemma {:induction false} FlushedLeavesNothing(events: seq<Event>, k: nat, from: nat, n: nat)
    requires k < n && from <= n
    requires k < from ==> Unflushed(events, k) == []
    ensures Unflushed(events + FlushedFrom(from, n), k) == []
    ensures Received(events + FlushedFrom(from, n), k) == Received(events, k)
    decreases n - from
  {
    hide Received, Unflushed;
    if from == n {
      assert events + [] == events;
    } else {
      Snoc(events, Flushed(from), k);
      FlushedLeavesNothing(events + [Flushed(from)], k, from + 1, n);
      assert events + [Flushed(from)] + FlushedFrom(from + 1, n) == events + FlushedFrom(from, n);
    }
  }

  /** A pass that finds the queue empty and in which no sink throws: it flushes
      every sink, in order, when a flush message asked for it or the interval has
      expired, and else none; afterwards no flush is requested. It ends the worker
      exactly when a terminate message was popped. */
  lemma EmptyPass(sinks: Sinks, w: Worker, due: bool)
    requires WorkerInv(sinks, w) && w.phase.Popping?
    ensures var w' := FlushRest(sinks, Do(sinks, w, FindEmpty(due)));
      && w'.taken == w.taken && w'.thrown == w.thrown && !w'.flushRequested
      && (w'.phase == if Terminate in w.taken then Exited else Ready)
      && (if w.flushRequested || due then
            && w'.events == w.events + FlushedFrom(0, |sinks.levels|)
            && forall k :: 0 <= k < |sinks.levels| ==>
                 Unflushed(w'.events, k) == [] && Received(w'.events, k) == Received(w.events, k)
          else w'.events == w.events)
    ensures w.flushRequested ==> exists t :: 0 <= t < |w.taken| && (w.taken[t].Flush? || w.taken[t].Terminate?)
  {
    var w1 := Do(sinks, w, FindEmpty(due));
    if w.flushRequested || due {
      FlushRestIs(sinks, w1);
      forall k | 0 <= k < |sinks.levels|
        ensures Unflushed(w.events + FlushedFrom(0, |sinks.levels|), k) == []
        ensures Received(w.events + FlushedFrom(0, |sinks.levels|), k) == Received(w.events, k)
      {
        FlushedLeavesNothing(w.events, k, 0, |sinks.levels|);
      }
    }
  }
}
