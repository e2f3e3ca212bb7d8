// Nobody gets stuck, and the worker of a logger that was told to terminate comes
// to its end.
module AsyncProgress {
  import opened MpmcQueue
  import opened MpmcTheorems
  import opened AsyncWorker
  import opened AsyncLog
  import opened AsyncFlushRace

  // ---- Somebody can always go on ----

  /** What a thread does next inside the queue; no compare-and-swap fails without
      cause. */
  function NextAction(l: Local<Msg>): Action<Msg>
  {
    match l
    case EnqHavePos(_, _) => LoadSequence
    case DeqHavePos(_) => LoadSequence
    case EnqHaveSeq(_, _, _) => Compare(false)
    case DeqHaveSeq(_, _) => Compare(false)
    case EnqClaimed(_, m) => Move(m)
    case DeqClaimed(_) => Move(Msg.Flush)
    case EnqMoved(_) => Publish
    case DeqMoved(_, _) => Publish
    case _ => LoadLast
  }

  /** What the worker does next; nothing throws. */
  function WorkerNext(g: Logger): Happening
  {
    var l := LocalOf(g, WORKER);
    match g.worker.phase
    case Ready => WorkerBegin
    case Popping =>
      if l.DeqDone? then WorkerPop
      else if l.DeqEmpty? then WorkerAct(FindEmpty(false))
      else WorkerQueue(NextAction(l))
    case Formatting => WorkerAct(Format(false))
    case Delivering(_) => WorkerAct(Deliver(false))
    case _ => WorkerAct(FlushSink(false))
  }

  function ClientNext(g: Logger, tid: Tid): Happening
  {
    var l := LocalOf(g, tid);
    if !l.AtRest() then ClientQueue(tid, NextAction(l))
    else if tid !in g.clients || g.clients[tid].Outside? || g.clients[tid].FlushReturned? then
      Call(tid, Msg.Flush, true)
    else if g.clients[tid].Pushing? then (if l.EnqDone? then Pushed(tid) else Retry(tid))
    else if l == SizeDone(0) then Return(tid)
    else PollSize(tid)
  }

  lemma WorkerCanGoOn(sinks: Sinks, g: Logger)
    requires LoggerInv(sinks, g) && !g.worker.phase.Exited?
    ensures Possible(sinks, g, WorkerNext(g))
  {
    assert PhaseOk(sinks, g.worker) && CountersOk(g.q);
    hide Inv, ClientOk, WorkerInv, TakenOk;
  }

  lemma ClientCanGoOn(sinks: Sinks, g: Logger, tid: Tid)
    requires LoggerInv(sinks, g) && tid in g.clients
    ensures Possible(sinks, g, ClientNext(g, tid))
  {
    assert ClientOk(g, tid) && CountersOk(g.q);
    hide Inv, WorkerInv, TakenOk, WorkerOk;
  }

  /** In every reachable state each client can make a step, and so can the worker
      until it has exited. */
  lemma NobodyIsStuck(sinks: Sinks, g0: Logger, run: seq<Happening>)
    requires Initial(g0) && CanHappen(sinks, g0, run)
    ensures var g := After(sinks, g0, run);
      && (forall tid :: tid in g.clients ==> Possible(sinks, g, ClientNext(g, tid)))
      && (!g.worker.phase.Exited? ==> Possible(sinks, g, WorkerNext(g)))
  {
    var g := After(sinks, g0, run);
    InitialEstablishesInv(sinks, g0);
    AfterKeepsInv(sinks, g0, run);
    hide *;
    forall tid | tid in g.clients ensures Possible(sinks, g, ClientNext(g, tid)) {
      ClientCanGoOn(sinks, g, tid);
    }
    if !g.worker.phase.Exited? { WorkerCanGoOn(sinks, g); }
  }

  // ---- The worker alone comes to its end ----

  ghost predicate TerminateTicketed(g: Logger)
  {
    exists t :: t in g.q.hist.sent && g.q.hist.sent[t] == Terminate
  }

  /** Nobody is storing a message, and one of those stored is a terminate. */
  ghost predicate Closing(sinks: Sinks, g: Logger)
  {
    LoggerInv(sinks, g) && NobodyStores(g.q) && TerminateTicketed(g)
  }

  /** Messages not yet popped. */
  function Waiting(g: Logger): int { g.q.core.mem.enqueuePos - |g.worker.taken| }

  /** Steps left until the worker pops the next message, or else until it exits. */
  function StepsLeft(sinks: Sinks, g: Logger): int
  {
    var n, some, l := |sinks.levels|, Waiting(g) > 0, LocalOf(g, WORKER);
    match g.worker.phase
    case Exited => 0
    case Flushing(k) => (if some then 8 else 1) + n - k
    case Ready => if some then 7 else 10 + n
    case Delivering(k) => 11 + 2 * n - k
    case Formatting => 12 + 2 * n
    case Popping =>
      match l
      case DeqDone(_, _) => 1
      case DeqMoved(_, _) => 2
      case DeqClaimed(_) => 3
      case DeqHavePos(_) => if some then 5 else 8 + n
      case DeqHaveSeq(pos, sq) =>
        if sq <= pos then (if some then 10 + n else 3 + n)
        else if some then (if sq == pos + 1 then 4 else 6) else 9 + n
      case DeqEmpty => if some then 9 + n else 2 + n
      case _ => 0
  }

  ghost predicate Nearer(sinks: Sinks, g: Logger, g': Logger)
  {
    && g'.q.core.mem.enqueuePos == g.q.core.mem.enqueuePos && g'.clients == g.clients
    && g'.worker.thrown == g.worker.thrown && g'.q.hist.sent == g.q.hist.sent && NobodyStores(g'.q)
    && 0 <= Waiting(g') <= Waiting(g) && 0 <= StepsLeft(sinks, g')
    && (Waiting(g') < Waiting(g) || StepsLeft(sinks, g') < StepsLeft(sinks, g))
  }

  /** One step of a dequeuer whose position is current, when nobody stores. */
  lemma DequeuerStep(q: State<Msg>, tid: Tid)
    requires Inv(q) && NobodyStores(q) && tid in q.core.threads
    requires var l := q.core.threads[tid];
             || (l.DeqHavePos? && l.pos == q.core.mem.dequeuePos)
             || (l.DeqHaveSeq? && l.pos == q.core.mem.dequeuePos) || l.DeqClaimed? || l.DeqMoved?
    ensures var l := q.core.threads[tid];
      && CanStep(q.core, tid, NextAction(l))
      && var q' := Next(q, tid, NextAction(l));
      && NobodyStores(q') && q'.hist.sent == q.hist.sent && q'.core.mem.enqueuePos == q.core.mem.enqueuePos
      && tid in q'.core.threads
      && var l', deq := q'.core.threads[tid], q.core.mem.dequeuePos;
      && (l.DeqHavePos? ==> l'.DeqHaveSeq? && l'.pos == deq
                            && (if deq < q.core.mem.enqueuePos then l'.sq == deq + 1 else l'.sq <= deq))
      && (l.DeqHaveSeq? ==> if l.sq <= l.pos then l'.DeqEmpty?
                            else if l.sq == l.pos + 1 then l'.DeqClaimed? else l' == DeqHavePos(deq))
      && (l.DeqClaimed? ==> l'.DeqMoved?) && (l.DeqMoved? ==> l'.DeqDone?)
  {
    var l, deq := q.core.threads[tid], q.core.mem.dequeuePos;
    assert ThreadOk(q, tid);
    if l.DeqHavePos? {
      LoadsNotAboveIff(q, tid);
      if deq < q.core.mem.enqueuePos { PublishedCell(q, deq); }
    } else if l.DeqHaveSeq? {
      DequeueCompares(q, tid, false);
    }
    hide CellOk, FreeCellOk, FullCellOk, TicketsOk;
  }

  lemma WorkerBeginsNearer(sinks: Sinks, g: Logger)
    requires Closing(sinks, g) && g.worker.phase.Ready?
    ensures Possible(sinks, g, WorkerNext(g)) && Nearer(sinks, g, Happen(sinks, g, WorkerNext(g)))
  {
    assert CountersOk(g.q) && WorkerOk(g);
    hide LoggerInv, Inv;
  }

  /** A step inside dequeue. */
  lemma WorkerDequeuesNearer(sinks: Sinks, g: Logger)
    requires Closing(sinks, g) && g.worker.phase.Popping? && !LocalOf(g, WORKER).AtRest()
    ensures Possible(sinks, g, WorkerNext(g)) && Nearer(sinks, g, Happen(sinks, g, WorkerNext(g)))
  {
    assert Inv(g.q) && CountersOk(g.q) && WorkerOk(g);
    hide LoggerInv, Inv, NobodyStores, Next, CanStep;
    DequeuerStep(g.q, WORKER);
  }

  /** With a terminate message popped, an empty queue is flushed and then left. */
  lemma EmptyLeads(sinks: Sinks, g: Logger)
    requires Closing(sinks, g)
    ensures 0 <= Waiting(g) && PhaseOk(sinks, g.worker)
    ensures Waiting(g) == 0 ==> g.worker.terminateRequested && (!g.worker.phase.Exited? ==> g.worker.flushRequested)
  {
    TakenIsSent(sinks, g);
    assert FlagsOk(g.worker) && CountersOk(g.q) && WorkerOk(g);
    if Waiting(g) == 0 {
      var t :| t in g.q.hist.sent && g.q.hist.sent[t] == Terminate;
      SentBelowEnqueued(g.q);
      assert t < |g.worker.taken| && g.worker.taken[t] == Terminate;
    }
  }

  /** Where a step of the worker that does not touch the queue leads. */
  lemma ActLeads(sinks: Sinks, w: Worker, a: Act)
    requires PhaseOk(sinks, w) && Can(w, a) && !a.Begin?
    requires a == Format(false) || a == Deliver(false) || a == FlushSink(false) || a == FindEmpty(false) || a.Pop?
    ensures var w', n := Do(sinks, w, a), |sinks.levels|;
      && w'.thrown == w.thrown && w'.taken == w.taken + (if a.Pop? then [a.m] else [])
      && (a.Pop? ==> w'.phase.Ready? || w'.phase.Formatting?)
      && (a.Format? ==> w'.phase == Delivering(0))
      && (a.Deliver? ==> w'.phase == if w.phase.k < n then Delivering(w.phase.k + 1) else Ready)
      && (a.FlushSink? ==> if w.phase.k < n then w'.phase == Flushing(w.phase.k + 1)
                           else w'.phase == if w.terminateRequested then Exited else Ready)
      && (a.FindEmpty? ==> w'.phase == if w.flushRequested then Flushing(0)
                                       else if w.terminateRequested then Exited else Ready)
  {
  }

  /** The step that ends dequeue, with a message or without. */
  lemma WorkerLeavesNearer(sinks: Sinks, g: Logger)
    requires Closing(sinks, g) && g.worker.phase.Popping? && LocalOf(g, WORKER).AtRest()
    ensures Possible(sinks, g, WorkerNext(g)) && Nearer(sinks, g, Happen(sinks, g, WorkerNext(g)))
  {
    assert WorkerOk(g) && LoggerInv(sinks, g) && CountersOk(g.q);
    EmptyLeads(sinks, g);
    WorkerCanGoOn(sinks, g);
    hide Closing, LoggerInv, Inv, NobodyStores, Next, CanStep, TerminateTicketed, Do, PhaseOk;
    var h := WorkerNext(g);
    ActLeads(sinks, g.worker, if h.WorkerPop? then Pop(LocalOf(g, WORKER).msg) else h.act);
  }

  /** A step with a message in hand, or while flushing. */
  lemma WorkerActsNearer(sinks: Sinks, g: Logger)
    requires Closing(sinks, g)
    requires g.worker.phase.Formatting? || g.worker.phase.Delivering? || g.worker.phase.Flushing?
    ensures Possible(sinks, g, WorkerNext(g)) && Nearer(sinks, g, Happen(sinks, g, WorkerNext(g)))
  {
    assert LoggerInv(sinks, g);
    EmptyLeads(sinks, g);
    WorkerCanGoOn(sinks, g);
    assert g.worker.phase.Formatting? || g.worker.phase.k <= |sinks.levels|;
    hide Closing, LoggerInv, Inv, NobodyStores, Next, CanStep, TerminateTicketed, Do, PhaseOk, WorkerOk, ClientOk;
    ActLeads(sinks, g.worker, WorkerNext(g).act);
  }

  lemma StaysClosing(sinks: Sinks, g: Logger, g': Logger)
    requires Closing(sinks, g) && LoggerInv(sinks, g') && Nearer(sinks, g, g')
    ensures Closing(sinks, g')
  {
    hide LoggerInv, NobodyStores;
  }

  lemma NextIsNearer(sinks: Sinks, g: Logger)
    requires Closing(sinks, g) && !g.worker.phase.Exited?
    ensures Possible(sinks, g, WorkerNext(g)) && 0 <= Waiting(g) && 0 <= StepsLeft(sinks, g)
    ensures var g' := Happen(sinks, g, WorkerNext(g));
            Closing(sinks, g') && Nearer(sinks, g, g')
  {
    EmptyLeads(sinks, g);
    assert LoggerInv(sinks, g);
    assert 0 <= StepsLeft(sinks, g) by { hide Closing, LoggerInv; }
    hide Closing, LoggerInv, Happen, Possible, Nearer, StepsLeft, WorkerNext;
    if g.worker.phase.Ready? {
      WorkerBeginsNearer(sinks, g);
    } else if g.worker.phase.Popping? && !LocalOf(g, WORKER).AtRest() {
      WorkerDequeuesNearer(sinks, g);
    } else if g.worker.phase.Popping? {
      WorkerLeavesNearer(sinks, g);
    } else {
      WorkerActsNearer(sinks, g);
    }
    HappenPreservesInv(sinks, g, WorkerNext(g));
    StaysClosing(sinks, g, Happen(sinks, g, WorkerNext(g)));
  }

  predicate WorkerOnly(run: seq<Happening>)
  {
    forall i :: 0 <= i < |run| ==> run[i].WorkerBegin? || run[i].WorkerQueue? || run[i].WorkerPop? || run[i].WorkerAct?
  }

  lemma OneMore(sinks: Sinks, g: Logger, h: Happening, rest: seq<Happening>)
    requires Possible(sinks, g, h) && CanHappen(sinks, Happen(sinks, g, h), rest)
    requires WorkerOnly(rest) && WorkerOnly([h])
    ensures CanHappen(sinks, g, [h] + rest) && WorkerOnly([h] + rest)
    ensures After(sinks, g, [h] + rest) == After(sinks, Happen(sinks, g, h), rest)
  {
    assert ([h] + rest)[1..] == rest && [h][0] == h;
    hide Possible, Happen;
  }

  /** From any state in which nobody stores and a terminate message has a ticket,
      the steps of the worker alone lead to its exit, with nothing thrown on the
      way. */
  lemma {:induction false} WorkerExits(sinks: Sinks, g: Logger) returns (run: seq<Happening>)
    requires Closing(sinks, g)
    ensures CanHappen(sinks, g, run) && WorkerOnly(run)
    ensures var g' := After(sinks, g, run);
            && g'.worker.phase.Exited? && g'.worker.thrown == g.worker.thrown && g'.q.hist.sent == g.q.hist.sent
            && g'.q.core.mem.enqueuePos == g.q.core.mem.enqueuePos
    decreases Waiting(g), StepsLeft(sinks, g)
  {
    hide Closing, Nearer, Happen, Possible, StepsLeft, WorkerOnly, Waiting;
    if g.worker.phase.Exited? {
      run := [];
      NoStep(sinks, g);
    } else {
      NextIsNearer(sinks, g);
      var h := WorkerNext(g);
      NearerMeans(sinks, g, Happen(sinks, g, h));
      var rest := WorkerExits(sinks, Happen(sinks, g, h));
      IsWorkers(g);
      OneMore(sinks, g, h, rest);
      run := [h] + rest;
    }
  }

  lemma NoStep(sinks: Sinks, g: Logger)
    ensures CanHappen(sinks, g, []) && After(sinks, g, []) == g && WorkerOnly([])
  {
  }

  lemma IsWorkers(g: Logger)
    ensures WorkerOnly([WorkerNext(g)])
  {
  }

  lemma NearerMeans(sinks: Sinks, g: Logger, g': Logger)
    requires Nearer(sinks, g, g')
    ensures 0 <= Waiting(g') <= Waiting(g) && 0 <= StepsLeft(sinks, g')
    ensures Waiting(g') < Waiting(g) || StepsLeft(sinks, g') < StepsLeft(sinks, g)
    ensures g'.worker.thrown == g.worker.thrown && g'.q.hist.sent == g.q.hist.sent
    ensures g'.q.core.mem.enqueuePos == g.q.core.mem.enqueuePos
  {
  }

  lemma {:induction false} AfterBoth(sinks: Sinks, g: Logger, first: seq<Happening>, second: seq<Happening>)
    requires CanHappen(sinks, g, first) && CanHappen(sinks, After(sinks, g, first), second)
    ensures CanHappen(sinks, g, first + second)
    ensures After(sinks, g, first + second) == After(sinks, After(sinks, g, first), second)
    decreases |first|
  {
    hide Possible, Happen;
    if first == [] {
      assert first + second == second;
    } else {
      AfterBoth(sinks, Happen(sinks, g, first[0]), first[1..], second);
      assert (first + second)[1..] == first[1..] + second && (first + second)[0] == first[0];
    }
  }

  /** Safety and progress together: once the last message ticketed is a terminate
      message and nobody is storing, the worker alone can bring any logger in
      which nothing has thrown to its exit, and then every sink has received
      exactly the messages it accepts, in ticket order, and was flushed. */
  lemma ClosingDeliversEverything(sinks: Sinks, g0: Logger, run: seq<Happening>, last: nat)
    returns (rest: seq<Happening>)
    requires Initial(g0) && CanHappen(sinks, g0, run)
    requires var g := After(sinks, g0, run);
      && NobodyStores(g.q) && g.worker.thrown == map[] && last + 1 == g.q.core.mem.enqueuePos
      && last in g.q.hist.sent && g.q.hist.sent[last] == Terminate
      && forall t :: t in g.q.hist.sent && t < last ==> g.q.hist.sent[t] != Terminate
    ensures CanHappen(sinks, g0, run + rest) && WorkerOnly(rest)
    ensures var g, sent := After(sinks, g0, run + rest), After(sinks, g0, run).q.hist.sent;
      && g.worker.phase.Exited? && g.q.hist.sent == sent
      && forall k :: 0 <= k < |sinks.levels| ==>
           var r := Received(g.worker.events, k);
           && AscendsBelow(r, last + 1) && Unflushed(g.worker.events, k) == []
           && forall t :: t in r <==> t in sent && sent[t].Log? && sent[t].level >= sinks.levels[k]
  {
    var g := After(sinks, g0, run);
    InitialEstablishesInv(sinks, g0);
    AfterKeepsInv(sinks, g0, run);
    SentBelowEnqueued(g.q);
    hide LoggerInv, NobodyStores, Initial, CanHappen, After, WorkerOnly, Received, Unflushed, AscendsBelow;
    rest := WorkerExits(sinks, g);
    AfterBoth(sinks, g0, run, rest);
    forall k | 0 <= k < |sinks.levels|
      ensures var r, sent := Received(After(sinks, g0, run + rest).worker.events, k), g.q.hist.sent;
        && AscendsBelow(r, last + 1) && Unflushed(After(sinks, g0, run + rest).worker.events, k) == []
        && forall t :: t in r <==> t in sent && sent[t].Log? && sent[t].level >= sinks.levels[k]
    {
      ExitDeliversEverything(sinks, g0, run + rest, k);
    }
  }

  // ---- Every logger has such a run ----

  /** Client tid is about to store the first message, and nobody else has done
      anything. */
  ghost predicate First(g: Logger, tid: Tid, m: Msg, enq: nat, sq: nat, l: Local<Msg>)
  {
    var mem := g.q.core.mem;
    && |mem.cells| >= 2 && mem.enqueuePos == enq && mem.dequeuePos == 0 && mem.cells[0].sequence == sq
    && tid in g.clients && tid in g.q.core.threads && LocalOf(g, tid) == l && g.clients[tid] == Pushing(m, false)
    && g.worker == STARTED && forall t :: t in g.q.core.threads && t != tid ==> g.q.core.threads[t] == Idle
  }

  lemma FirstCall(sinks: Sinks, g0: Logger, tid: Tid, m: Msg) returns (run: seq<Happening>)
    requires Initial(g0) && tid in g0.clients
    ensures CanHappen(sinks, g0, run)
    ensures var g := After(sinks, g0, run);
            First(g, tid, m, 0, 0, EnqHavePos(0, m)) && g.q.hist.sent == map[]
  {
    run := [Call(tid, m, false)];
    assert run[1..] == [];
  }

  lemma FirstClaimed(sinks: Sinks, g0: Logger, tid: Tid, m: Msg) returns (run: seq<Happening>)
    requires Initial(g0) && tid in g0.clients
    ensures CanHappen(sinks, g0, run)
    ensures var g := After(sinks, g0, run);
            First(g, tid, m, 1, 0, EnqClaimed(0, m)) && g.q.hist.sent == map[]
  {
    run := FirstCall(sinks, g0, tid, m);
    hide Initial, After, CanHappen;
    run := Extend(sinks, g0, run, ClientQueue(tid, LoadSequence));
    run := Extend(sinks, g0, run, ClientQueue(tid, Compare(false)));
  }

  lemma FirstPushed(sinks: Sinks, g0: Logger, tid: Tid, m: Msg) returns (run: seq<Happening>)
    requires Initial(g0) && tid in g0.clients
    ensures CanHappen(sinks, g0, run)
    ensures var g := After(sinks, g0, run);
            First(g, tid, m, 1, 1, EnqDone(0)) && g.q.hist.sent == map[0 := m]
  {
    run := FirstClaimed(sinks, g0, tid, m);
    hide Initial, After, CanHappen;
    run := Extend(sinks, g0, run, ClientQueue(tid, Move(m)));
    run := Extend(sinks, g0, run, ClientQueue(tid, Publish));
  }

  /** Every logger can be shut down: told to terminate, its worker exits. */
  lemma EveryLoggerCanClose(sinks: Sinks, g0: Logger, tid: Tid) returns (run: seq<Happening>)
    requires Initial(g0) && tid in g0.clients
    ensures CanHappen(sinks, g0, run)
    ensures var g := After(sinks, g0, run);
            g.worker.phase.Exited? && g.worker.thrown == map[] && g.q.hist.sent == map[0 := Terminate]
  {
    run := FirstPushed(sinks, g0, tid, Terminate);
    var g := After(sinks, g0, run);
    InitialEstablishesInv(sinks, g0);
    AfterKeepsInv(sinks, g0, run);
    assert NobodyStores(g.q) && g.worker.thrown == map[];
    assert 0 in g.q.hist.sent && g.q.hist.sent[0] == Terminate;
    assert Closing(sinks, g);
    hide *;
    var rest := WorkerExits(sinks, g);
    AfterBoth(sinks, g0, run, rest);
    run := run + rest;
  }
}
