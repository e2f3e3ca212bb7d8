// The asynchronous logger: client threads pushing through the bounded queue
// under block_retry, and the single worker that empties it.
module AsyncLog {
  import opened MpmcQueue
  import opened MpmcTheorems
  import opened AsyncWorker

  const WORKER: Tid := 0

  datatype Client =
    | Outside
    | Pushing(msg: Msg, wait: bool)     // push_msg: enqueue, and again while refused
    | WaitingEmpty(ticket: nat)         // wait_empty_q after the flush message went in
    | FlushReturned(ticket: nat)        // flush(true) has returned

  datatype Logger = Logger(q: State<Msg>, worker: Worker, clients: map<Tid, Client>)

  datatype Happening =
    | Call(tid: Tid, msg: Msg, wait: bool)   // log, flush(wait) or the destructor
    | ClientQueue(tid: Tid, a: Action<Msg>)  // a step inside enqueue or approx_size
    | Retry(tid: Tid)
    | Pushed(tid: Tid)
    | PollSize(tid: Tid)
    | Return(tid: Tid)
    | WorkerBegin
    | WorkerQueue(a: Action<Msg>)            // a step inside dequeue
    | WorkerPop
    | WorkerAct(act: Act)

  function LocalOf(g: Logger, tid: Tid): Local<Msg> { ThreadOf(g.q, tid) }

  predicate Possible(sinks: Sinks, g: Logger, h: Happening)
  {
    match h
    case Call(tid, msg, wait) =>
      && tid in g.clients && CanStep(g.q.core, tid, BeginEnqueue(msg))
      && (g.clients[tid].Outside? || g.clients[tid].FlushReturned?) && (wait ==> msg.Flush?)
    case ClientQueue(tid, a) =>
      && tid in g.clients && CanStep(g.q.core, tid, a) && !LocalOf(g, tid).AtRest()
    case Retry(tid) =>
      && tid in g.clients && g.clients[tid].Pushing? && LocalOf(g, tid).EnqRefused?
      && CanStep(g.q.core, tid, BeginEnqueue(LocalOf(g, tid).msg))
    case Pushed(tid) => tid in g.clients && g.clients[tid].Pushing? && LocalOf(g, tid).EnqDone?
    case PollSize(tid) =>
      && tid in g.clients && g.clients[tid].WaitingEmpty? && CanStep(g.q.core, tid, BeginSize)
      && LocalOf(g, tid) != SizeDone(0)
    case Return(tid) => tid in g.clients && g.clients[tid].WaitingEmpty? && LocalOf(g, tid) == SizeDone(0)
    case WorkerBegin => g.worker.phase.Ready? && CanStep(g.q.core, WORKER, BeginDequeue)
    case WorkerQueue(a) => g.worker.phase.Popping? && CanStep(g.q.core, WORKER, a) && !LocalOf(g, WORKER).AtRest()
    case WorkerPop => g.worker.phase.Popping? && LocalOf(g, WORKER).DeqDone?
    case WorkerAct(act) =>
      && Can(g.worker, act) && !act.Begin? && !act.Pop?
      && (act.FindEmpty? ==> LocalOf(g, WORKER).DeqEmpty?)
  }

  function Happen(sinks: Sinks, g: Logger, h: Happening): Logger
    requires Possible(sinks, g, h)
  {
    match h
    case Call(tid, msg, wait) =>
      g.(q := Next(g.q, tid, BeginEnqueue(msg)), clients := g.clients[tid := Pushing(msg, wait)])
    case ClientQueue(tid, a) => g.(q := Next(g.q, tid, a))
    case Retry(tid) => g.(q := Next(g.q, tid, BeginEnqueue(LocalOf(g, tid).msg)))
    case Pushed(tid) =>
      g.(clients := g.clients[tid := if g.clients[tid].wait then WaitingEmpty(LocalOf(g, tid).pos) else Outside])
    case PollSize(tid) => g.(q := Next(g.q, tid, BeginSize))
    case Return(tid) => g.(clients := g.clients[tid := FlushReturned(g.clients[tid].ticket)])
    case WorkerBegin => g.(q := Next(g.q, WORKER, BeginDequeue), worker := Do(sinks, g.worker, Begin))
    case WorkerQueue(a) => g.(q := Next(g.q, WORKER, a))
    case WorkerPop => g.(worker := Do(sinks, g.worker, Pop(LocalOf(g, WORKER).msg)))
    case WorkerAct(act) => g.(worker := Do(sinks, g.worker, act))
  }

  ghost predicate Initial(g: Logger)
  {
    && Init(g.q) && g.worker == STARTED
    && WORKER in g.q.core.threads && g.clients.Keys == g.q.core.threads.Keys - {WORKER}
    && forall tid :: tid in g.clients ==> g.clients[tid] == Outside
  }

  // ---- The invariant that ties clients, queue and worker together ----

  /** A client inside push_msg still owns its message, or has stored it; one that
      waits holds the ticket of its flush message. */
  ghost predicate ClientOk(g: Logger, tid: Tid)
    requires tid in g.clients
  {
    var l, sent := LocalOf(g, tid), g.q.hist.sent;
    match g.clients[tid]
    case Outside => l.AtRest() && !l.DeqDone? && !l.DeqEmpty?
    case Pushing(msg, wait) =>
      && (wait ==> msg.Flush?)
      && (match l
          case EnqHavePos(_, m) => m == msg
          case EnqHaveSeq(_, _, m) => m == msg
          case EnqClaimed(_, m) => m == msg
          case EnqRefused(m) => m == msg
          case EnqMoved(p) => p in sent && sent[p] == msg
          case EnqDone(p) => p in sent && sent[p] == msg
          case _ => false)
    case WaitingEmpty(f) =>
      && f in sent && sent[f] == Msg.Flush && f < g.q.core.mem.enqueuePos
      && (l.EnqDone? || l.SizeHaveFirst? || l.SizeDone?)
      && (l == SizeDone(0) ==> f < g.q.core.mem.dequeuePos)
    case FlushReturned(f) =>
      && f in sent && sent[f] == Msg.Flush && f < g.q.core.mem.dequeuePos
      && l.AtRest() && !l.DeqDone? && !l.DeqEmpty?
  }

  /** The messages popped by the worker are those of the claimed tickets, less
      one that it may have in hand inside dequeue. */
  ghost predicate WorkerOk(g: Logger)
  {
    var l, n, d := LocalOf(g, WORKER), |g.worker.taken|, g.q.core.mem.dequeuePos;
    && WORKER in g.q.core.threads
    && (if g.worker.phase.Popping? then
          match l
          case DeqHavePos(p) => n == d == p
          case DeqHaveSeq(p, _) => n == d == p
          case DeqEmpty => n == d
          case DeqClaimed(p) => n == p == d - 1
          case DeqMoved(p, _) => n == p == d - 1
          case DeqDone(p, _) => n == p == d - 1
          case _ => false
        else n == d && (l.Idle? || l.DeqDone? || l.DeqEmpty?))
  }

  ghost predicate TakenOk(g: Logger)
  {
    forall t :: 0 <= t < |g.worker.taken| ==> t in g.q.hist.received && g.q.hist.received[t] == g.worker.taken[t]
  }

  ghost predicate LoggerInv(sinks: Sinks, g: Logger)
  {
    && Inv(g.q) && WorkerInv(sinks, g.worker)
    && g.clients.Keys == g.q.core.threads.Keys - {WORKER}
    && (forall tid :: tid in g.clients ==> ClientOk(g, tid))
    && WorkerOk(g) && TakenOk(g)
  }

  lemma InitialEstablishesInv(sinks: Sinks, g: Logger)
    requires Initial(g)
    ensures LoggerInv(sinks, g)
  {
    InitEstablishesInv(g.q);
    StartedEstablishesInv(sinks);
  }

  lemma HistoryGrows(q: State<Msg>, tid: Tid, a: Action<Msg>)
    requires Inv(q) && CanStep(q.core, tid, a)
    ensures var h, h' := q.hist, Next(q, tid, a).hist;
            && (forall t :: t in h.sent ==> t in h'.sent && h'.sent[t] == h.sent[t])
            && (forall t :: t in h.received ==> t in h'.received && h'.received[t] == h.received[t])
  {
    StepLogs(q, Turn(tid, a));
    hide *;
  }

  lemma CountersGrow(q: State<Msg>, tid: Tid, a: Action<Msg>)
    requires Inv(q) && CanStep(q.core, tid, a)
    ensures var mem, mem' := q.core.mem, Next(q, tid, a).core.mem;
            mem.enqueuePos <= mem'.enqueuePos && mem.dequeuePos <= mem'.dequeuePos
  {
    EnqueueStep(q, Turn(tid, a));
    DequeueStep(q, Turn(tid, a));
    hide *;
  }

  lemma OthersStay(q: State<Msg>, tid: Tid, a: Action<Msg>)
    requires CanStep(q.core, tid, a)
    ensures var q' := Next(q, tid, a);
            tid in q'.core.threads && q'.core.threads == q.core.threads[tid := q'.core.threads[tid]]
  {
    hide Step, Record;
  }

  /** What a queue step by tid means to everybody else: counters and history only
      grow, and the other threads stay where they are. */
  lemma QueueStepFrame(q: State<Msg>, tid: Tid, a: Action<Msg>)
    requires Inv(q) && CanStep(q.core, tid, a)
    ensures var q' := Next(q, tid, a);
            && Inv(q') && tid in q'.core.threads && q'.core.threads == q.core.threads[tid := q'.core.threads[tid]]
            && q.core.mem.enqueuePos <= q'.core.mem.enqueuePos
            && q.core.mem.dequeuePos <= q'.core.mem.dequeuePos
            && (forall t :: t in q.hist.sent ==> t in q'.hist.sent && q'.hist.sent[t] == q.hist.sent[t])
            && (forall t :: t in q.hist.received ==> t in q'.hist.received && q'.hist.received[t] == q.hist.received[t])
  {
    hide *;
    StepPreservesInv(q, tid, a);
    HistoryGrows(q, tid, a);
    CountersGrow(q, tid, a);
    OthersStay(q, tid, a);
  }

  /** A queue step by another thread leaves what is known of a client true. */
  lemma OtherClient(g: Logger, q': State<Msg>, tid: Tid, other: Tid)
    requires other in g.clients && ClientOk(g, other) && other != tid
    requires tid in g.q.core.threads && tid in q'.core.threads
    requires q'.core.threads == g.q.core.threads[tid := q'.core.threads[tid]]
    requires g.q.core.mem.enqueuePos <= q'.core.mem.enqueuePos && g.q.core.mem.dequeuePos <= q'.core.mem.dequeuePos
    requires forall t :: t in g.q.hist.sent ==> t in q'.hist.sent && q'.hist.sent[t] == g.q.hist.sent[t]
    ensures ClientOk(g.(q := q'), other)
  {
  }

  lemma OtherClientSame(g: Logger, clients': map<Tid, Client>, tid: Tid)
    requires tid in g.clients && tid in clients' && clients'[tid] == g.clients[tid] && ClientOk(g, tid)
    ensures ClientOk(g.(clients := clients'), tid)
  {
  }

  /** A client's own step inside the queue. */
  lemma ClientQueueStep(g: Logger, tid: Tid, a: Action<Msg>)
    requires Inv(g.q) && tid in g.clients && CanStep(g.q.core, tid, a) && ClientOk(g, tid)
    requires !LocalOf(g, tid).AtRest()
    ensures ClientOk(g.(q := Next(g.q, tid, a)), tid)
    ensures Next(g.q, tid, a).core.mem.dequeuePos == g.q.core.mem.dequeuePos
  {
    assert ThreadOk(g.q, tid);
    QueueStepFrame(g.q, tid, a);
  }

  lemma ClientStepKeepsRest(sinks: Sinks, g: Logger, tid: Tid, a: Action<Msg>, clients': map<Tid, Client>)
    requires LoggerInv(sinks, g) && tid in g.clients && CanStep(g.q.core, tid, a)
    requires clients'.Keys == g.clients.Keys && clients' == g.clients[tid := clients'[tid]]
    requires Next(g.q, tid, a).core.mem.dequeuePos == g.q.core.mem.dequeuePos
    requires ClientOk(g.(q := Next(g.q, tid, a), clients := clients'), tid)
    ensures LoggerInv(sinks, g.(q := Next(g.q, tid, a), clients := clients'))
  {
    hide Inv, WorkerInv, ClientOk, Next;
    QueueStepFrame(g.q, tid, a);
    var q' := Next(g.q, tid, a);
    forall other | other in clients' ensures ClientOk(g.(q := q', clients := clients'), other) {
      if other != tid {
        OtherClient(g, q', tid, other);
        OtherClientSame(g.(q := q'), clients', other);
      }
    }
  }

  /** A step of the worker inside dequeue, or the one that enters it. */
  lemma WorkerOkKept(sinks: Sinks, g: Logger, a: Action<Msg>, w': Worker)
    requires Inv(g.q) && WorkerOk(g) && CanStep(g.q.core, WORKER, a)
    requires || (a.BeginDequeue? && g.worker.phase.Ready? && w' == Do(sinks, g.worker, Begin))
             || (g.worker.phase.Popping? && !LocalOf(g, WORKER).AtRest() && w' == g.worker)
    ensures WorkerOk(g.(q := Next(g.q, WORKER, a), worker := w')) && w'.taken == g.worker.taken
  {
    assert ThreadOk(g.q, WORKER);
    hide Inv, TicketsOk, CountersOk;
  }

  lemma WorkerQueueStep(sinks: Sinks, g: Logger, a: Action<Msg>, w': Worker)
    requires LoggerInv(sinks, g) && CanStep(g.q.core, WORKER, a) && WorkerInv(sinks, w')
    requires || (a.BeginDequeue? && g.worker.phase.Ready? && w' == Do(sinks, g.worker, Begin))
             || (g.worker.phase.Popping? && !LocalOf(g, WORKER).AtRest() && w' == g.worker)
    ensures LoggerInv(sinks, g.(q := Next(g.q, WORKER, a), worker := w'))
  {
    hide Inv, WorkerInv, WorkerOk, ClientOk, Next, Do;
    QueueStepFrame(g.q, WORKER, a);
    WorkerOkKept(sinks, g, a, w');
    var q' := Next(g.q, WORKER, a);
    forall other | other in g.clients ensures ClientOk(g.(q := q', worker := w'), other) {
      OtherClient(g, q', WORKER, other);
      SameClient(g.(q := q'), w', other);
    }
  }

  lemma SameClient(g: Logger, w': Worker, tid: Tid)
    requires tid in g.clients && ClientOk(g, tid)
    ensures ClientOk(g.(worker := w'), tid)
  {
  }

  /** A client that enters enqueue or approx_size. */
  lemma ClientBegins(sinks: Sinks, g: Logger, h: Happening, tid: Tid)
    requires Possible(sinks, g, h) && (h.Call? || h.Retry? || h.PollSize?) && tid == h.tid && ClientOk(g, tid)
    ensures ClientOk(Happen(sinks, g, h), tid)
    ensures Happen(sinks, g, h).q.core.mem == g.q.core.mem
  {
  }

  lemma ClientHappens(sinks: Sinks, g: Logger, h: Happening, tid: Tid)
    requires LoggerInv(sinks, g) && Possible(sinks, g, h)
    requires h.Call? || h.ClientQueue? || h.Retry? || h.Pushed? || h.PollSize? || h.Return?
    requires tid == h.tid
    ensures LoggerInv(sinks, Happen(sinks, g, h))
  {
    assert Inv(g.q) && ClientOk(g, tid);
    if h.Call? || h.Retry? || h.PollSize? { ClientBegins(sinks, g, h, tid); }
    hide Inv, LoggerInv, ClientOk, Next;
    match h
    case Call(_, msg, wait) =>
      ClientStepKeepsRest(sinks, g, tid, BeginEnqueue(msg), g.clients[tid := Pushing(msg, wait)]);
    case ClientQueue(_, a) =>
      ClientQueueStep(g, tid, a);
      ClientStepKeepsRest(sinks, g, tid, a, g.clients);
    case Retry(_) =>
      ClientStepKeepsRest(sinks, g, tid, BeginEnqueue(LocalOf(g, tid).msg), g.clients);
    case PollSize(_) =>
      ClientStepKeepsRest(sinks, g, tid, BeginSize, g.clients);
    case _ => ClientOnlyStep(sinks, g, h, tid);
  }

  lemma HappenPreservesInv(sinks: Sinks, g: Logger, h: Happening)
    requires LoggerInv(sinks, g) && Possible(sinks, g, h)
    ensures LoggerInv(sinks, Happen(sinks, g, h))
  {
    assert WorkerInv(sinks, g.worker);
    hide LoggerInv, WorkerInv, Do;
    match h
    case WorkerBegin =>
      DoPreservesInv(sinks, g.worker, Begin);
      WorkerQueueStep(sinks, g, BeginDequeue, Do(sinks, g.worker, Begin));
    case WorkerQueue(a) => WorkerQueueStep(sinks, g, a, g.worker);
    case WorkerPop =>
      DoPreservesInv(sinks, g.worker, Pop(LocalOf(g, WORKER).msg));
      WorkerOnlyStep(sinks, g, Pop(LocalOf(g, WORKER).msg));
    case WorkerAct(act) =>
      DoPreservesInv(sinks, g.worker, act);
      WorkerOnlyStep(sinks, g, act);
    case _ => ClientHappens(sinks, g, h, h.tid);
  }

  lemma OwnClientStep(sinks: Sinks, g: Logger, h: Happening, tid: Tid)
    requires Inv(g.q) && Possible(sinks, g, h) && (h == Pushed(tid) || h == Return(tid)) && ClientOk(g, tid)
    requires tid in g.q.core.threads
    ensures ClientOk(Happen(sinks, g, h), tid)
  {
    assert ThreadOk(g.q, tid);
    hide Inv, TicketsOk, CountersOk;
  }

  lemma ClientOnlyStep(sinks: Sinks, g: Logger, h: Happening, tid: Tid)
    requires LoggerInv(sinks, g) && Possible(sinks, g, h) && (h == Pushed(tid) || h == Return(tid))
    ensures LoggerInv(sinks, Happen(sinks, g, h))
  {
    var g' := Happen(sinks, g, h);
    OwnClientStep(sinks, g, h, tid);
    hide Inv, WorkerInv, ClientOk;
    forall other | other in g'.clients && other != tid ensures ClientOk(g', other) {
      OtherClientSame(g, g'.clients, other);
    }
  }

  lemma LeavesQueue(sinks: Sinks, w: Worker, act: Act)
    requires Can(w, act) && !act.Begin?
    ensures var w' := Do(sinks, w, act);
            && !w'.phase.Popping? && (w.phase.Popping? <==> act.Pop? || act.FindEmpty?)
            && w'.taken == w.taken + (if act.Pop? then [act.m] else [])
  {
  }

  lemma WorkerOnlyStep(sinks: Sinks, g: Logger, act: Act)
    requires LoggerInv(sinks, g) && Can(g.worker, act) && WorkerInv(sinks, Do(sinks, g.worker, act)) && !act.Begin?
    requires act.Pop? ==> LocalOf(g, WORKER).DeqDone? && act.m == LocalOf(g, WORKER).msg
    requires act.FindEmpty? ==> LocalOf(g, WORKER).DeqEmpty?
    ensures LoggerInv(sinks, g.(worker := Do(sinks, g.worker, act)))
  {
    LeavesQueue(sinks, g.worker, act);
    WorkerFrame(sinks, g, Do(sinks, g.worker, act), if act.Pop? then [act.m] else []);
  }

  lemma WorkerFrame(sinks: Sinks, g: Logger, w': Worker, popped: seq<Msg>)
    requires LoggerInv(sinks, g) && WorkerInv(sinks, w')
    requires !w'.phase.Popping? && w'.taken == g.worker.taken + popped
    requires if g.worker.phase.Popping? && LocalOf(g, WORKER).DeqDone? then popped == [LocalOf(g, WORKER).msg]
             else popped == [] && (g.worker.phase.Popping? ==> LocalOf(g, WORKER).DeqEmpty?)
    ensures LoggerInv(sinks, g.(worker := w'))
  {
    var g' := g.(worker := w');
    assert ThreadOk(g.q, WORKER);
    hide Inv, WorkerInv, ClientOk;
    forall other | other in g'.clients ensures ClientOk(g', other) {
      SameClient(g, w', other);
    }
  }

  // ---- Theorems ----

  predicate CanHappen(sinks: Sinks, g: Logger, run: seq<Happening>)
    decreases |run|
  {
    run == [] || (Possible(sinks, g, run[0]) && CanHappen(sinks, Happen(sinks, g, run[0]), run[1..]))
  }

  function After(sinks: Sinks, g: Logger, run: seq<Happening>): Logger
    requires CanHappen(sinks, g, run)
    decreases |run|
  {
    if run == [] then g else After(sinks, Happen(sinks, g, run[0]), run[1..])
  }

  lemma {:induction false} AfterKeepsInv(sinks: Sinks, g: Logger, run: seq<Happening>)
    requires LoggerInv(sinks, g) && CanHappen(sinks, g, run)
    ensures LoggerInv(sinks, After(sinks, g, run))
    decreases |run|
  {
    if run != [] {
      HappenPreservesInv(sinks, g, run[0]);
      AfterKeepsInv(sinks, Happen(sinks, g, run[0]), run[1..]);
    }
  }

  /** Every ticket below n is completely dealt with: each sink that accepts it has
      received it, or its handling threw and was reported. */
  ghost predicate ProcessedBelow(sinks: Sinks, g: Logger, n: nat)
  {
    forall t, k :: 0 <= t < n && 0 <= k < |sinks.levels| ==>
      && t in g.q.hist.sent
      && (g.q.hist.sent[t].Log? && g.q.hist.sent[t].level >= sinks.levels[k] ==>
            Delivered(k, t) in g.worker.events || Raised(t) in g.worker.events)
  }

  lemma HandledIsProcessed(sinks: Sinks, g: Logger)
    requires LoggerInv(sinks, g)
    ensures ProcessedBelow(sinks, g, Handled(g.worker))
  {
    forall t, k | 0 <= t < Handled(g.worker) && 0 <= k < |sinks.levels|
      ensures t in g.q.hist.sent
      ensures sinks.ShouldLog(k, g.q.hist.sent[t]) ==>
        Delivered(k, t) in g.worker.events || Raised(t) in g.worker.events
    {
      assert t in g.q.hist.received && g.q.hist.received[t] == g.worker.taken[t];
      assert DeliveryOk(sinks, g.worker, k);
      DueIffGets(sinks, g.worker.taken, g.worker.thrown, k, Handled(g.worker), t);
      ReceivedIffDelivered(g.worker.events, k, t);
    }
  }

  /** When flush(true) returns, every message ticketed before the flush message
      has been given to each accepting sink or reported to the error handler. */
  lemma FlushReturnsAfterProcessing(sinks: Sinks, g0: Logger, run: seq<Happening>, tid: Tid)
    requires Initial(g0) && CanHappen(sinks, g0, run)
    requires tid in After(sinks, g0, run).clients && After(sinks, g0, run).clients[tid].FlushReturned?
    ensures var g := After(sinks, g0, run);
            var f := g.clients[tid].ticket;
            && f in g.q.hist.sent && g.q.hist.sent[f] == Msg.Flush
            && ProcessedBelow(sinks, g, f)
  {
    InitialEstablishesInv(sinks, g0);
    AfterKeepsInv(sinks, g0, run);
    var g := After(sinks, g0, run);
    assert ClientOk(g, tid);
    HandledIsProcessed(sinks, g);
    assert g.clients[tid].ticket <= Handled(g.worker);
  }

  /** The worker is inside dequeue, past its compare-and-swap, with ticket f. */
  predicate HasClaimed(g: Logger, f: nat)
  {
    var l := LocalOf(g, WORKER);
    g.worker.phase.Popping? && (l.DeqClaimed? || l.DeqMoved? || l.DeqDone?) && l.pos == f
  }

  lemma ClaimedIsHandledIff(sinks: Sinks, g: Logger, f: nat)
    requires WorkerOk(g) && PhaseOk(sinks, g.worker) && f < g.q.core.mem.dequeuePos
    requires f < |g.worker.taken| ==> g.worker.taken[f] == Msg.Flush
    ensures f < Handled(g.worker) <==> !HasClaimed(g, f)
  {
  }

  lemma ReturnedFlush(sinks: Sinks, g: Logger, tid: Tid)
    requires LoggerInv(sinks, g) && tid in g.clients && g.clients[tid].FlushReturned?
    ensures var f := g.clients[tid].ticket;
      f < g.q.core.mem.dequeuePos && (f < |g.worker.taken| ==> g.worker.taken[f] == Msg.Flush)
  {
    assert ClientOk(g, tid);
    TakenIsSent(sinks, g);
    hide Inv, WorkerInv, WorkerOk;
  }

  /** Once flush(true) has returned, its own flush message has been processed
      exactly when the worker is not still inside the dequeue that claimed it. */
  lemma FlushMessageProcessedIff(sinks: Sinks, g0: Logger, run: seq<Happening>, tid: Tid)
    requires Initial(g0) && CanHappen(sinks, g0, run)
    requires tid in After(sinks, g0, run).clients && After(sinks, g0, run).clients[tid].FlushReturned?
    ensures var g := After(sinks, g0, run);
            var f := g.clients[tid].ticket;
            f < Handled(g.worker) <==> !HasClaimed(g, f)
  {
    InitialEstablishesInv(sinks, g0);
    AfterKeepsInv(sinks, g0, run);
    var g := After(sinks, g0, run);
    assert WorkerOk(g) && PhaseOk(sinks, g.worker);
    hide *;
    ReturnedFlush(sinks, g, tid);
    ClaimedIsHandledIff(sinks, g, g.clients[tid].ticket);
  }

  /** So at that time no sink has an unflushed delivery of an earlier ticket,
      unless the flush message is in that window or its request is still to be
      served. */
  lemma FlushReturnedIsFlushed(sinks: Sinks, g0: Logger, run: seq<Happening>, tid: Tid, k: nat)
    requires Initial(g0) && CanHappen(sinks, g0, run) && k < |sinks.levels|
    requires tid in After(sinks, g0, run).clients && After(sinks, g0, run).clients[tid].FlushReturned?
    ensures var g := After(sinks, g0, run);
            var f := g.clients[tid].ticket;
            !HasClaimed(g, f) && !g.worker.flushRequested ==> forall t :: t in Unflushed(g.worker.events, k) ==> t > f
  {
    var g := After(sinks, g0, run);
    var f := g.clients[tid].ticket;
    if !HasClaimed(g, f) && !g.worker.flushRequested {
      FlushMessageProcessedIff(sinks, g0, run, tid);
      assert AsksForFlush(g.worker.taken[f]) by {
        InitialEstablishesInv(sinks, g0);
        AfterKeepsInv(sinks, g0, run);
        assert ClientOk(g, tid);
        TakenIsSent(sinks, g);
      }
      FlushMessageFlushesEarlierDeliveries(sinks, g0, run, k, f);
    }
  }

  /** Each sink receives every ticket at most once, in ticket order, and only
      tickets it accepts; an unthrown handled ticket reaches every such sink. */
  lemma SinksReceiveInTicketOrder(sinks: Sinks, g0: Logger, run: seq<Happening>, k: nat)
    requires Initial(g0) && CanHappen(sinks, g0, run) && k < |sinks.levels|
    ensures Ordered(sinks, After(sinks, g0, run), k)
  {
    InitialEstablishesInv(sinks, g0);
    AfterKeepsInv(sinks, g0, run);
    DeliveryIsOrdered(sinks, After(sinks, g0, run), k);
  }

  ghost predicate Ordered(sinks: Sinks, g: Logger, k: nat)
    requires k < |sinks.levels|
  {
    var r, sent := Received(g.worker.events, k), g.q.hist.sent;
    && AscendsBelow(r, g.q.core.mem.enqueuePos)
    && (forall t :: t in r ==> t in sent && sent[t].Log? && sent[t].level >= sinks.levels[k])
    && (forall t :: 0 <= t < Handled(g.worker) && t !in g.worker.thrown ==>
          t in sent && (sent[t].Log? && sent[t].level >= sinks.levels[k] ==> t in r))
  }

  lemma TakenIsSent(sinks: Sinks, g: Logger)
    requires LoggerInv(sinks, g)
    ensures forall t :: 0 <= t < |g.worker.taken| ==> t in g.q.hist.sent && g.q.hist.sent[t] == g.worker.taken[t]
    ensures |g.worker.taken| <= g.q.core.mem.enqueuePos
  {
    forall t | 0 <= t < |g.worker.taken| ensures t in g.q.hist.sent && g.q.hist.sent[t] == g.worker.taken[t] {
      assert t in g.q.hist.received;
    }
  }

  /** The part of Ordered that does not mention the queue. */
  lemma ReceivedAscends(sinks: Sinks, w: Worker, k: nat)
    requires PhaseOk(sinks, w) && k < |sinks.levels| && DeliveryOk(sinks, w, k)
    ensures var r := Received(w.events, k);
            && AscendsBelow(r, |w.taken|)
            && (forall t :: t in r ==> t < |w.taken| && sinks.ShouldLog(k, w.taken[t]))
            && (forall t :: 0 <= t < Handled(w) && t !in w.thrown && sinks.ShouldLog(k, w.taken[t]) ==> t in r)
  {
    var due := DueTo(sinks, w, k);
    DueAscends(sinks, w.taken, w.thrown, k, Handled(w));
    forall t: nat ensures t in due <==> t < Handled(w) && Gets(sinks, w.taken, w.thrown, k, t) {
      DueIffGets(sinks, w.taken, w.thrown, k, Handled(w), t);
    }
  }

  lemma DeliveryIsOrdered(sinks: Sinks, g: Logger, k: nat)
    requires LoggerInv(sinks, g) && k < |sinks.levels|
    ensures Ordered(sinks, g, k)
  {
    TakenIsSent(sinks, g);
    assert DeliveryOk(sinks, g.worker, k);
    hide Inv, WorkerOk, ClientOk;
    ReceivedAscends(sinks, g.worker, k);
  }

  /** Once the flush message has been handled and its request is no longer
      outstanding, every earlier delivery has been flushed. */
  lemma FlushMessageFlushesEarlierDeliveries(sinks: Sinks, g0: Logger, run: seq<Happening>, k: nat, f: nat)
    requires Initial(g0) && CanHappen(sinks, g0, run) && k < |sinks.levels|
    requires var w := After(sinks, g0, run).worker;
             f < |w.taken| && AsksForFlush(w.taken[f]) && !w.flushRequested
    ensures forall t :: t in Unflushed(After(sinks, g0, run).worker.events, k) ==> t > f
  {
    InitialEstablishesInv(sinks, g0);
    AfterKeepsInv(sinks, g0, run);
    assert FlushOk(sinks, After(sinks, g0, run).worker, k);
  }

  lemma AllTakenAtExit(sinks: Sinks, g: Logger)
    requires LoggerInv(sinks, g) && g.worker.phase.Exited?
    requires forall t :: t in g.q.hist.sent && g.q.hist.sent[t].Terminate? ==> t + 1 == g.q.core.mem.enqueuePos
    ensures |g.worker.taken| == g.q.core.mem.enqueuePos == Handled(g.worker)
  {
    TakenIsSent(sinks, g);
    assert Terminate in g.worker.taken;
    hide Inv, WorkerOk, ClientOk, WorkerInv;
    var t :| 0 <= t < |g.worker.taken| && g.worker.taken[t] == Terminate;
  }

  lemma ExitedHasDelivered(sinks: Sinks, g: Logger, k: nat)
    requires LoggerInv(sinks, g) && k < |sinks.levels| && g.worker.phase.Exited? && g.worker.thrown == map[]
    requires forall t :: t in g.q.hist.sent && g.q.hist.sent[t].Terminate? ==> t + 1 == g.q.core.mem.enqueuePos
    ensures var r := Received(g.worker.events, k);
            && (forall t :: 0 <= t < g.q.core.mem.enqueuePos ==> t in g.q.hist.sent)
            && AscendsBelow(r, g.q.core.mem.enqueuePos)
            && (forall t :: t in r <==>
                  t in g.q.hist.sent && g.q.hist.sent[t].Log? && g.q.hist.sent[t].level >= sinks.levels[k])
            && Unflushed(g.worker.events, k) == []
  {
    AllTakenAtExit(sinks, g);
    DeliveryIsOrdered(sinks, g, k);
    SentBelowEnqueued(g.q);
    assert FlushOk(sinks, g.worker, k);
    hide LoggerInv, Received, Unflushed, Handled, AscendsBelow;
  }

  lemma SentBelowEnqueued(q: State<Msg>)
    requires Inv(q)
    ensures forall t :: t in q.hist.sent ==> t < q.core.mem.enqueuePos
  {
  }

  /** When the worker has exited, no handling threw, and the terminate message was
      the last one ticketed: each sink has received exactly the accepted log
      messages, each once, in ticket order, and was flushed after the last. */
  lemma ExitDeliversEverything(sinks: Sinks, g0: Logger, run: seq<Happening>, k: nat)
    requires Initial(g0) && CanHappen(sinks, g0, run) && k < |sinks.levels|
    requires var g := After(sinks, g0, run);
             && g.worker.phase.Exited? && g.worker.thrown == map[]
             && (forall t :: t in g.q.hist.sent && g.q.hist.sent[t].Terminate? ==> t + 1 == g.q.core.mem.enqueuePos)
    ensures var g := After(sinks, g0, run);
            var r := Received(g.worker.events, k);
            && (forall t :: 0 <= t < g.q.core.mem.enqueuePos ==> t in g.q.hist.sent)
            && AscendsBelow(r, g.q.core.mem.enqueuePos)
            && (forall t :: t in r <==>
                  t in g.q.hist.sent && g.q.hist.sent[t].Log? && g.q.hist.sent[t].level >= sinks.levels[k])
            && Unflushed(g.worker.events, k) == []
  {
    InitialEstablishesInv(sinks, g0);
    AfterKeepsInv(sinks, g0, run);
    hide After, CanHappen, LoggerInv, Initial;
    ExitedHasDelivered(sinks, After(sinks, g0, run), k);
  }

  /** Conversely the worker never exits before every ticket up to the first
      terminate message has been popped and handled. */
  lemma ExitOnlyAfterTerminate(sinks: Sinks, g0: Logger, run: seq<Happening>)
    requires Initial(g0) && CanHappen(sinks, g0, run) && After(sinks, g0, run).worker.phase.Exited?
    ensures var g := After(sinks, g0, run);
            exists t :: 0 <= t < Handled(g.worker) && t in g.q.hist.sent && g.q.hist.sent[t] == Terminate
    ensures forall k :: 0 <= k < |sinks.levels| ==> Unflushed(After(sinks, g0, run).worker.events, k) == []
  {
    InitialEstablishesInv(sinks, g0);
    AfterKeepsInv(sinks, g0, run);
    var g := After(sinks, g0, run);
    var t :| 0 <= t < |g.worker.taken| && g.worker.taken[t] == Terminate;
    assert t in g.q.hist.received && g.q.hist.sent[t] == Terminate;
    forall k | 0 <= k < |sinks.levels| ensures Unflushed(g.worker.events, k) == [] {
      assert FlushOk(sinks, g.worker, k);
    }
  }

  /** A refused enqueue leaves the message with the client, for the retry. */
  lemma RefusedClientKeepsMessage(sinks: Sinks, g0: Logger, run: seq<Happening>, tid: Tid)
    requires Initial(g0) && CanHappen(sinks, g0, run)
    requires var g := After(sinks, g0, run);
             tid in g.clients && g.clients[tid].Pushing? && LocalOf(g, tid).EnqRefused?
    ensures var g := After(sinks, g0, run);
            LocalOf(g, tid).msg == g.clients[tid].msg
  {
    InitialEstablishesInv(sinks, g0);
    AfterKeepsInv(sinks, g0, run);
    assert ClientOk(After(sinks, g0, run), tid);
  }
}
