// A run of any logger on 64-bit words in which flush(true) takes a queue that
// holds a message for an empty one.
module AsyncWrap {
  import opened RingArithmetic
  import opened MpmcQueue
  import opened MpmcTheorems
  import opened MpmcWord
  import opened MpmcWrap
  import opened AsyncWorker
  import opened AsyncLog
  import opened AsyncWord

  /** From g0 the run leads to g, and the logger on words follows it. */
  ghost predicate Leads(sinks: Sinks, g0: Logger, run: seq<Happening>, g: Logger)
  {
    CanHappen(sinks, g0, run) && After(sinks, g0, run) == g && StaysClose(sinks, g0, run)
  }

  lemma {:induction false} Extend(sinks: Sinks, g0: Logger, run: seq<Happening>, h: Happening)
    requires CanHappen(sinks, g0, run) && StaysClose(sinks, g0, run)
    requires var g := After(sinks, g0, run);
             Possible(sinks, g, h) && Close(g.q.core.mem, LocalOf(g, Actor(h)))
    ensures CanHappen(sinks, g0, run + [h]) && StaysClose(sinks, g0, run + [h])
    ensures After(sinks, g0, run + [h]) == Happen(sinks, After(sinks, g0, run), h)
    decreases |run|
  {
    hide Possible, Happen, Close;
    if run == [] {
      assert run + [h] == [h] && [h][1..] == [];
    } else {
      Extend(sinks, Happen(sinks, g0, run[0]), run[1..], h);
      assert (run + [h])[1..] == run[1..] + [h] && (run + [h])[0] == run[0];
    }
  }

  lemma Go(sinks: Sinks, g0: Logger, run: seq<Happening>, g: Logger, h: Happening)
    returns (run': seq<Happening>, g': Logger)
    requires Leads(sinks, g0, run, g) && Possible(sinks, g, h) && Close(g.q.core.mem, LocalOf(g, Actor(h)))
    ensures g' == Happen(sinks, g, h) && Leads(sinks, g0, run', g')
  {
    Extend(sinks, g0, run, h);
    run', g' := run + [h], Happen(sinks, g, h);
  }

  /** What the next step of client tid or of the worker depends on: the counters,
      the cell of position pos, and both threads. Everybody else is outside. */
  ghost predicate View(g: Logger, tid: Tid, pos: nat, enq: nat, deq: nat, sq: nat,
                       l: Local<Msg>, c: Client, v: Local<Msg>, phase: Phase)
  {
    var mem := g.q.core.mem;
    && |mem.cells| >= 2 && mem.enqueuePos == enq && mem.dequeuePos == deq
    && mem.cells[Slot(pos, |mem.cells|)].sequence == sq
    && tid in g.clients && tid in g.q.core.threads && LocalOf(g, tid) == l && g.clients[tid] == c
    && tid != WORKER && WORKER in g.q.core.threads && LocalOf(g, WORKER) == v && g.worker.phase == phase
    && forall t :: t in g.clients && t != tid ==> g.clients[t] == Outside
  }

  /** What a step leaves alone. */
  ghost predicate Same(g: Logger, g': Logger)
  {
    |g'.q.core.mem.cells| == |g.q.core.mem.cells| && g'.worker.events == g.worker.events
  }

  // ---- One message pushed by a client alone ----

  lemma ClientCalls(sinks: Sinks, g0: Logger, run: seq<Happening>, g: Logger, tid: Tid, m: Msg, wait: bool,
                    enq: nat, deq: nat, l: Local<Msg>, v: Local<Msg>)
    returns (run': seq<Happening>, g': Logger)
    requires Leads(sinks, g0, run, g) && View(g, tid, enq, enq, deq, enq, l, Outside, v, Ready)
    requires l.AtRest() && (wait ==> m.Flush?)
    ensures Leads(sinks, g0, run', g') && Same(g, g')
    ensures View(g', tid, enq, enq, deq, enq, EnqHavePos(enq, m), Pushing(m, wait), v, Ready)
    ensures g'.q.hist.sent == g.q.hist.sent
  {
    hide Leads, Slot;
    run', g' := Go(sinks, g0, run, g, Call(tid, m, wait));
  }

  lemma ClientClaims(sinks: Sinks, g0: Logger, run: seq<Happening>, g: Logger, tid: Tid, m: Msg, wait: bool,
                     enq: nat, deq: nat, v: Local<Msg>)
    returns (run': seq<Happening>, g': Logger)
    requires Leads(sinks, g0, run, g) && |g.q.core.mem.cells| < WORD / 2
    requires View(g, tid, enq, enq, deq, enq, EnqHavePos(enq, m), Pushing(m, wait), v, Ready)
    ensures Leads(sinks, g0, run', g') && Same(g, g')
    ensures View(g', tid, enq, enq + 1, deq, enq, EnqClaimed(enq, m), Pushing(m, wait), v, Ready)
    ensures g'.q.hist.sent == g.q.hist.sent
  {
    hide Leads, Slot;
    run', g' := Go(sinks, g0, run, g, ClientQueue(tid, LoadSequence));
    run', g' := Go(sinks, g0, run', g', ClientQueue(tid, Compare(false)));
  }

  lemma ClientFills(sinks: Sinks, g0: Logger, run: seq<Happening>, g: Logger, tid: Tid, m: Msg, wait: bool,
                    enq: nat, deq: nat, v: Local<Msg>)
    returns (run': seq<Happening>, g': Logger)
    requires Leads(sinks, g0, run, g)
    requires View(g, tid, enq, enq + 1, deq, enq, EnqClaimed(enq, m), Pushing(m, wait), v, Ready)
    ensures Leads(sinks, g0, run', g') && Same(g, g')
    ensures View(g', tid, enq, enq + 1, deq, enq + 1, EnqDone(enq), if wait then WaitingEmpty(enq) else Outside,
                 v, Ready)
    ensures g'.q.core.mem.cells[Slot(enq, |g.q.core.mem.cells|)].data == m
    ensures g'.q.hist.sent == g.q.hist.sent[enq := m]
  {
    hide Leads, Slot;
    run', g' := Go(sinks, g0, run, g, ClientQueue(tid, Move(m)));
    run', g' := Go(sinks, g0, run', g', ClientQueue(tid, Publish));
    run', g' := Go(sinks, g0, run', g', Pushed(tid));
  }

  lemma ClientPushes(sinks: Sinks, g0: Logger, run: seq<Happening>, g: Logger, tid: Tid, m: Msg, wait: bool,
                     enq: nat, deq: nat, l: Local<Msg>, v: Local<Msg>)
    returns (run': seq<Happening>, g': Logger)
    requires Leads(sinks, g0, run, g) && View(g, tid, enq, enq, deq, enq, l, Outside, v, Ready)
    requires l.AtRest() && |g.q.core.mem.cells| < WORD / 2 && (wait ==> m.Flush?)
    ensures Leads(sinks, g0, run', g') && Same(g, g')
    ensures View(g', tid, enq, enq + 1, deq, enq + 1, EnqDone(enq), if wait then WaitingEmpty(enq) else Outside,
                 v, Ready)
    ensures g'.q.core.mem.cells[Slot(enq, |g.q.core.mem.cells|)].data == m
    ensures g'.q.hist.sent == g.q.hist.sent[enq := m]
  {
    hide Leads, View, Slot;
    run', g' := ClientCalls(sinks, g0, run, g, tid, m, wait, enq, deq, l, v);
    run', g' := ClientClaims(sinks, g0, run', g', tid, m, wait, enq, deq, v);
    run', g' := ClientFills(sinks, g0, run', g', tid, m, wait, enq, deq, v);
  }

  // ---- One message popped by the worker alone ----

  lemma WorkerBegins(sinks: Sinks, g0: Logger, run: seq<Happening>, g: Logger, tid: Tid, n: nat,
                     l: Local<Msg>, v: Local<Msg>)
    returns (run': seq<Happening>, g': Logger)
    requires Leads(sinks, g0, run, g) && View(g, tid, n, n + 1, n, n + 1, l, Outside, v, Ready) && v.AtRest()
    ensures Leads(sinks, g0, run', g') && Same(g, g')
    ensures View(g', tid, n, n + 1, n, n + 1, l, Outside, DeqHavePos(n), Popping)
    ensures g'.q.core.mem.cells == g.q.core.mem.cells
  {
    hide Leads, Slot;
    run', g' := Go(sinks, g0, run, g, WorkerBegin);
  }

  lemma WorkerClaims(sinks: Sinks, g0: Logger, run: seq<Happening>, g: Logger, tid: Tid, n: nat, l: Local<Msg>)
    returns (run': seq<Happening>, g': Logger)
    requires Leads(sinks, g0, run, g) && View(g, tid, n, n + 1, n, n + 1, l, Outside, DeqHavePos(n), Popping)
    requires |g.q.core.mem.cells| < WORD / 2 - 1
    ensures Leads(sinks, g0, run', g') && Same(g, g')
    ensures View(g', tid, n, n + 1, n + 1, n + 1, l, Outside, DeqClaimed(n), Popping)
    ensures g'.q.core.mem.cells == g.q.core.mem.cells
  {
    hide Leads, Slot;
    run', g' := Go(sinks, g0, run, g, WorkerQueue(LoadSequence));
    run', g' := Go(sinks, g0, run', g', WorkerQueue(Compare(false)));
  }

  lemma WorkerPopsFlush(sinks: Sinks, g0: Logger, run: seq<Happening>, g: Logger, tid: Tid, n: nat, l: Local<Msg>)
    returns (run': seq<Happening>, g': Logger)
    requires Leads(sinks, g0, run, g) && View(g, tid, n, n + 1, n + 1, n + 1, l, Outside, DeqClaimed(n), Popping)
    requires g.q.core.mem.cells[Slot(n, |g.q.core.mem.cells|)].data == Msg.Flush
    ensures Leads(sinks, g0, run', g') && Same(g, g')
    ensures View(g', tid, n, n + 1, n + 1, n + |g.q.core.mem.cells|, l, Outside, DeqDone(n, Msg.Flush), Ready)
  {
    hide Leads, Slot;
    run', g' := Go(sinks, g0, run, g, WorkerQueue(Move(Msg.Flush)));
    run', g' := Go(sinks, g0, run', g', WorkerQueue(Publish));
    run', g' := Go(sinks, g0, run', g', WorkerPop);
  }

  // ---- Any number of messages ----

  lemma Reached(sinks: Sinks, g0: Logger, run: seq<Happening>, g: Logger)
    requires Initial(g0) && Leads(sinks, g0, run, g)
    ensures LoggerInv(sinks, g)
  {
    InitialEstablishesInv(sinks, g0);
    AfterKeepsInv(sinks, g0, run);
  }

  /** With every client outside and the worker between two messages, the cell of
      the next ticket expects it. */
  lemma NextCell(sinks: Sinks, g: Logger, tid: Tid, l: Local<Msg>, v: Local<Msg>, pos: nat, enq: nat, deq: nat, sq: nat)
    requires LoggerInv(sinks, g) && View(g, tid, pos, enq, deq, sq, l, Outside, v, Ready)
    requires enq < deq + |g.q.core.mem.cells|
    ensures View(g, tid, enq, enq, deq, enq, l, Outside, v, Ready) && l.AtRest() && v.AtRest()
  {
    forall t | t in g.q.core.threads ensures g.q.core.threads[t].AtRest() {
      if t in g.clients { assert ClientOk(g, t); }
    }
    RestingCell(g.q, enq);
  }

  /** The client pushes a flush message, the worker pops it. */
  lemma OneMessage(sinks: Sinks, g0: Logger, run: seq<Happening>, g: Logger, tid: Tid, n: nat,
                   l: Local<Msg>, v: Local<Msg>)
    returns (run': seq<Happening>, g': Logger)
    requires Leads(sinks, g0, run, g) && View(g, tid, n, n, n, n, l, Outside, v, Ready)
    requires l.AtRest() && v.AtRest() && |g.q.core.mem.cells| < WORD / 2 - 1
    ensures Leads(sinks, g0, run', g') && Same(g, g')
    ensures View(g', tid, n, n + 1, n + 1, n + |g.q.core.mem.cells|, EnqDone(n), Outside, DeqDone(n, Msg.Flush), Ready)
  {
    hide Leads, View, Slot;
    run', g' := ClientPushes(sinks, g0, run, g, tid, Msg.Flush, false, n, n, l, v);
    run', g' := WorkerBegins(sinks, g0, run', g', tid, n, EnqDone(n), v);
    run', g' := WorkerClaims(sinks, g0, run', g', tid, n, EnqDone(n));
    run', g' := WorkerPopsFlush(sinks, g0, run', g', tid, n, EnqDone(n));
  }

  lemma ViewLocals(g: Logger, tid: Tid, pos: nat, enq: nat, deq: nat, sq: nat,
                   l: Local<Msg>, c: Client, v: Local<Msg>, phase: Phase)
    requires View(g, tid, pos, enq, deq, sq, l, c, v, phase)
    ensures LocalOf(g, tid) == l && LocalOf(g, WORKER) == v && |g.q.core.mem.cells| >= 2
  {
  }

  lemma Start(sinks: Sinks, g0: Logger, tid: Tid)
    requires Initial(g0) && tid in g0.clients
    ensures Leads(sinks, g0, [], g0) && Same(g0, g0)
    ensures View(g0, tid, 0, 0, 0, 0, LocalOf(g0, tid), Outside, LocalOf(g0, WORKER), Ready)
    ensures LocalOf(g0, tid).AtRest() && LocalOf(g0, WORKER).AtRest()
  {
  }

  lemma SmallEnough(g0: Logger, g: Logger)
    requires SizeOk(g0) && Same(g0, g)
    ensures |g.q.core.mem.cells| < WORD / 2 - 1
  {
    SizeIsEven(|g0.q.core.mem.cells|);
    hide ValidQueueSize;
  }

  lemma SameTwice(g0: Logger, g: Logger, g': Logger)
    requires Same(g0, g) && Same(g, g')
    ensures Same(g0, g')
  {
  }

  /** From the start of any logger, a client that pushes flush messages and the
      worker that pops them bring both counters to any n. */
  lemma {:induction false} LoggerReaches(sinks: Sinks, g0: Logger, tid: Tid, n: nat)
    returns (run: seq<Happening>, g: Logger)
    requires Initial(g0) && SizeOk(g0) && tid in g0.clients
    ensures Leads(sinks, g0, run, g) && Same(g0, g)
    ensures View(g, tid, n, n, n, n, LocalOf(g, tid), Outside, LocalOf(g, WORKER), Ready)
    ensures LocalOf(g, tid).AtRest() && LocalOf(g, WORKER).AtRest()
  {
    hide *;
    if n == 0 {
      run, g := [], g0;
      Start(sinks, g0, tid);
    } else {
      var before;
      run, before := LoggerReaches(sinks, g0, tid, n - 1);
      SmallEnough(g0, before);
      run, g := OneMessage(sinks, g0, run, before, tid, n - 1, LocalOf(before, tid), LocalOf(before, WORKER));
      SameTwice(g0, before, g);
      Reached(sinks, g0, run, g);
      var last := n - 1 + |before.q.core.mem.cells|;
      ViewLocals(g, tid, n - 1, n, n, last, EnqDone(n - 1), Outside, DeqDone(n - 1, Msg.Flush), Ready);
      NextCell(sinks, g, tid, EnqDone(n - 1), DeqDone(n - 1, Msg.Flush), n - 1, n, n, last);
    }
  }

  // ---- Across the wrap ----

  /** Message m gets ticket 2^64 - 1. */
  lemma PushedBeforeWrap(sinks: Sinks, g0: Logger, tid: Tid, m: Msg) returns (run: seq<Happening>, g: Logger)
    requires Initial(g0) && SizeOk(g0) && tid in g0.clients
    ensures Leads(sinks, g0, run, g) && Same(g0, g)
    ensures View(g, tid, WORD, WORD, WORD - 1, WORD, EnqDone(WORD - 1), Outside, LocalOf(g, WORKER), Ready)
    ensures WORD - 1 in g.q.hist.sent && g.q.hist.sent[WORD - 1] == m
  {
    var n: nat, before := WORD - 1, g0;
    hide *;
    run, before := LoggerReaches(sinks, g0, tid, n);
    SmallEnough(g0, before);
    var v := LocalOf(before, WORKER);
    run, g := ClientPushes(sinks, g0, run, before, tid, m, false, n, n, LocalOf(before, tid), v);
    SameTwice(g0, before, g);
    Reached(sinks, g0, run, g);
    ViewLocals(g, tid, n, n + 1, n, n + 1, EnqDone(n), Outside, v, Ready);
    NextCell(sinks, g, tid, EnqDone(n), v, n, n + 1, n, n + 1);
  }

  /** A flush(true) by the same client follows it. */
  lemma PushedAcrossWrap(sinks: Sinks, g0: Logger, tid: Tid, m: Msg) returns (run: seq<Happening>, g: Logger)
    requires Initial(g0) && SizeOk(g0) && tid in g0.clients
    ensures Leads(sinks, g0, run, g) && Same(g0, g)
    ensures View(g, tid, WORD, WORD + 1, WORD - 1, WORD + 1, EnqDone(WORD), WaitingEmpty(WORD),
                 LocalOf(g, WORKER), Ready)
    ensures WORD - 1 in g.q.hist.sent && g.q.hist.sent[WORD - 1] == m
  {
    var n: nat, before := WORD, g0;
    var last: nat := n - 1;
    hide *;
    run, before := PushedBeforeWrap(sinks, g0, tid, m);
    SmallEnough(g0, before);
    var v := LocalOf(before, WORKER);
    run, g := ClientPushes(sinks, g0, run, before, tid, Msg.Flush, true, n, last, EnqDone(last), v);
    SameTwice(g0, before, g);
    ViewLocals(g, tid, n, n + 1, last, n + 1, EnqDone(n), WaitingEmpty(n), v, Ready);
  }

  /** The flush then loads the dequeue counter. */
  lemma PollsAcrossWrap(sinks: Sinks, g0: Logger, tid: Tid, m: Msg) returns (run: seq<Happening>, g: Logger)
    requires Initial(g0) && SizeOk(g0) && tid in g0.clients
    ensures Leads(sinks, g0, run, g) && Same(g0, g)
    ensures View(g, tid, WORD, WORD + 1, WORD - 1, WORD + 1, SizeHaveFirst(WORD - 1), WaitingEmpty(WORD),
                 LocalOf(g, WORKER), Ready)
    ensures WORD - 1 in g.q.hist.sent && g.q.hist.sent[WORD - 1] == m
  {
    run, g := PushedAcrossWrap(sinks, g0, tid, m);
    hide Leads, Slot, Initial;
    run, g := Go(sinks, g0, run, g, PollSize(tid));
  }

  lemma {:induction false} ExtendOnWords(sinks: Sinks, w: Logger, run: seq<Happening>, h: Happening)
    requires CanHappenOnWords(sinks, w, run) && Possible(sinks, AfterOnWords(sinks, w, run), h)
    ensures CanHappenOnWords(sinks, w, run + [h])
    ensures AfterOnWords(sinks, w, run + [h]) == HappenOnWords(sinks, AfterOnWords(sinks, w, run), h)
    decreases |run|
  {
    hide Possible, HappenOnWords;
    if run == [] {
      assert run + [h] == [h] && [h][1..] == [];
    } else {
      ExtendOnWords(sinks, HappenOnWords(sinks, w, run[0]), run[1..], h);
      assert (run + [h])[1..] == run[1..] + [h] && (run + [h])[0] == run[0];
    }
  }

  /** The published and unpopped message as the words hold it. */
  lemma MessageWaits(sinks: Sinks, g: Logger, t: nat)
    requires LoggerInv(sinks, g) && t in g.q.hist.sent && g.q.core.mem.dequeuePos == t
    requires forall tid :: tid in g.clients ==> g.clients[tid] == Outside || g.clients[tid].WaitingEmpty?
    ensures var mem := WrapMemory(g.q.core.mem);
            |mem.cells| > 0 && mem.cells[Slot(t, |mem.cells|)] == Cell((t + 1) % WORD, g.q.hist.sent[t])
  {
    forall tid | tid in g.q.core.threads
      ensures !g.q.core.threads[tid].EnqClaimed? && !g.q.core.threads[tid].EnqMoved?
    {
      if tid in g.clients { assert ClientOk(g, tid); }
    }
    PublishedCell(g.q, t);
  }

  /** The second load of a poll, and the return, on any logger. */
  lemma LastLoad(sinks: Sinks, w: Logger, tid: Tid)
    requires Possible(sinks, w, ClientQueue(tid, LoadLast))
    ensures var w' := HappenOnWords(sinks, w, ClientQueue(tid, LoadLast));
            w'.q.core.mem == w.q.core.mem && w'.worker == w.worker && w'.clients == w.clients
  {
  }

  lemma ReturnNow(sinks: Sinks, w: Logger, tid: Tid)
    requires tid in w.clients && w.clients[tid].WaitingEmpty? && LocalOf(w, tid) == SizeDone(0)
    ensures Possible(sinks, w, Return(tid))
    ensures HappenOnWords(sinks, w, Return(tid))
            == w.(clients := w.clients[tid := FlushReturned(w.clients[tid].ticket)])
  {
  }

  /** Both last steps of the flush on words. */
  lemma ReturnsOnWords(sinks: Sinks, g: Logger, tid: Tid)
    requires LoggerInv(sinks, g) && SizeOk(g) && tid in g.clients && g.clients[tid] == WaitingEmpty(WORD)
    requires LocalOf(g, tid) == SizeHaveFirst(WORD - 1) && g.q.core.mem.enqueuePos == WORD + 1
    ensures var w := OnWords(g);
            && Possible(sinks, w, ClientQueue(tid, LoadLast))
            && var w' := HappenOnWords(sinks, w, ClientQueue(tid, LoadLast));
            && Possible(sinks, w', Return(tid))
            && HappenOnWords(sinks, w', Return(tid)) == w'.(clients := w.clients[tid := FlushReturned(0)])
            && w'.q.core.mem == w.q.core.mem && w'.worker == w.worker && tid in w.clients
  {
    var w := OnWords(g);
    WrapClientAt(g.clients, tid);
    assert tid in w.clients && w.clients[tid] == WaitingEmpty(0);
    assert (WORD - 1) % WORD + (WORD + 1 - (WORD - 1)) % WORD >= WORD;
    assert LocalOf(g, tid).SizeHaveFirst? && g.clients[tid].WaitingEmpty?;
    hide *;
    FlushFindsEmptyOnWordsIff(sinks, g, tid);
    LastLoad(sinks, w, tid);
    ReturnNow(sinks, HappenOnWords(sinks, w, ClientQueue(tid, LoadLast)), tid);
  }

  /** What FlushReturnsTooEarlyAtWrap finds at the end of its run. */
  ghost predicate ReturnedTooEarly(w: Logger, tid: Tid, m: Msg)
  {
    var mem := w.q.core.mem;
    && tid in w.clients && w.clients[tid] == FlushReturned(0)
    && mem.dequeuePos == WORD - 1 && mem.enqueuePos == 1
    && |mem.cells| > 0 && mem.cells[Slot(WORD - 1, |mem.cells|)] == Cell(0, m)
    && w.worker.events == []
  }

  lemma LastTwoSteps(sinks: Sinks, g: Logger, tid: Tid, m: Msg)
    requires LoggerInv(sinks, g) && SizeOk(g) && g.worker.events == []
    requires View(g, tid, WORD, WORD + 1, WORD - 1, WORD + 1, SizeHaveFirst(WORD - 1), WaitingEmpty(WORD),
                  LocalOf(g, WORKER), Ready)
    requires WORD - 1 in g.q.hist.sent && g.q.hist.sent[WORD - 1] == m
    ensures Possible(sinks, OnWords(g), ClientQueue(tid, LoadLast))
    ensures var w' := HappenOnWords(sinks, OnWords(g), ClientQueue(tid, LoadLast));
            && Possible(sinks, w', Return(tid))
            && ReturnedTooEarly(HappenOnWords(sinks, w', Return(tid)), tid, m)
  {
    hide LoggerInv, SizeOk, Possible, HappenOnWords, Slot;
    MessageWaits(sinks, g, WORD - 1);
    ReturnsOnWords(sinks, g, tid);
  }

  /** Message m with ticket 2^64 - 1 is published and still in the queue, no sink
      has received anything, and the flush(true) that the same client called
      after pushing it has returned. */
  lemma FlushReturnsTooEarlyAtWrap(sinks: Sinks, g0: Logger, tid: Tid, m: Msg) returns (run: seq<Happening>)
    requires Initial(g0) && SizeOk(g0) && tid in g0.clients
    ensures CanHappenOnWords(sinks, OnWords(g0), run)
    ensures ReturnedTooEarly(AfterOnWords(sinks, OnWords(g0), run), tid, m)
  {
    var g;
    run, g := PollsAcrossWrap(sinks, g0, tid, m);
    InitialEstablishesInv(sinks, g0);
    Reached(sinks, g0, run, g);
    assert g.worker.events == [] && SizeOk(g);
    hide Initial, LoggerInv, SizeOk, View, Possible, Happen, HappenOnWords, ReturnedTooEarly;
    AfterOnWordsRefines(sinks, g0, run);
    hide *;
    LastTwoSteps(sinks, g, tid, m);
    ExtendOnWords(sinks, OnWords(g0), run, ClientQueue(tid, LoadLast));
    run := run + [ClientQueue(tid, LoadLast)];
    ExtendOnWords(sinks, OnWords(g0), run, Return(tid));
    run := run + [Return(tid)];
  }
}
