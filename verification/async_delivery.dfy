// What the worker and the sinks see of the logger on 64-bit words: a run of the
// unbounded logger, whatever flush(true) makes of approx_size while it waits.
module AsyncDelivery {
  import opened MpmcQueue
  import opened MpmcWord
  import opened AsyncWorker
  import opened AsyncLog
  import opened AsyncWord

  /** A step of wait_empty_q. */
  predicate Waits(h: Happening)
  {
    h.PollSize? || h.Return? || (h.ClientQueue? && h.a.LoadLast?)
  }

  function NotWaiting(h: Happening): Happening
  {
    if h.Call? then h.(wait := false) else h
  }

  /** The same run with every flush(true) turned into a flush(false). */
  function WithoutWaiting(run: seq<Happening>): seq<Happening>
  {
    if run == [] then []
    else if Waits(run[0]) then WithoutWaiting(run[1..])
    else [NotWaiting(run[0])] + WithoutWaiting(run[1..])
  }

  // ---- A logger on words follows an unbounded one that never waits ----

  /** A client that pushes is where the unbounded one is; one that does not push
      has no enqueue or dequeue in flight. */
  ghost predicate ClientFollows(w: Logger, g: Logger, tid: Tid)
    requires tid in w.clients && tid in g.clients
  {
    var v, l := LocalOf(w, tid), LocalOf(g, tid);
    match w.clients[tid]
    case Pushing(m, _) => g.clients[tid] == Pushing(m, false) && v == WrapLocal(l)
    case WaitingEmpty(_) => g.clients[tid] == Outside && l.AtRest() && (v.AtRest() || v.SizeHaveFirst?)
    case _ => g.clients[tid] == Outside && l.AtRest() && v.AtRest()
  }

  ghost predicate Follows(w: Logger, g: Logger)
  {
    && w.worker == g.worker && w.q.core.mem == WrapMemory(g.q.core.mem)
    && w.q.core.threads.Keys == g.q.core.threads.Keys && WORKER in g.q.core.threads
    && w.clients.Keys == g.clients.Keys == g.q.core.threads.Keys - {WORKER}
    && LocalOf(w, WORKER) == WrapLocal(LocalOf(g, WORKER))
    && forall tid :: tid in g.clients ==> ClientFollows(w, g, tid)
  }

  lemma InitialFollows(g0: Logger)
    requires Initial(g0)
    ensures Follows(OnWords(g0), g0)
  {
    forall tid | tid in g0.clients ensures ClientFollows(OnWords(g0), g0, tid) {
      WrapClientAt(g0.clients, tid);
    }
  }

  /** Only client tid has moved. */
  ghost predicate OnlyClient(g: Logger, g': Logger, tid: Tid)
  {
    && tid in g.clients && tid in g'.clients && tid in g'.q.core.threads && g'.worker == g.worker
    && g'.q.core.threads == g.q.core.threads[tid := g'.q.core.threads[tid]]
    && g'.clients == g.clients[tid := g'.clients[tid]]
  }

  lemma ClientMoves(w: Logger, g: Logger, w': Logger, g': Logger, tid: Tid)
    requires Follows(w, g) && OnlyClient(w, w', tid) && OnlyClient(g, g', tid)
    requires w'.q.core.mem == WrapMemory(g'.q.core.mem) && ClientFollows(w', g', tid)
    ensures Follows(w', g')
  {
    hide WrapMemory, WrapLocal;
    forall other | other in g'.clients ensures ClientFollows(w', g', other) {
      if other != tid { assert ClientFollows(w, g, other); }
    }
  }

  lemma WorkerMoves(w: Logger, g: Logger, w': Logger, g': Logger)
    requires Follows(w, g) && w'.worker == g'.worker && w'.clients == w.clients && g'.clients == g.clients
    requires w'.q.core.threads == w.q.core.threads[WORKER := LocalOf(w', WORKER)]
    requires g'.q.core.threads == g.q.core.threads[WORKER := LocalOf(g', WORKER)]
    requires w'.q.core.mem == WrapMemory(g'.q.core.mem) && LocalOf(w', WORKER) == WrapLocal(LocalOf(g', WORKER))
    ensures Follows(w', g')
  {
    hide WrapMemory, WrapLocal;
    forall tid | tid in g'.clients ensures ClientFollows(w', g', tid) {
      assert ClientFollows(w, g, tid);
    }
  }

  /** Memory and thread tid after a queue step are still the wrapped ones. */
  ghost predicate StepsAlike(w: Logger, g: Logger, tid: Tid, a: Action<Msg>)
  {
    && CanStep(w.q.core, tid, a) && CanStep(g.q.core, tid, a)
    && var v, q := WordQueue(w.q, tid, a), Next(g.q, tid, a);
    && tid in v.core.threads && tid in q.core.threads && |q.core.mem.cells| == |g.q.core.mem.cells|
    && v.core.mem == WrapMemory(q.core.mem) && v.core.threads[tid] == WrapLocal(q.core.threads[tid])
    && v.core.threads == w.q.core.threads[tid := v.core.threads[tid]]
    && q.core.threads == g.q.core.threads[tid := q.core.threads[tid]]
  }

  /** A step by a thread that is at the same place in both. */
  lemma QueueFollows(w: Logger, g: Logger, tid: Tid, a: Action<Msg>)
    requires Inv(g.q) && SizeOk(g) && w.q.core.mem == WrapMemory(g.q.core.mem)
    requires tid in g.q.core.threads && LocalOf(w, tid) == WrapLocal(LocalOf(g, tid))
    requires CanStep(w.q.core, tid, a) && Close(g.q.core.mem, LocalOf(g, tid))
    ensures StepsAlike(w, g, tid, a)
  {
    assert CanStep(g.q.core, tid, a);
    ThreadInRange(g.q, tid);
    hide Inv, InRange, Close, WrapMemory, WrapLocal, Step, SizeOk;
    StepSimulates(g.q.core.mem, LocalOf(g, tid), a);
    KeepsSize(g.q, tid, a);
  }

  lemma KeepsSize(q: State<Msg>, tid: Tid, a: Action<Msg>)
    requires CanStep(q.core, tid, a)
    ensures |Next(q, tid, a).core.mem.cells| == |q.core.mem.cells|
  {
  }

  /** A client enters enqueue, wherever it has been before. */
  lemma CallFollows(w: Logger, g: Logger, tid: Tid, m: Msg)
    requires w.q.core.mem == WrapMemory(g.q.core.mem) && CanStep(w.q.core, tid, BeginEnqueue(m))
    requires |g.q.core.mem.cells| > 0 && tid in g.q.core.threads && LocalOf(g, tid).AtRest()
    ensures StepsAlike(w, g, tid, BeginEnqueue(m))
  {
  }

  /** Waiting changes nothing that the unbounded logger has. */
  lemma WaitFollows(sinks: Sinks, w: Logger, g: Logger, h: Happening)
    requires LoggerInv(sinks, g) && Follows(w, g) && Possible(sinks, w, h) && Waits(h)
    ensures Follows(HappenOnWords(sinks, w, h), g)
  {
    hide Inv, WorkerInv, WrapMemory;
    assert h.tid in g.clients && ClientOk(g, h.tid) && ClientFollows(w, g, h.tid);
    hide LoggerInv;
    ClientMoves(w, g, HappenOnWords(sinks, w, h), g, h.tid);
  }

  /** Both loggers as they are after a step of client tid. */
  ghost predicate ClientAlike(w: Logger, g: Logger, w': Logger, g': Logger, tid: Tid)
  {
    && OnlyClient(w, w', tid) && OnlyClient(g, g', tid)
    && w'.q.core.mem == WrapMemory(g'.q.core.mem) && ClientFollows(w', g', tid)
  }

  lemma CallStep(sinks: Sinks, w: Logger, g: Logger, h: Happening)
    requires Inv(g.q) && SizeOk(g) && Follows(w, g) && Possible(sinks, w, h) && h.Call?
    ensures Possible(sinks, g, NotWaiting(h)) && SizeOk(Happen(sinks, g, NotWaiting(h)))
    ensures ClientAlike(w, g, HappenOnWords(sinks, w, h), Happen(sinks, g, NotWaiting(h)), h.tid)
  {
    hide Inv, WrapMemory, CoreStep;
    assert ClientFollows(w, g, h.tid);
    CallFollows(w, g, h.tid, h.msg);
  }

  lemma PushStep(sinks: Sinks, w: Logger, g: Logger, h: Happening)
    requires Inv(g.q) && SizeOk(g) && Follows(w, g) && Possible(sinks, w, h) && !Waits(h)
    requires (h.ClientQueue? || h.Retry?) && Close(g.q.core.mem, LocalOf(g, h.tid))
    ensures Possible(sinks, g, h) && SizeOk(Happen(sinks, g, h))
    ensures ClientAlike(w, g, HappenOnWords(sinks, w, h), Happen(sinks, g, h), h.tid)
  {
    hide Inv, WrapMemory, CoreStep, Close;
    assert ClientFollows(w, g, h.tid);
    QueueFollows(w, g, h.tid, if h.Retry? then BeginEnqueue(LocalOf(w, h.tid).msg) else h.a);
  }

  lemma PushedStep(sinks: Sinks, w: Logger, g: Logger, h: Happening)
    requires Inv(g.q) && SizeOk(g) && Follows(w, g) && Possible(sinks, w, h) && h.Pushed?
    ensures Possible(sinks, g, h) && SizeOk(Happen(sinks, g, h))
    ensures ClientAlike(w, g, HappenOnWords(sinks, w, h), Happen(sinks, g, h), h.tid)
  {
    hide Inv, WrapMemory;
    assert ClientFollows(w, g, h.tid);
  }

  /** A client's step inside push_msg. */
  lemma ClientStepFollows(sinks: Sinks, w: Logger, g: Logger, h: Happening)
    requires Inv(g.q) && SizeOk(g) && Follows(w, g) && Possible(sinks, w, h) && !Waits(h)
    requires h.Call? || h.ClientQueue? || h.Retry? || h.Pushed?
    requires Close(g.q.core.mem, LocalOf(g, h.tid))
    ensures Possible(sinks, g, NotWaiting(h)) && SizeOk(Happen(sinks, g, NotWaiting(h)))
    ensures Follows(HappenOnWords(sinks, w, h), Happen(sinks, g, NotWaiting(h)))
  {
    hide Inv, SizeOk, Follows, Possible, Happen, HappenOnWords, Close, OnlyClient, ClientFollows;
    match h {
      case Call(_, _, _) => CallStep(sinks, w, g, h);
      case Pushed(_) => PushedStep(sinks, w, g, h);
      case _ => PushStep(sinks, w, g, h);
    }
    ClientMoves(w, g, HappenOnWords(sinks, w, h), Happen(sinks, g, NotWaiting(h)), h.tid);
  }

  lemma WorkerStepFollows(sinks: Sinks, w: Logger, g: Logger, h: Happening)
    requires Inv(g.q) && SizeOk(g) && Follows(w, g) && Possible(sinks, w, h)
    requires h.WorkerBegin? || h.WorkerQueue? || h.WorkerPop? || h.WorkerAct?
    requires Close(g.q.core.mem, LocalOf(g, WORKER))
    ensures Possible(sinks, g, h) && SizeOk(Happen(sinks, g, h))
    ensures Follows(HappenOnWords(sinks, w, h), Happen(sinks, g, h))
  {
    hide Inv, WrapMemory, CoreStep, Close, Do;
    match h {
      case WorkerBegin => QueueFollows(w, g, WORKER, BeginDequeue);
      case WorkerQueue(a) => QueueFollows(w, g, WORKER, a);
      case _ =>
    }
    WorkerMoves(w, g, HappenOnWords(sinks, w, h), Happen(sinks, g, h));
  }

  lemma StepFollows(sinks: Sinks, w: Logger, g: Logger, h: Happening)
    requires LoggerInv(sinks, g) && SizeOk(g) && Follows(w, g) && Possible(sinks, w, h) && !Waits(h)
    requires Near(g.q.core.mem, LocalOf(g, Actor(h)))
    ensures Possible(sinks, g, NotWaiting(h)) && SizeOk(Happen(sinks, g, NotWaiting(h)))
    ensures Follows(HappenOnWords(sinks, w, h), Happen(sinks, g, NotWaiting(h)))
  {
    NoSizeInHand(sinks, w, g, h);
    assert Inv(g.q);
    hide LoggerInv, Inv, SizeOk, Follows, Possible, Happen, HappenOnWords;
    if h.Call? || h.ClientQueue? || h.Retry? || h.Pushed? {
      ClientStepFollows(sinks, w, g, h);
    } else {
      WorkerStepFollows(sinks, w, g, h);
    }
  }

  /** A logger in which nobody waits has no approx_size under way. */
  lemma NoSizeInHand(sinks: Sinks, w: Logger, g: Logger, h: Happening)
    requires LoggerInv(sinks, g) && Follows(w, g) && Possible(sinks, w, h)
    ensures !LocalOf(g, Actor(h)).SizeHaveFirst?
  {
    if Actor(h) in g.clients {
      assert ClientFollows(w, g, Actor(h)) && ClientOk(g, Actor(h));
    }
    hide Inv, WorkerInv, WrapMemory;
  }

  // ---- Whole runs ----

  /** Compared numbers stay less than 2^63 apart. */
  ghost predicate StaysNear(sinks: Sinks, g: Logger, run: seq<Happening>)
    decreases |run|
  {
    run == [] || (Near(g.q.core.mem, LocalOf(g, Actor(run[0])))
                  && (Possible(sinks, g, run[0]) ==> StaysNear(sinks, Happen(sinks, g, run[0]), run[1..])))
  }

  lemma FirstWithoutWaiting(sinks: Sinks, g: Logger, run: seq<Happening>)
    requires run != [] && !Waits(run[0])
    ensures var rest := WithoutWaiting(run[1..]);
      && (StaysNear(sinks, g, WithoutWaiting(run)) ==> Near(g.q.core.mem, LocalOf(g, Actor(run[0]))))
      && (Possible(sinks, g, NotWaiting(run[0])) ==>
            var g' := Happen(sinks, g, NotWaiting(run[0]));
            && (StaysNear(sinks, g, WithoutWaiting(run)) ==> StaysNear(sinks, g', rest))
            && (CanHappen(sinks, g', rest) ==>
                  CanHappen(sinks, g, WithoutWaiting(run))
                  && After(sinks, g, WithoutWaiting(run)) == After(sinks, g', rest)))
  {
    var all := WithoutWaiting(run);
    assert all[0] == NotWaiting(run[0]) && all[1..] == WithoutWaiting(run[1..]);
    hide Near, Possible, Happen;
  }

  lemma {:induction false} WordsFollow(sinks: Sinks, w: Logger, g: Logger, run: seq<Happening>)
    requires LoggerInv(sinks, g) && SizeOk(g) && Follows(w, g) && CanHappenOnWords(sinks, w, run)
    requires StaysNear(sinks, g, WithoutWaiting(run))
    ensures CanHappen(sinks, g, WithoutWaiting(run))
    ensures Follows(AfterOnWords(sinks, w, run), After(sinks, g, WithoutWaiting(run)))
    decreases |run|
  {
    hide LoggerInv, SizeOk, Follows, Possible, Happen, HappenOnWords, Near, StaysNear;
    if run != [] {
      var w' := HappenOnWords(sinks, w, run[0]);
      if Waits(run[0]) {
        WaitFollows(sinks, w, g, run[0]);
        WordsFollow(sinks, w', g, run[1..]);
      } else {
        FirstWithoutWaiting(sinks, g, run);
        StepFollows(sinks, w, g, run[0]);
        HappenPreservesInv(sinks, g, NotWaiting(run[0]));
        WordsFollow(sinks, w', Happen(sinks, g, NotWaiting(run[0])), run[1..]);
      }
    }
  }

  // ---- Theorems ----

  /** Every run on words, wrong sizes and early returns included, has the same
      worker, sinks and queue memory as the run of the unbounded logger in which
      no flush waits. */
  lemma WordsFollowWithoutWaiting(sinks: Sinks, g0: Logger, run: seq<Happening>)
    requires Initial(g0) && SizeOk(g0) && CanHappenOnWords(sinks, OnWords(g0), run)
    requires StaysNear(sinks, g0, WithoutWaiting(run))
    ensures CanHappen(sinks, g0, WithoutWaiting(run))
    ensures var w, g := AfterOnWords(sinks, OnWords(g0), run), After(sinks, g0, WithoutWaiting(run));
      w.worker == g.worker && w.q.core.mem == WrapMemory(g.q.core.mem)
  {
    InitialEstablishesInv(sinks, g0);
    InitialFollows(g0);
    WordsFollow(sinks, OnWords(g0), g0, run);
  }

  /** So on words too each sink receives what it accepts in ticket order, each
      ticket once, and every handled one that did not throw. */
  lemma SinksReceiveInTicketOrderOnWords(sinks: Sinks, g0: Logger, run: seq<Happening>, k: nat)
    requires Initial(g0) && SizeOk(g0) && CanHappenOnWords(sinks, OnWords(g0), run)
    requires StaysNear(sinks, g0, WithoutWaiting(run)) && k < |sinks.levels|
    ensures CanHappen(sinks, g0, WithoutWaiting(run))
    ensures var w, g := AfterOnWords(sinks, OnWords(g0), run), After(sinks, g0, WithoutWaiting(run));
      w.worker == g.worker && Ordered(sinks, g, k)
  {
    hide *;
    WordsFollowWithoutWaiting(sinks, g0, run);
    SinksReceiveInTicketOrder(sinks, g0, WithoutWaiting(run), k);
  }

  /** And when the worker exits on words, nothing threw and nothing was ticketed
      after the terminate message, each sink has received exactly the messages
      it accepts and was flushed after the last. */
  lemma ExitDeliversEverythingOnWords(sinks: Sinks, g0: Logger, run: seq<Happening>, k: nat)
    requires Initial(g0) && SizeOk(g0) && CanHappenOnWords(sinks, OnWords(g0), run)
    requires StaysNear(sinks, g0, WithoutWaiting(run)) && k < |sinks.levels|
    requires var w := AfterOnWords(sinks, OnWords(g0), run).worker;
             w.phase.Exited? && w.thrown == map[]
    ensures CanHappen(sinks, g0, WithoutWaiting(run))
    ensures var w, q := AfterOnWords(sinks, OnWords(g0), run).worker, After(sinks, g0, WithoutWaiting(run)).q;
      (forall t :: t in q.hist.sent && q.hist.sent[t].Terminate? ==> t + 1 == q.core.mem.enqueuePos) ==>
        && (forall t :: 0 <= t < q.core.mem.enqueuePos ==> t in q.hist.sent)
        && AscendsBelow(Received(w.events, k), q.core.mem.enqueuePos)
        && (forall t :: t in Received(w.events, k) <==>
              t in q.hist.sent && q.hist.sent[t].Log? && q.hist.sent[t].level >= sinks.levels[k])
        && Unflushed(w.events, k) == []
  {
    hide *;
    WordsFollowWithoutWaiting(sinks, g0, run);
    var q := After(sinks, g0, WithoutWaiting(run)).q;
    if forall t :: t in q.hist.sent && q.hist.sent[t].Terminate? ==> t + 1 == q.core.mem.enqueuePos {
      ExitDeliversEverything(sinks, g0, WithoutWaiting(run), k);
    }
  }
}
