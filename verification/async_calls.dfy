// push_msg does not return before its message is in the queue: the calls of a
// client and the tickets it wins.
module AsyncCalls {
  import opened MpmcQueue
  import opened MpmcTheorems
  import opened AsyncWorker
  import opened AsyncLog

  /** The tickets won by tid, in order. */
  function TicketsOf(enqueuers: seq<Tid>, tid: Tid): seq<nat>
  {
    if enqueuers == [] then []
    else
      var front := enqueuers[..|enqueuers| - 1];
      TicketsOf(front, tid) + (if enqueuers[|enqueuers| - 1] == tid then [|enqueuers| - 1] else [])
  }

  lemma TicketsSnoc(enqueuers: seq<Tid>, x: Tid, tid: Tid)
    ensures TicketsOf(enqueuers + [x], tid)
            == TicketsOf(enqueuers, tid) + (if x == tid then [|enqueuers|] else [])
  {
    assert (enqueuers + [x])[..|enqueuers|] == enqueuers;
  }

  lemma {:induction false} TicketsAreHis(enqueuers: seq<Tid>, tid: Tid)
    ensures var ts := TicketsOf(enqueuers, tid);
            && (forall i :: 0 <= i < |ts| ==> ts[i] < |enqueuers| && enqueuers[ts[i]] == tid)
            && (forall t :: 0 <= t < |enqueuers| && enqueuers[t] == tid ==> t in ts)
            && AscendsBelow(ts, |enqueuers|)
  {
    if enqueuers != [] {
      TicketsAreHis(enqueuers[..|enqueuers| - 1], tid);
    }
  }

  /** The message of the call that this step is, if it is one by tid. */
  function CallNow(h: Happening, tid: Tid): seq<Msg>
  {
    if h.Call? && h.tid == tid then [h.msg] else []
  }

  /** The messages of the calls that tid makes during a run, in order. */
  function Called(run: seq<Happening>, tid: Tid): seq<Msg>
  {
    if run == [] then [] else CallNow(run[0], tid) + Called(run[1..], tid)
  }

  /** Each call of tid has a ticket; only the last one may still be without, and
      only inside push_msg. */
  ghost predicate CountOk(g: Logger, tid: Tid, called: seq<Msg>)
  {
    var ts := TicketsOf(g.q.hist.enqueuers, tid);
    && tid in g.clients
    && if g.clients[tid].Pushing? then
         && called != [] && called[|called| - 1] == g.clients[tid].msg
         && (if HasEnqueueTicket(LocalOf(g, tid)) then
               |ts| == |called| && ts[|ts| - 1] == LocalOf(g, tid).pos
             else |ts| == |called| - 1)
       else |ts| == |called|
  }

  /** The tickets of tid hold the messages it was called with, in order. */
  ghost predicate ValuesOk(q: State<Msg>, tid: Tid, called: seq<Msg>)
  {
    var ts := TicketsOf(q.hist.enqueuers, tid);
    forall i :: 0 <= i < |ts| && ts[i] in q.hist.sent ==> i < |called| && q.hist.sent[ts[i]] == called[i]
  }

  ghost predicate CallsOk(g: Logger, tid: Tid, called: seq<Msg>)
  {
    CountOk(g, tid, called) && ValuesOk(g.q, tid, called)
  }

  lemma InitialCalls(g0: Logger, tid: Tid)
    requires Initial(g0) && tid in g0.clients
    ensures CallsOk(g0, tid, [])
  {
  }

  /** What a step inside the queue does to tickets and stored messages. */
  lemma QueueStepTickets(q: State<Msg>, tid: Tid, a: Action<Msg>)
    requires Inv(q) && CanStep(q.core, tid, a)
    ensures var q' := Next(q, tid, a);
            && tid in q'.core.threads && q'.core.threads == q.core.threads[tid := q'.core.threads[tid]]
            && var l, l' := q.core.threads[tid], q'.core.threads[tid];
            && q'.hist.enqueuers == q.hist.enqueuers + (if l'.EnqClaimed? then [tid] else [])
            && (l'.EnqClaimed? ==> l.EnqHaveSeq? && l'.pos == |q.hist.enqueuers| && l'.pos !in q'.hist.sent)
            && q'.hist.sent == (if l.EnqClaimed? then q.hist.sent[l.pos := l.msg] else q.hist.sent)
            && (l.EnqClaimed? ==> l' == EnqMoved(l.pos) && l.pos < |q.hist.enqueuers| && q.hist.enqueuers[l.pos] == tid)
            && (HasEnqueueTicket(l') ==> l'.EnqClaimed? || (HasEnqueueTicket(l) && l'.pos == l.pos))
            && (HasEnqueueTicket(l) && !l.EnqDone? ==> HasEnqueueTicket(l'))
  {
    assert ThreadOk(q, tid);
    hide CellOk, FreeCellOk, FullCellOk;
  }

  /** A queue step by actor changes neither the tickets of tid nor what is stored
      for them. */
  lemma OthersTickets(q: State<Msg>, actor: Tid, a: Action<Msg>, tid: Tid)
    requires Inv(q) && CanStep(q.core, actor, a) && actor != tid
    ensures var ts, q' := TicketsOf(q.hist.enqueuers, tid), Next(q, actor, a);
            && TicketsOf(q'.hist.enqueuers, tid) == ts && ThreadOf(q', tid) == ThreadOf(q, tid)
            && (forall i :: 0 <= i < |ts| && ts[i] in q'.hist.sent ==>
                  ts[i] in q.hist.sent && q'.hist.sent[ts[i]] == q.hist.sent[ts[i]])
  {
    hide Inv, CanStep, Next, TicketsOf, AscendsBelow;
    QueueStepTickets(q, actor, a);
    TicketsSnoc(q.hist.enqueuers, actor, tid);
    assert q.hist.enqueuers + [] == q.hist.enqueuers;
    TicketsAreHis(q.hist.enqueuers, tid);
  }

  /** A queue step by somebody else. */
  lemma OtherActs(g: Logger, g': Logger, actor: Tid, a: Action<Msg>, tid: Tid, called: seq<Msg>)
    requires Inv(g.q) && CanStep(g.q.core, actor, a) && actor != tid && CallsOk(g, tid, called)
    requires g'.q == Next(g.q, actor, a) && tid in g'.clients && g'.clients[tid] == g.clients[tid]
    ensures CallsOk(g', tid, called)
  {
    hide Inv, CanStep, Next, TicketsOf;
    OthersTickets(g.q, actor, a, tid);
  }

  /** A queue step by tid itself: it may win one more ticket, or store the message
      of one. */
  lemma OwnTickets(q: State<Msg>, tid: Tid, a: Action<Msg>)
    requires Inv(q) && CanStep(q.core, tid, a)
    ensures var q' := Next(q, tid, a);
      && tid in q'.core.threads
      && var l, l' := q.core.threads[tid], q'.core.threads[tid];
      && var ts, ts' := TicketsOf(q.hist.enqueuers, tid), TicketsOf(q'.hist.enqueuers, tid);
      && ts' == ts + (if l'.EnqClaimed? then [l'.pos] else []) && (l.EnqClaimed? ==> !l'.EnqClaimed?)
      && (forall i, j :: 0 <= i < j < |ts'| ==> ts'[i] < ts'[j])
      && forall i :: 0 <= i < |ts'| && ts'[i] in q'.hist.sent ==>
           || (l.EnqClaimed? && ts'[i] == l.pos && q'.hist.sent[ts'[i]] == l.msg)
           || (i < |ts| && ts[i] in q.hist.sent && q'.hist.sent[ts'[i]] == q.hist.sent[ts[i]])
  {
    hide Inv, CanStep, Next, TicketsOf;
    QueueStepTickets(q, tid, a);
    TicketsSnoc(q.hist.enqueuers, tid, tid);
    assert q.hist.enqueuers + [] == q.hist.enqueuers;
    TicketsAreHis(q.hist.enqueuers, tid);
  }

  lemma OwnCount(g: Logger, tid: Tid, a: Action<Msg>, called: seq<Msg>)
    requires Inv(g.q) && CanStep(g.q.core, tid, a) && CountOk(g, tid, called) && ClientOk(g, tid)
    requires g.clients[tid].Pushing? ==> !LocalOf(g, tid).EnqDone?
    ensures CountOk(g.(q := Next(g.q, tid, a)), tid, called)
  {
    assert tid in g.q.core.threads;
    hide Inv, CanStep, Next, TicketsOf;
    QueueStepTickets(g.q, tid, a);
    OwnTickets(g.q, tid, a);
  }

  lemma OwnValues(g: Logger, tid: Tid, a: Action<Msg>, called: seq<Msg>)
    requires Inv(g.q) && CanStep(g.q.core, tid, a) && CallsOk(g, tid, called) && ClientOk(g, tid)
    ensures ValuesOk(Next(g.q, tid, a), tid, called)
  {
    assert tid in g.q.core.threads;
    var l := LocalOf(g, tid);
    assert l.EnqClaimed? ==> called != [] && called[|called| - 1] == l.msg
                             && |TicketsOf(g.q.hist.enqueuers, tid)| == |called|
                             && TicketsOf(g.q.hist.enqueuers, tid)[|called| - 1] == l.pos;
    hide Inv, CanStep, Next, TicketsOf, ClientOk, CountOk;
    OwnTickets(g.q, tid, a);
  }

  /** A queue step of the client inside push_msg or approx_size. */
  lemma ClientActs(g: Logger, tid: Tid, a: Action<Msg>, called: seq<Msg>)
    requires Inv(g.q) && CanStep(g.q.core, tid, a) && CallsOk(g, tid, called) && ClientOk(g, tid)
    requires g.clients[tid].Pushing? ==> !LocalOf(g, tid).EnqDone?
    ensures CallsOk(g.(q := Next(g.q, tid, a)), tid, called)
  {
    hide Inv, CanStep, Next, TicketsOf, ClientOk, CountOk, ValuesOk;
    OwnCount(g, tid, a, called);
    OwnValues(g, tid, a, called);
  }

  /** A client that calls push_msg, and one that returns from it. */
  lemma ClientCalls(sinks: Sinks, g: Logger, h: Happening, called: seq<Msg>)
    requires LoggerInv(sinks, g) && Possible(sinks, g, h) && h.Call? && CallsOk(g, h.tid, called)
    ensures CallsOk(Happen(sinks, g, h), h.tid, called + [h.msg])
  {
    assert Inv(g.q) && ClientOk(g, h.tid);
    hide LoggerInv;
    QueueStepTickets(g.q, h.tid, BeginEnqueue(h.msg));
    assert g.q.hist.enqueuers + [] == g.q.hist.enqueuers;
    hide Inv, TicketsOf;
  }

  lemma ClientReturns(sinks: Sinks, g: Logger, h: Happening, called: seq<Msg>)
    requires LoggerInv(sinks, g) && Possible(sinks, g, h) && (h.Pushed? || h.Return?) && CallsOk(g, h.tid, called)
    ensures CallsOk(Happen(sinks, g, h), h.tid, called)
  {
    hide LoggerInv, TicketsOf;
  }

  predicate ByClient(h: Happening)
  {
    h.Call? || h.ClientQueue? || h.Retry? || h.Pushed? || h.PollSize? || h.Return?
  }

  lemma OwnStep(sinks: Sinks, g: Logger, h: Happening, called: seq<Msg>)
    requires LoggerInv(sinks, g) && Possible(sinks, g, h) && ByClient(h) && CallsOk(g, h.tid, called)
    ensures CallsOk(Happen(sinks, g, h), h.tid, called + CallNow(h, h.tid))
  {
    assert Inv(g.q) && ClientOk(g, h.tid) && called + [] == called;
    hide Inv, LoggerInv, CallsOk, ClientOk, Next;
    match h
    case Call(_, _, _) => ClientCalls(sinks, g, h, called);
    case ClientQueue(tid, a) => ClientActs(g, tid, a, called);
    case Retry(tid) => ClientActs(g, tid, BeginEnqueue(LocalOf(g, tid).msg), called);
    case PollSize(tid) => ClientActs(g, tid, BeginSize, called);
    case _ => ClientReturns(sinks, g, h, called);
  }

  lemma SameQueue(g: Logger, g': Logger, tid: Tid, called: seq<Msg>)
    requires CallsOk(g, tid, called) && g'.q == g.q && tid in g'.clients && g'.clients[tid] == g.clients[tid]
    ensures CallsOk(g', tid, called)
  {
  }

  lemma OthersStep(sinks: Sinks, g: Logger, h: Happening, tid: Tid, called: seq<Msg>)
    requires LoggerInv(sinks, g) && Possible(sinks, g, h) && (ByClient(h) ==> h.tid != tid) && CallsOk(g, tid, called)
    ensures CallsOk(Happen(sinks, g, h), tid, called)
  {
    assert Inv(g.q) && tid != WORKER;
    var g' := Happen(sinks, g, h);
    hide Inv, LoggerInv, CallsOk, Next, Do;
    match h
    case Call(other, msg, _) => OtherActs(g, g', other, BeginEnqueue(msg), tid, called);
    case ClientQueue(other, a) => OtherActs(g, g', other, a, tid, called);
    case Retry(other) => OtherActs(g, g', other, BeginEnqueue(LocalOf(g, other).msg), tid, called);
    case PollSize(other) => OtherActs(g, g', other, BeginSize, tid, called);
    case WorkerBegin => OtherActs(g, g', WORKER, BeginDequeue, tid, called);
    case WorkerQueue(a) => OtherActs(g, g', WORKER, a, tid, called);
    case _ => SameQueue(g, g', tid, called);
  }

  lemma StepKeepsCalls(sinks: Sinks, g: Logger, h: Happening, tid: Tid, called: seq<Msg>)
    requires LoggerInv(sinks, g) && Possible(sinks, g, h) && CallsOk(g, tid, called)
    ensures CallsOk(Happen(sinks, g, h), tid, called + CallNow(h, tid))
  {
    hide LoggerInv, Possible, Happen, CallsOk;
    if ByClient(h) && h.tid == tid {
      OwnStep(sinks, g, h, called);
    } else {
      OthersStep(sinks, g, h, tid, called);
      assert called + [] == called;
    }
  }

  lemma {:induction false} RunKeepsCalls(sinks: Sinks, g: Logger, run: seq<Happening>, tid: Tid, called: seq<Msg>)
    requires LoggerInv(sinks, g) && CanHappen(sinks, g, run) && CallsOk(g, tid, called)
    ensures CallsOk(After(sinks, g, run), tid, called + Called(run, tid))
    decreases |run|
  {
    hide LoggerInv, Possible, Happen, CallsOk;
    if run == [] {
      assert called + [] == called;
    } else {
      HappenPreservesInv(sinks, g, run[0]);
      StepKeepsCalls(sinks, g, run[0], tid, called);
      RunKeepsCalls(sinks, Happen(sinks, g, run[0]), run[1..], tid, called + CallNow(run[0], tid));
      assert called + CallNow(run[0], tid) + Called(run[1..], tid) == called + Called(run, tid);
    }
  }

  /** Ticket number i of tid holds the message of its call number i. */
  ghost predicate HoldsCall(q: State<Msg>, tid: Tid, called: seq<Msg>, i: nat)
  {
    var ts := TicketsOf(q.hist.enqueuers, tid);
    i < |ts| && i < |called| && ts[i] in q.hist.sent && q.hist.sent[ts[i]] == called[i]
  }

  lemma StoredUnlessClaimed(q: State<Msg>, tid: Tid, t: nat)
    requires Inv(q) && t < |q.hist.enqueuers| && q.hist.enqueuers[t] == tid
    ensures t in q.hist.sent || ThreadOf(q, tid) == EnqClaimed(t, ThreadOf(q, tid).msg)
  {
  }

  /** Every call has its own ticket, and the tickets come in the order of the
      calls; inside push_msg the last call may still be without one. */
  ghost predicate TicketedInOrder(g: Logger, tid: Tid, called: seq<Msg>)
  {
    var ts := TicketsOf(g.q.hist.enqueuers, tid);
    && tid in g.clients
    && (if g.clients[tid].Pushing? then
          called != [] && called[|called| - 1] == g.clients[tid].msg && |called| - 1 <= |ts| <= |called|
        else |ts| == |called|)
    && forall i :: 0 <= i < |called| - (if g.clients[tid].Pushing? then 1 else 0) ==> HoldsCall(g.q, tid, called, i)
  }

  /** Over every run the messages a client has called push_msg with, in the order
      of the calls, are those of the tickets it has won, in ticket order. */
  lemma CallsAreTicketedInOrder(sinks: Sinks, g0: Logger, run: seq<Happening>, tid: Tid)
    requires Initial(g0) && CanHappen(sinks, g0, run) && tid in g0.clients
    ensures TicketedInOrder(After(sinks, g0, run), tid, Called(run, tid))
  {
    var called := Called(run, tid);
    assert [] + called == called;
    hide *;
    InitialEstablishesInv(sinks, g0);
    InitialCalls(g0, tid);
    AfterKeepsInv(sinks, g0, run);
    RunKeepsCalls(sinks, g0, run, tid, []);
    HeldCalls(sinks, After(sinks, g0, run), tid, called);
  }

  lemma HeldCalls(sinks: Sinks, g: Logger, tid: Tid, called: seq<Msg>)
    requires LoggerInv(sinks, g) && CallsOk(g, tid, called)
    ensures TicketedInOrder(g, tid, called)
  {
    var ts := TicketsOf(g.q.hist.enqueuers, tid);
    TicketsAreHis(g.q.hist.enqueuers, tid);
    assert Inv(g.q) && ClientOk(g, tid);
    hide LoggerInv, Inv, TicketsOf;
    forall i | 0 <= i < |called| - (if g.clients[tid].Pushing? then 1 else 0) ensures HoldsCall(g.q, tid, called, i) {
      StoredUnlessClaimed(g.q, tid, ts[i]);
      assert i < |ts| - 1 ==> ts[i] < ts[|ts| - 1];
    }
  }

  /** So at the moment push_msg returns, by whatever step, its message has a
      ticket of that client. */
  lemma PushReturnsWithTicket(sinks: Sinks, g0: Logger, run: seq<Happening>, h: Happening, tid: Tid) returns (t: nat)
    requires Initial(g0) && CanHappen(sinks, g0, run) && Possible(sinks, After(sinks, g0, run), h)
    requires tid in After(sinks, g0, run).clients && After(sinks, g0, run).clients[tid].Pushing?
    requires var c := Happen(sinks, After(sinks, g0, run), h).clients;
             tid in c && c[tid] != After(sinks, g0, run).clients[tid]
    ensures var m, q := After(sinks, g0, run).clients[tid].msg, Happen(sinks, After(sinks, g0, run), h).q;
      t in q.hist.sent && q.hist.sent[t] == m && t < |q.hist.enqueuers| && q.hist.enqueuers[t] == tid
  {
    var g := After(sinks, g0, run);
    hide *;
    InitialEstablishesInv(sinks, g0);
    AfterKeepsInv(sinks, g0, run);
    t := LeavesWithTicket(sinks, g, h, tid);
  }

  lemma LeavesWithTicket(sinks: Sinks, g: Logger, h: Happening, tid: Tid) returns (t: nat)
    requires LoggerInv(sinks, g) && Possible(sinks, g, h) && tid in g.clients && g.clients[tid].Pushing?
    requires tid in Happen(sinks, g, h).clients && Happen(sinks, g, h).clients[tid] != g.clients[tid]
    ensures var q := Happen(sinks, g, h).q;
      t in q.hist.sent && q.hist.sent[t] == g.clients[tid].msg && t < |q.hist.enqueuers| && q.hist.enqueuers[t] == tid
  {
    assert Inv(g.q) && ClientOk(g, tid) && tid in g.q.core.threads;
    assert ThreadOk(g.q, tid);
    hide LoggerInv, Inv;
    t := LocalOf(g, tid).pos;
  }
}
