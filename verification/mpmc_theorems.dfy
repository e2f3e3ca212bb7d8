// What every run of the bounded queue guarantees.
module MpmcTheorems {
  import opened RingArithmetic
  import opened MpmcQueue

  datatype Turn<T> = Turn(tid: Tid, action: Action<T>)

  // ---- Runs ----

  predicate CanRun<T>(s: State<T>, run: seq<Turn<T>>)
    decreases |run|
  {
    run == [] || (CanStep(s.core, run[0].tid, run[0].action)
                  && CanRun(Next(s, run[0].tid, run[0].action), run[1..]))
  }

  function Run<T>(s: State<T>, run: seq<Turn<T>>): State<T>
    requires CanRun(s, run)
    decreases |run|
  {
    if run == [] then s else Run(Next(s, run[0].tid, run[0].action), run[1..])
  }

  lemma {:induction false} RunKeepsInv<T>(s: State<T>, run: seq<Turn<T>>)
    requires Inv(s) && CanRun(s, run)
    ensures Inv(Run(s, run))
    decreases |run|
  {
    if run != [] {
      StepPreservesInv(s, run[0].tid, run[0].action);
      RunKeepsInv(Next(s, run[0].tid, run[0].action), run[1..]);
    }
  }

  lemma OneOwner<T>(s: State<T>, a: Tid, b: Tid)
    requires Inv(s) && a in s.core.threads && b in s.core.threads
    requires var n, la, lb := |s.core.mem.cells|, s.core.threads[a], s.core.threads[b];
             la.InCriticalSection() && lb.InCriticalSection() && Slot(la.pos, n) == Slot(lb.pos, n)
    ensures a == b
  {
    assert ThreadOk(s, a) && ThreadOk(s, b);
    SlotNeighbours(s.core.threads[a].pos, |s.core.mem.cells|);
    SlotNeighbours(s.core.threads[b].pos, |s.core.mem.cells|);
  }

  /** In every reachable state the counters stay ordered and at most one ring
      apart, and no two threads are ever between compare-and-swap and sequence
      store on the same cell. */
  lemma OneOwnerPerCell<T>(s0: State<T>, run: seq<Turn<T>>)
    requires Init(s0) && CanRun(s0, run)
    ensures var mem := Run(s0, run).core.mem;
            0 <= mem.enqueuePos - mem.dequeuePos <= |mem.cells|
    ensures var s := Run(s0, run);
            var n := |s.core.mem.cells|;
            forall a, b :: n > 0 && a in s.core.threads && b in s.core.threads &&
              s.core.threads[a].InCriticalSection() && s.core.threads[b].InCriticalSection() &&
              Slot(s.core.threads[a].pos, n) == Slot(s.core.threads[b].pos, n)
              ==> a == b
  {
    InitEstablishesInv(s0);
    RunKeepsInv(s0, run);
    var s := Run(s0, run);
    var n := |s.core.mem.cells|;
    forall a, b | n > 0 && a in s.core.threads && b in s.core.threads &&
      s.core.threads[a].InCriticalSection() && s.core.threads[b].InCriticalSection() &&
      Slot(s.core.threads[a].pos, n) == Slot(s.core.threads[b].pos, n)
      ensures a == b
    {
      OneOwner(s, a, b);
    }
  }

  // ---- Tickets: claimed in order, once each; stored and taken exactly once ----

  /** The ticket this turn wins on the enqueue side, if any. */
  function EnqueueTicketNow<T>(s: State<T>, turn: Turn<T>): seq<nat>
    requires CanStep(s.core, turn.tid, turn.action)
  {
    var l' := Next(s, turn.tid, turn.action).core.threads[turn.tid];
    if l'.EnqClaimed? then [l'.pos] else []
  }

  /** The tickets won by enqueuers during a run, in order. */
  function EnqueueTickets<T>(s: State<T>, run: seq<Turn<T>>): seq<nat>
    requires CanRun(s, run)
    decreases |run|
  {
    if run == [] then []
    else EnqueueTicketNow(s, run[0]) + EnqueueTickets(Next(s, run[0].tid, run[0].action), run[1..])
  }

  /** The ticket this turn wins on the dequeue side, if any. */
  function DequeueTicketNow<T>(s: State<T>, turn: Turn<T>): seq<nat>
    requires CanStep(s.core, turn.tid, turn.action)
  {
    var l' := Next(s, turn.tid, turn.action).core.threads[turn.tid];
    if l'.DeqClaimed? then [l'.pos] else []
  }

  /** The tickets won by dequeuers during a run, in order. */
  function DequeueTickets<T>(s: State<T>, run: seq<Turn<T>>): seq<nat>
    requires CanRun(s, run)
    decreases |run|
  {
    if run == [] then []
    else DequeueTicketNow(s, run[0]) + DequeueTickets(Next(s, run[0].tid, run[0].action), run[1..])
  }

  /** (ticket, value) if this turn stores a payload. */
  function StoredNow<T>(s: State<T>, turn: Turn<T>): seq<(nat, T)>
    requires CanStep(s.core, turn.tid, turn.action)
  {
    var l := s.core.threads[turn.tid];
    if turn.action.Move? && l.EnqClaimed? then [(l.pos, l.msg)] else []
  }

  /** (ticket, value) if this turn takes a payload. */
  function TakenNow<T>(s: State<T>, turn: Turn<T>): seq<(nat, T)>
    requires CanStep(s.core, turn.tid, turn.action)
  {
    var l' := Next(s, turn.tid, turn.action).core.threads[turn.tid];
    if turn.action.Move? && l'.DeqMoved? then [(l'.pos, l'.msg)] else []
  }

  /** Every payload stored during a run, in order. */
  function Stored<T>(s: State<T>, run: seq<Turn<T>>): seq<(nat, T)>
    requires CanRun(s, run)
    decreases |run|
  {
    if run == [] then []
    else StoredNow(s, run[0]) + Stored(Next(s, run[0].tid, run[0].action), run[1..])
  }

  /** Every payload taken during a run, in order. */
  function Taken<T>(s: State<T>, run: seq<Turn<T>>): seq<(nat, T)>
    requires CanRun(s, run)
    decreases |run|
  {
    if run == [] then []
    else TakenNow(s, run[0]) + Taken(Next(s, run[0].tid, run[0].action), run[1..])
  }

  /** [from, from + 1, ..., from + len - 1] */
  function Count(from: nat, len: nat): (r: seq<nat>)
    ensures |r| == len
    decreases len
  {
    if len == 0 then [] else [from] + Count(from + 1, len - 1)
  }

  lemma CountFrom(won: seq<nat>, from: nat, mid: nat, to: nat)
    requires (won == [] && mid == from) || (won == [from] && mid == from + 1)
    requires mid <= to
    ensures won + Count(mid, to - mid) == Count(from, to - from)
  {
  }

  lemma EnqueueStep<T>(s: State<T>, turn: Turn<T>)
    requires Inv(s) && CanStep(s.core, turn.tid, turn.action)
    ensures var from, to := s.core.mem.enqueuePos, Next(s, turn.tid, turn.action).core.mem.enqueuePos;
            var won := EnqueueTicketNow(s, turn);
            (won == [] && to == from) || (won == [from] && to == from + 1)
  {
  }

  lemma EnqueueTicketsUnfold<T>(s: State<T>, run: seq<Turn<T>>)
    requires CanRun(s, run) && run != []
    ensures var s', rest := Next(s, run[0].tid, run[0].action), run[1..];
            && CanStep(s.core, run[0].tid, run[0].action) && CanRun(s', rest) && Run(s, run) == Run(s', rest)
            && EnqueueTickets(s, run) == EnqueueTicketNow(s, run[0]) + EnqueueTickets(s', rest)
  {
  }

  lemma NoTickets<T>(s: State<T>, from: nat)
    ensures CanRun(s, []) && Run(s, []) == s && EnqueueTickets(s, []) == [] == DequeueTickets(s, [])
    ensures Count(from, 0) == []
  {
  }

  /** Enqueuers win tickets 0, 1, 2, ... in that order, each once, whatever the
      interleaving. */
  lemma {:induction false} EnqueueTicketsAreConsecutive<T>(s: State<T>, run: seq<Turn<T>>)
    requires Inv(s) && CanRun(s, run)
    ensures var from, to := s.core.mem.enqueuePos, Run(s, run).core.mem.enqueuePos;
            from <= to && EnqueueTickets(s, run) == Count(from, to - from)
    decreases |run|
  {
    hide *;
    if run == [] {
      NoTickets(s, s.core.mem.enqueuePos);
    } else {
      EnqueueTicketsUnfold(s, run);
      var s', rest := Next(s, run[0].tid, run[0].action), run[1..];
      StepPreservesInv(s, run[0].tid, run[0].action);
      EnqueueStep(s, run[0]);
      EnqueueTicketsAreConsecutive(s', rest);
      CountFrom(EnqueueTicketNow(s, run[0]), s.core.mem.enqueuePos, s'.core.mem.enqueuePos,
                Run(s', rest).core.mem.enqueuePos);
    }
  }

  lemma DequeueStep<T>(s: State<T>, turn: Turn<T>)
    requires Inv(s) && CanStep(s.core, turn.tid, turn.action)
    ensures var from, to := s.core.mem.dequeuePos, Next(s, turn.tid, turn.action).core.mem.dequeuePos;
            var won := DequeueTicketNow(s, turn);
            (won == [] && to == from) || (won == [from] && to == from + 1)
  {
  }

  lemma DequeueTicketsUnfold<T>(s: State<T>, run: seq<Turn<T>>)
    requires CanRun(s, run) && run != []
    ensures var s', rest := Next(s, run[0].tid, run[0].action), run[1..];
            && CanStep(s.core, run[0].tid, run[0].action) && CanRun(s', rest) && Run(s, run) == Run(s', rest)
            && DequeueTickets(s, run) == DequeueTicketNow(s, run[0]) + DequeueTickets(s', rest)
  {
  }

  /** Dequeuers win tickets 0, 1, 2, ... in that order, each once, whatever the
      interleaving. */
  lemma {:induction false} DequeueTicketsAreConsecutive<T>(s: State<T>, run: seq<Turn<T>>)
    requires Inv(s) && CanRun(s, run)
    ensures var from, to := s.core.mem.dequeuePos, Run(s, run).core.mem.dequeuePos;
            from <= to && DequeueTickets(s, run) == Count(from, to - from)
    decreases |run|
  {
    hide *;
    if run == [] {
      NoTickets(s, s.core.mem.dequeuePos);
    } else {
      DequeueTicketsUnfold(s, run);
      var s', rest := Next(s, run[0].tid, run[0].action), run[1..];
      StepPreservesInv(s, run[0].tid, run[0].action);
      DequeueStep(s, run[0]);
      DequeueTicketsAreConsecutive(s', rest);
      CountFrom(DequeueTicketNow(s, run[0]), s.core.mem.dequeuePos, s'.core.mem.dequeuePos,
                Run(s', rest).core.mem.dequeuePos);
    }
  }

  // ---- Real-time order of successful operations ----

  predicate HasEnqueueTicket<T>(l: Local<T>) { l.EnqClaimed? || l.EnqMoved? || l.EnqDone? }

  predicate HasDequeueTicket<T>(l: Local<T>) { l.DeqClaimed? || l.DeqMoved? || l.DeqDone? }

  /** Thread b's tickets, if it has one, are not below the given counts. */
  ghost predicate TicketsFrom<T>(s: State<T>, b: Tid, enq: nat, deq: nat)
  {
    && enq <= s.core.mem.enqueuePos && deq <= s.core.mem.dequeuePos && b in s.core.threads
    && (HasEnqueueTicket(s.core.threads[b]) ==> s.core.threads[b].pos >= enq)
    && (HasDequeueTicket(s.core.threads[b]) ==> s.core.threads[b].pos >= deq)
  }

  lemma TicketsFromStep<T>(s: State<T>, b: Tid, enq: nat, deq: nat, turn: Turn<T>)
    requires CanStep(s.core, turn.tid, turn.action) && TicketsFrom(s, b, enq, deq)
    requires var mem, mem' := s.core.mem, Next(s, turn.tid, turn.action).core.mem;
             mem.enqueuePos <= mem'.enqueuePos && mem.dequeuePos <= mem'.dequeuePos
    ensures TicketsFrom(Next(s, turn.tid, turn.action), b, enq, deq)
  {
  }

  lemma {:induction false} TicketsFromRun<T>(s: State<T>, b: Tid, enq: nat, deq: nat, run: seq<Turn<T>>)
    requires Inv(s) && CanRun(s, run) && TicketsFrom(s, b, enq, deq)
    ensures TicketsFrom(Run(s, run), b, enq, deq)
    decreases |run|
  {
    if run != [] {
      hide Inv, CanStep, Next, TicketsFrom, EnqueueTicketNow, DequeueTicketNow;
      StepPreservesInv(s, run[0].tid, run[0].action);
      EnqueueStep(s, run[0]);
      DequeueStep(s, run[0]);
      TicketsFromStep(s, b, enq, deq, run[0]);
      TicketsFromRun(Next(s, run[0].tid, run[0].action), b, enq, deq, run[1..]);
    }
  }

  /** b begins with no ticket, and with both counters past what was claimed. */
  lemma BeginsWithoutTicket<T>(s: State<T>, b: Tid, a: Action<T>)
    requires CanStep(s.core, b, a) && (a.BeginEnqueue? || a.BeginDequeue?)
    ensures TicketsFrom(Next(s, b, a), b, s.core.mem.enqueuePos, s.core.mem.dequeuePos)
  {
  }

  lemma ReturnedBelowCounter<T>(s: State<T>, a: Tid)
    requires Inv(s) && a in s.core.threads
    ensures HasEnqueueTicket(s.core.threads[a]) ==> s.core.threads[a].pos < s.core.mem.enqueuePos
    ensures HasDequeueTicket(s.core.threads[a]) ==> s.core.threads[a].pos < s.core.mem.dequeuePos
  {
    assert ThreadOk(s, a);
  }

  /** Three stretches of a run: to a state, on to the moment thread b begins an
      operation, and from there on. */
  predicate Stretches<T>(s0: State<T>, first: seq<Turn<T>>, second: seq<Turn<T>>, b: Tid, a: Action<T>,
                         third: seq<Turn<T>>)
  {
    && CanRun(s0, first) && CanRun(Run(s0, first), second)
    && var s := Run(Run(s0, first), second);
    && CanStep(s.core, b, a) && CanRun(Next(s, b, a), third)
  }

  lemma TicketsGrow<T>(s: State<T>, second: seq<Turn<T>>, b: Tid, a: Action<T>, third: seq<Turn<T>>)
    requires Inv(s) && Stretches(s, [], second, b, a, third) && (a.BeginEnqueue? || a.BeginDequeue?)
    ensures TicketsFrom(Run(Next(Run(s, second), b, a), third), b, s.core.mem.enqueuePos, s.core.mem.dequeuePos)
  {
    var s1 := Run(s, second);
    RunKeepsInv(s, second);
    StepPreservesInv(s1, b, a);
    BeginsWithoutTicket(s1, b, a);
    EnqueueTicketsAreConsecutive(s, second);
    DequeueTicketsAreConsecutive(s, second);
    hide Inv, CanStep, Next, Run, CanRun, EnqueueTickets, DequeueTickets, Count;
    TicketsFromRun(Next(s1, b, a), b, s1.core.mem.enqueuePos, s1.core.mem.dequeuePos, third);
  }

  /** Once thread a's enqueue has returned with ticket t, every enqueue that
      begins later, in whatever thread b, wins a ticket above t. */
  lemma EnqueuesKeepRealTimeOrder<T>(s0: State<T>, first: seq<Turn<T>>, a: Tid, second: seq<Turn<T>>,
                                     b: Tid, m: T, third: seq<Turn<T>>)
    requires Init(s0) && Stretches(s0, first, second, b, BeginEnqueue(m), third)
    requires a in Run(s0, first).core.threads && Run(s0, first).core.threads[a].EnqDone?
    ensures var t := Run(s0, first).core.threads[a].pos;
            var s := Run(Next(Run(Run(s0, first), second), b, BeginEnqueue(m)), third);
            b in s.core.threads && (HasEnqueueTicket(s.core.threads[b]) ==> s.core.threads[b].pos > t)
  {
    var s := Run(s0, first);
    InitEstablishesInv(s0);
    RunKeepsInv(s0, first);
    ReturnedBelowCounter(s, a);
    hide Inv, CanStep, Next, Init;
    TicketsGrow(s, second, b, BeginEnqueue(m), third);
  }

  /** The same for dequeues. */
  lemma DequeuesKeepRealTimeOrder<T>(s0: State<T>, first: seq<Turn<T>>, a: Tid, second: seq<Turn<T>>,
                                     b: Tid, third: seq<Turn<T>>)
    requires Init(s0) && Stretches(s0, first, second, b, BeginDequeue, third)
    requires a in Run(s0, first).core.threads && Run(s0, first).core.threads[a].DeqDone?
    ensures var t := Run(s0, first).core.threads[a].pos;
            var s := Run(Next(Run(Run(s0, first), second), b, BeginDequeue), third);
            b in s.core.threads && (HasDequeueTicket(s.core.threads[b]) ==> s.core.threads[b].pos > t)
  {
    var s := Run(s0, first);
    InitEstablishesInv(s0);
    RunKeepsInv(s0, first);
    ReturnedBelowCounter(s, a);
    hide Inv, CanStep, Next, Init;
    TicketsGrow(s, second, b, BeginDequeue, third);
  }

  predicate DistinctTickets<T>(log: seq<(nat, T)>)
  {
    forall i, j :: 0 <= i < j < |log| ==> log[i].0 != log[j].0
  }

  ghost predicate Lists<T>(log: seq<(nat, T)>, before: map<nat, T>, after: map<nat, T>)
  {
    && (forall t :: t in before ==> t in after && after[t] == before[t])
    && (forall i :: 0 <= i < |log| ==> log[i].0 in after && log[i].0 !in before && after[log[i].0] == log[i].1)
    && (forall t :: t in after && t !in before ==> (t, after[t]) in log)
  }

  lemma ListsCons<T>(x: (nat, T), log: seq<(nat, T)>, before: map<nat, T>, mid: map<nat, T>, after: map<nat, T>)
    requires Lists(log, mid, after) && x.0 !in before && mid == before[x.0 := x.1]
    ensures Lists([x] + log, before, after)
  {
    var all := [x] + log;
    forall t | t in after && t !in before ensures (t, after[t]) in all {
      if t == x.0 { assert all[0] == (t, after[t]); } else { assert (t, after[t]) in log; }
    }
    forall i | 0 <= i < |all| ensures all[i].0 in after && all[i].0 !in before && after[all[i].0] == all[i].1 {
      if i > 0 { assert all[i] == log[i - 1]; }
    }
  }

  lemma DistinctCons<T>(x: (nat, T), log: seq<(nat, T)>, mid: map<nat, T>, after: map<nat, T>)
    requires Lists(log, mid, after) && DistinctTickets(log) && x.0 in mid
    ensures DistinctTickets([x] + log)
  {
    var all := [x] + log;
    forall i, j | 0 <= i < j < |all| ensures all[i].0 != all[j].0 {
      assert all[j] == log[j - 1];
      if i > 0 { assert all[i] == log[i - 1]; }
    }
  }

  lemma ListsPrepend<T>(e: seq<(nat, T)>, log: seq<(nat, T)>, before: map<nat, T>, mid: map<nat, T>, after: map<nat, T>)
    requires Lists(log, mid, after) && DistinctTickets(log)
    requires (e == [] && mid == before) || (|e| == 1 && e[0].0 !in before && mid == before[e[0].0 := e[0].1])
    ensures Lists(e + log, before, after) && DistinctTickets(e + log)
  {
    hide Lists, DistinctTickets;
    if e == [] {
      assert e + log == log;
    } else {
      assert e == [e[0]];
      ListsCons(e[0], log, before, mid, after);
      DistinctCons(e[0], log, mid, after);
    }
  }

  lemma StepLogs<T>(s: State<T>, turn: Turn<T>)
    requires Inv(s) && CanStep(s.core, turn.tid, turn.action)
    ensures var h, h' := s.hist, Next(s, turn.tid, turn.action).hist;
            && var e := StoredNow(s, turn);
            && ((e == [] && h'.sent == h.sent)
                || (|e| == 1 && e[0].0 !in h.sent && h'.sent == h.sent[e[0].0 := e[0].1]))
            && var e := TakenNow(s, turn);
            && ((e == [] && h'.received == h.received)
                || (|e| == 1 && e[0].0 !in h.received && h'.received == h.received[e[0].0 := e[0].1]))
  {
    assert ThreadOk(s, turn.tid);
  }

  lemma {:induction false} LogsMatchHistory<T>(s: State<T>, run: seq<Turn<T>>)
    requires Inv(s) && CanRun(s, run)
    ensures Lists(Stored(s, run), s.hist.sent, Run(s, run).hist.sent) && DistinctTickets(Stored(s, run))
    ensures Lists(Taken(s, run), s.hist.received, Run(s, run).hist.received) && DistinctTickets(Taken(s, run))
    decreases |run|
  {
    if run != [] {
      var s', rest := Next(s, run[0].tid, run[0].action), run[1..];
      StepPreservesInv(s, run[0].tid, run[0].action);
      LogsMatchHistory(s', rest);
      StepLogs(s, run[0]);
      ListsPrepend(StoredNow(s, run[0]), Stored(s', rest), s.hist.sent, s'.hist.sent, Run(s', rest).hist.sent);
      ListsPrepend(TakenNow(s, run[0]), Taken(s', rest), s.hist.received, s'.hist.received,
                   Run(s', rest).hist.received);
    }
  }

  /** Where the value of claimed ticket t is at the end of a run: still with its
      enqueuer, taken, or in the ticket's cell. */
  ghost predicate Accounted<T>(s0: State<T>, run: seq<Turn<T>>, t: nat)
    requires CanRun(s0, run)
  {
    var s := Run(s0, run);
    var n := |s.core.mem.cells|;
    || (exists tid :: tid in s.core.threads && s.core.threads[tid].EnqClaimed? && s.core.threads[tid].pos == t)
    || (exists i :: 0 <= i < |Taken(s0, run)| && Taken(s0, run)[i].0 == t)
    || (n > 0 && (t, s.core.mem.cells[Slot(t, n)].data) in Stored(s0, run))
  }

  /** Over every run: no ticket is stored twice or taken twice; whatever is taken
      for a ticket is what was stored for it; and every claimed ticket's value is
      accounted for. Nothing is lost, duplicated or moved to another ticket. */
  lemma ExactlyOnceTransfer<T>(s0: State<T>, run: seq<Turn<T>>)
    requires Init(s0) && CanRun(s0, run)
    ensures DistinctTickets(Stored(s0, run)) && DistinctTickets(Taken(s0, run))
    ensures forall e :: e in Taken(s0, run) ==> e in Stored(s0, run)
    ensures forall t :: 0 <= t < Run(s0, run).core.mem.enqueuePos ==> Accounted(s0, run, t)
  {
    InitEstablishesInv(s0);
    RunKeepsInv(s0, run);
    LogsMatchHistory(s0, run);
    var s := Run(s0, run);
    forall e | e in Taken(s0, run) ensures e in Stored(s0, run) {
      var (t, v) := e;
      assert t in s.hist.sent && s.hist.sent[t] == v;
    }
    forall t | 0 <= t < s.core.mem.enqueuePos ensures Accounted(s0, run, t) {
      if t !in s.hist.sent {
        assert s.hist.enqueuers[t] in s.core.threads;
      } else if t in s.hist.received {
        assert (t, s.hist.received[t]) in Taken(s0, run);
      } else {
        WaitingTicketIsInItsCell(s, t);
        assert (t, s.core.mem.cells[Slot(t, |s.core.mem.cells|)].data) in Stored(s0, run);
      }
    }
  }

  /** What the cell at t's slot is doing: it is free for, or full of, a ticket u
      that is t itself or at least one whole ring away from it. */
  lemma CellAt<T>(s: State<T>, t: nat) returns (u: nat, full: bool)
    requires Inv(s)
    ensures var n := |s.core.mem.cells|;
            && s.core.mem.cells[Slot(t, n)].sequence == (if full then u + 1 else u)
            && (u == t || u + n <= t || t + n <= u)
            && (if full then FullCellOk(s, u) else FreeCellOk(s, u))
  {
    var n := |s.core.mem.cells|;
    var i := Slot(t, n);
    u := s.core.mem.cells[i].sequence;
    assert CellOk(s, i);
    full := !(Slot(u, n) == i && FreeCellOk(s, u));
    if full { u := u - 1; }
    SlotUnique(u, t, n);
  }

  /** A stored, untaken ticket's value sits in the ticket's own cell. */
  lemma WaitingTicketIsInItsCell<T>(s: State<T>, t: nat)
    requires Inv(s) && t in s.hist.sent && t !in s.hist.received
    ensures s.core.mem.cells[Slot(t, |s.core.mem.cells|)].data == s.hist.sent[t]
  {
    if t < s.core.mem.dequeuePos {
      var d := s.hist.dequeuers[t];
      assert ThreadOf(s, d).DeqClaimed? && d in s.core.threads;
      assert ThreadOk(s, d);
      FullCell(s, t);
    } else {
      var u, full := CellAt(s, t);
      assert u == t;
      if !full {
        assert ThreadOk(s, s.hist.enqueuers[t]);
      }
    }
  }

  /** Nobody is between the compare-and-swap of an enqueue and its end. */
  ghost predicate NobodyStores<T>(s: State<T>)
  {
    forall tid :: tid in s.core.threads ==> !s.core.threads[tid].EnqClaimed? && !s.core.threads[tid].EnqMoved?
  }

  /** Then the next message is published. */
  lemma PublishedCell<T>(s: State<T>, t: nat)
    requires Inv(s) && NobodyStores(s) && s.core.mem.dequeuePos == t < s.core.mem.enqueuePos
    ensures t in s.hist.sent && s.core.mem.cells[Slot(t, |s.core.mem.cells|)] == Cell(t + 1, s.hist.sent[t])
  {
    assert t !in s.hist.received;
    WaitingTicketIsInItsCell(s, t);
    var u, full := CellAt(s, t);
  }

  // ---- When an operation gives up ----

  /** There is no cell to hand out: the ring is full, or the oldest cell is still
      being emptied. */
  ghost predicate NoCell<T>(s: State<T>)
    requires CountersOk(s)
  {
    var mem, n := s.core.mem, |s.core.mem.cells|;
    mem.enqueuePos == mem.dequeuePos + n || (mem.enqueuePos >= n && BeingEmptied(s, mem.enqueuePos - n))
  }

  /** There is no message to hand out: no ticket waits, or the enqueuer of the
      next one has not published it. */
  ghost predicate NoMessage<T>(s: State<T>)
    requires CountersOk(s)
  {
    s.core.mem.dequeuePos == s.core.mem.enqueuePos || BeingFilled(s, s.core.mem.dequeuePos)
  }

  /** An enqueuer that loads a sequence number below its position has a current
      position and no cell, and the other way round. */
  lemma LoadsBelowIff<T>(s: State<T>, tid: Tid)
    requires Inv(s) && tid in s.core.threads && s.core.threads[tid].EnqHavePos?
    ensures CanStep(s.core, tid, LoadSequence)
    ensures var l, l' := s.core.threads[tid], Next(s, tid, LoadSequence).core.threads[tid];
            && l'.EnqHaveSeq? && l'.pos == l.pos && l'.msg == l.msg
            && (l'.sq < l'.pos <==> l.pos == s.core.mem.enqueuePos && NoCell(s))
  {
    var n, pos := |s.core.mem.cells|, s.core.threads[tid].pos;
    assert ThreadOk(s, tid);
    var u, full := CellAt(s, pos);
    if !full && u < pos {
      assert pos == s.core.mem.enqueuePos == s.core.mem.dequeuePos + n;
    }
    if pos == s.core.mem.enqueuePos >= n && pos < s.core.mem.dequeuePos + n && BeingEmptied(s, pos - n) {
      EmptyingCellIsFull(s, pos - n);
    }
  }

  lemma EmptyingCellIsFull<T>(s: State<T>, t: nat)
    requires Inv(s) && t < s.core.mem.dequeuePos && BeingEmptied(s, t)
    ensures var n := |s.core.mem.cells|;
            Full(s.core.mem, t) && Slot(t + n, n) == Slot(t, n)
  {
    assert ThreadOk(s, s.hist.dequeuers[t]);
  }

  lemma FillingCellIsFree<T>(s: State<T>, t: nat)
    requires Inv(s) && t < s.core.mem.enqueuePos && BeingFilled(s, t)
    ensures Free(s.core.mem, t)
  {
    assert ThreadOk(s, s.hist.enqueuers[t]);
  }

  /** A dequeuer that loads a sequence number not above its position has a
      current position and no message, and the other way round. */
  lemma LoadsNotAboveIff<T>(s: State<T>, tid: Tid)
    requires Inv(s) && tid in s.core.threads && s.core.threads[tid].DeqHavePos?
    ensures CanStep(s.core, tid, LoadSequence)
    ensures var l, l' := s.core.threads[tid], Next(s, tid, LoadSequence).core.threads[tid];
            && l'.DeqHaveSeq? && l'.pos == l.pos
            && (l'.sq <= l'.pos <==> l.pos == s.core.mem.dequeuePos && NoMessage(s))
  {
    var pos := s.core.threads[tid].pos;
    assert ThreadOk(s, tid);
    var u, full := CellAt(s, pos);
    if pos == s.core.mem.dequeuePos < s.core.mem.enqueuePos && BeingFilled(s, pos) {
      FillingCellIsFree(s, pos);
    }
  }

  /** What the comparison leads to. A lost compare-and-swap means a spurious
      failure or that another enqueuer has won a ticket in the meantime, and only
      makes the enqueuer start again. */
  lemma EnqueueCompares<T>(s: State<T>, tid: Tid, spurious: bool)
    requires Inv(s) && tid in s.core.threads && s.core.threads[tid].EnqHaveSeq?
    ensures CanStep(s.core, tid, Compare(spurious))
    ensures var l, l' := s.core.threads[tid], Next(s, tid, Compare(spurious)).core.threads[tid];
            var enq := s.core.mem.enqueuePos;
            && (l'.EnqRefused? <==> l.sq < l.pos) && (l'.EnqRefused? ==> l'.msg == l.msg)
            && (l'.EnqClaimed? <==> l.sq == l.pos == enq && !spurious)
            && (l'.EnqClaimed? ==> l' == EnqClaimed(l.pos, l.msg))
            && (!l'.EnqRefused? && !l'.EnqClaimed? ==>
                  l' == EnqHavePos(enq, l.msg) && (spurious || l.pos < enq || l.sq > l.pos))
  {
    assert ThreadOk(s, tid);
  }

  lemma DequeueCompares<T>(s: State<T>, tid: Tid, spurious: bool)
    requires Inv(s) && tid in s.core.threads && s.core.threads[tid].DeqHaveSeq?
    ensures CanStep(s.core, tid, Compare(spurious))
    ensures var l, l' := s.core.threads[tid], Next(s, tid, Compare(spurious)).core.threads[tid];
            var deq := s.core.mem.dequeuePos;
            && (l'.DeqEmpty? <==> l.sq <= l.pos)
            && (l'.DeqClaimed? <==> l.sq == l.pos + 1 && l.pos == deq && !spurious)
            && (l'.DeqClaimed? ==> l' == DeqClaimed(l.pos))
            && (!l'.DeqEmpty? && !l'.DeqClaimed? ==>
                  l' == DeqHavePos(deq) && (spurious || l.pos < deq || l.sq > l.pos + 1))
  {
    assert ThreadOk(s, tid);
  }

  /** Steps of threads other than tid. */
  predicate OfOthers<T>(run: seq<Turn<T>>, tid: Tid)
  {
    forall i :: 0 <= i < |run| ==> run[i].tid != tid
  }

  lemma {:induction false} OthersLeave<T>(s: State<T>, run: seq<Turn<T>>, tid: Tid)
    requires tid in s.core.threads && CanRun(s, run) && OfOthers(run, tid)
    ensures tid in Run(s, run).core.threads && Run(s, run).core.threads[tid] == s.core.threads[tid]
    decreases |run|
  {
    if run != [] {
      assert run[0].tid != tid && forall i :: 0 <= i < |run[1..]| ==> run[1..][i] == run[i + 1];
      OthersLeave(Next(s, run[0].tid, run[0].action), run[1..], tid);
    }
  }

  /** One round of an operation: tid loads the sequence number in s, the others
      do what they like, and tid compares. */
  predicate Round<T>(s: State<T>, tid: Tid, others: seq<Turn<T>>)
  {
    CanStep(s.core, tid, LoadSequence) && OfOthers(others, tid) && CanRun(Next(s, tid, LoadSequence), others)
  }

  function AtCompare<T>(s: State<T>, tid: Tid, others: seq<Turn<T>>): State<T>
    requires Round(s, tid, others)
  {
    Run(Next(s, tid, LoadSequence), others)
  }

  lemma RoundKept<T>(s: State<T>, tid: Tid, others: seq<Turn<T>>)
    requires Inv(s) && Round(s, tid, others)
    ensures var s1, s2 := Next(s, tid, LoadSequence), AtCompare(s, tid, others);
            && Inv(s2) && tid in s1.core.threads && tid in s2.core.threads
            && s2.core.threads[tid] == s1.core.threads[tid]
  {
    StepPreservesInv(s, tid, LoadSequence);
    RunKeepsInv(Next(s, tid, LoadSequence), others);
    OthersLeave(Next(s, tid, LoadSequence), others, tid);
  }

  /** enqueue returns false exactly when, at its last load, its position was
      current and there was no cell to hand out. Whatever happens between the
      load and the comparison makes no difference to that. */
  lemma EnqueueRefusedIff<T>(s: State<T>, tid: Tid, others: seq<Turn<T>>, spurious: bool)
    requires Inv(s) && tid in s.core.threads && s.core.threads[tid].EnqHavePos? && Round(s, tid, others)
    ensures var s2 := AtCompare(s, tid, others);
            && CanStep(s2.core, tid, Compare(spurious))
            && (Next(s2, tid, Compare(spurious)).core.threads[tid].EnqRefused?
                <==> s.core.threads[tid].pos == s.core.mem.enqueuePos && NoCell(s))
  {
    hide Round, NoCell;
    LoadsBelowIff(s, tid);
    RoundKept(s, tid, others);
    hide *;
    EnqueueCompares(AtCompare(s, tid, others), tid, spurious);
  }

  /** dequeue returns false exactly when, at its last load, its position was
      current and there was no message to hand out. */
  lemma DequeueEmptyIff<T>(s: State<T>, tid: Tid, others: seq<Turn<T>>, spurious: bool)
    requires Inv(s) && tid in s.core.threads && s.core.threads[tid].DeqHavePos? && Round(s, tid, others)
    ensures var s2 := AtCompare(s, tid, others);
            && CanStep(s2.core, tid, Compare(spurious))
            && (Next(s2, tid, Compare(spurious)).core.threads[tid].DeqEmpty?
                <==> s.core.threads[tid].pos == s.core.mem.dequeuePos && NoMessage(s))
  {
    hide Round, NoMessage;
    LoadsNotAboveIff(s, tid);
    RoundKept(s, tid, others);
    hide *;
    DequeueCompares(AtCompare(s, tid, others), tid, spurious);
  }

  /** A zero from approx_size means that the queue had no outstanding ticket at
      the second load, nor at any moment since the first. */
  lemma ApproxSizeZeroIff<T>(s: State<T>, tid: Tid)
    requires Inv(s) && tid in s.core.threads && s.core.threads[tid].SizeHaveFirst?
    ensures var l, l' := s.core.threads[tid], Next(s, tid, LoadLast).core.threads[tid];
            && l'.SizeDone? && l'.size <= |s.core.mem.cells|
            && (l'.size == 0 <==> l.first == s.core.mem.dequeuePos == s.core.mem.enqueuePos)
  {
    assert ThreadOk(s, tid);
  }

  /** Up to the capacity, it is the number of outstanding tickets at the second
      load and of those dequeued since the first; without such a dequeue it is
      exact. */
  lemma ApproxSizeBounds<T>(s: State<T>, tid: Tid)
    requires Inv(s) && tid in s.core.threads && s.core.threads[tid].SizeHaveFirst?
    ensures var size := Next(s, tid, LoadLast).core.threads[tid].size;
            var first, enq, deq := s.core.threads[tid].first, s.core.mem.enqueuePos, s.core.mem.dequeuePos;
            && enq - deq <= size <= |s.core.mem.cells| && size <= enq - first
            && (size == |s.core.mem.cells| || size == enq - first)
            && (first == deq ==> size == enq - deq)
  {
    assert ThreadOk(s, tid);
  }

  // ---- With no operation in flight the ring is a bounded queue ----

  /** Cells, counters and contents of a ring nobody is working on. */
  ghost predicate HoldsQueue<T>(mem: Memory<T>, contents: seq<T>)
  {
    var n := |mem.cells|;
    && n >= 2 && |contents| <= n
    && mem.enqueuePos == mem.dequeuePos + |contents|
    && (forall t :: mem.dequeuePos <= t < mem.enqueuePos ==>
          mem.cells[Slot(t, n)] == Cell(t + 1, contents[t - mem.dequeuePos]))
    && (forall t :: mem.enqueuePos <= t < mem.dequeuePos + n ==>
          mem.cells[Slot(t, n)].sequence == t)
  }

  /** When every thread is outside the queue, the ring holds exactly the values
      stored for the outstanding tickets, oldest first, and everything older has
      been taken. */
  lemma QuiescentRingIsQueue<T>(s: State<T>)
    requires Inv(s) && forall tid :: tid in s.core.threads ==> s.core.threads[tid].AtRest()
    ensures forall t :: 0 <= t < s.core.mem.dequeuePos ==> t in s.hist.received
    ensures forall t :: 0 <= t < s.core.mem.enqueuePos ==> t in s.hist.sent
    ensures var mem := s.core.mem;
            var outstanding := seq(mem.enqueuePos - mem.dequeuePos,
              k requires 0 <= k < mem.enqueuePos - mem.dequeuePos && mem.dequeuePos + k in s.hist.sent =>
                s.hist.sent[mem.dequeuePos + k]);
            HoldsQueue(mem, outstanding)
  {
    var mem, n := s.core.mem, |s.core.mem.cells|;
    var d := mem.dequeuePos;
    forall t | d <= t < d + n
      ensures mem.cells[Slot(t, n)].sequence == if t < mem.enqueuePos then t + 1 else t
      ensures t < mem.enqueuePos ==> mem.cells[Slot(t, n)].data == s.hist.sent[t]
    {
      RestingCell(s, t);
    }
  }

  lemma RestingCell<T>(s: State<T>, t: nat)
    requires Inv(s) && forall tid :: tid in s.core.threads ==> s.core.threads[tid].AtRest()
    requires s.core.mem.dequeuePos <= t < s.core.mem.dequeuePos + |s.core.mem.cells|
    ensures var mem := s.core.mem;
            var cell := mem.cells[Slot(t, |mem.cells|)];
            && cell.sequence == (if t < mem.enqueuePos then t + 1 else t)
            && (t < mem.enqueuePos ==> t in s.hist.sent && cell.data == s.hist.sent[t])
  {
    var u, full := CellAt(s, t);
  }

  // ---- A failing dequeue is not a full account of the queue ----

  lemma {:induction false} RunExtend<T>(s0: State<T>, run: seq<Turn<T>>, t: Turn<T>)
    requires CanRun(s0, run) && CanStep(Run(s0, run).core, t.tid, t.action)
    ensures CanRun(s0, run + [t]) && Run(s0, run + [t]) == Next(Run(s0, run), t.tid, t.action)
    decreases |run|
  {
    if run == [] {
      assert run + [t] == [t] && [t][1..] == [];
    } else {
      RunExtend(Next(s0, run[0].tid, run[0].action), run[1..], t);
      assert (run + [t])[1..] == run[1..] + [t];
    }
  }

  function TwoCells(): State<int>
  {
    State(Core(Memory([Cell(0, 0), Cell(1, 0)], 0, 0), map[0 := Idle, 1 := Idle, 2 := Idle]),
          History([], [], map[], map[]))
  }

  /** Thread 0 wins ticket 0 and stalls; thread 1 completes ticket 1. */
  lemma StalledPrefix() returns (run: seq<Turn<int>>)
    ensures CanRun(TwoCells(), run)
    ensures Run(TwoCells(), run) ==
      State(Core(Memory([Cell(0, 0), Cell(2, 20)], 2, 0), map[0 := EnqClaimed(0, 10), 1 := EnqDone(1), 2 := Idle]),
            History([0, 1], [], map[1 := 20], map[]))
  {
    run := [];
    RunExtend(TwoCells(), run, Turn(0, BeginEnqueue(10))); run := run + [Turn(0, BeginEnqueue(10))];
    RunExtend(TwoCells(), run, Turn(0, LoadSequence)); run := run + [Turn(0, LoadSequence)];
    RunExtend(TwoCells(), run, Turn(0, Compare(false))); run := run + [Turn(0, Compare(false))];
    RunExtend(TwoCells(), run, Turn(1, BeginEnqueue(20))); run := run + [Turn(1, BeginEnqueue(20))];
    RunExtend(TwoCells(), run, Turn(1, LoadSequence)); run := run + [Turn(1, LoadSequence)];
    RunExtend(TwoCells(), run, Turn(1, Compare(false))); run := run + [Turn(1, Compare(false))];
    RunExtend(TwoCells(), run, Turn(1, Move(0))); run := run + [Turn(1, Move(0))];
    RunExtend(TwoCells(), run, Turn(1, Publish)); run := run + [Turn(1, Publish)];
  }

  /** Although ticket 1 is published, a dequeue then reports an empty queue: a
      failing dequeue does not linearise against completed enqueues. */
  lemma StalledEnqueuerHidesLaterTicket() returns (run: seq<Turn<int>>)
    ensures Init(TwoCells()) && CanRun(TwoCells(), run)
    ensures var s := Run(TwoCells(), run);
            && s.core.threads == map[0 := EnqClaimed(0, 10), 1 := EnqDone(1), 2 := DeqEmpty]
            && s.hist.sent == map[1 := 20] && s.hist.received == map[]
  {
    AndPow2IsZero(1);
    run := StalledPrefix();
    RunExtend(TwoCells(), run, Turn(2, BeginDequeue)); run := run + [Turn(2, BeginDequeue)];
    RunExtend(TwoCells(), run, Turn(2, LoadSequence)); run := run + [Turn(2, LoadSequence)];
    RunExtend(TwoCells(), run, Turn(2, Compare(false))); run := run + [Turn(2, Compare(false))];
  }
}
