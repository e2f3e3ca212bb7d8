// Every counter value of the bounded queue is reached from the start, and with
// it the state in which approx_size misses a message.
module MpmcWrap {
  import opened RingArithmetic
  import opened MpmcQueue
  import opened MpmcTheorems
  import opened MpmcWord

  /** What the next step of thread tid depends on: both counters, the cell of
      position pos and the thread itself. */
  ghost predicate View<T>(s: State<T>, tid: Tid, pos: nat, enq: nat, deq: nat, sq: nat, l: Local<T>)
  {
    var mem := s.core.mem;
    && |mem.cells| >= 2 && mem.enqueuePos == enq && mem.dequeuePos == deq
    && mem.cells[Slot(pos, |mem.cells|)].sequence == sq
    && tid in s.core.threads && s.core.threads[tid] == l
  }

  /** From s0 the run leads to s, and the queue on words follows it. */
  ghost predicate Reaches<T>(s0: State<T>, run: seq<Turn<T>>, s: State<T>)
  {
    CanRun(s0, run) && Run(s0, run) == s && RunStaysClose(s0, run)
  }

  /** Nobody but the given threads differs from before. */
  ghost predicate SameOthers<T>(s: State<T>, s': State<T>, tid: Tid)
  {
    && s'.core.threads.Keys == s.core.threads.Keys && |s'.core.mem.cells| == |s.core.mem.cells|
    && forall t :: t in s.core.threads && t != tid ==> s'.core.threads[t] == s.core.threads[t]
  }

  lemma {:induction false} CloseExtend<T>(s0: State<T>, run: seq<Turn<T>>, turn: Turn<T>)
    requires CanRun(s0, run) && RunStaysClose(s0, run) && CanStep(Run(s0, run).core, turn.tid, turn.action)
    requires Close(Run(s0, run).core.mem, Run(s0, run).core.threads[turn.tid])
    ensures CanRun(s0, run + [turn]) && RunStaysClose(s0, run + [turn])
    decreases |run|
  {
    RunExtend(s0, run, turn);
    if run == [] {
      assert run + [turn] == [turn] && [turn][1..] == [];
    } else {
      CloseExtend(Next(s0, run[0].tid, run[0].action), run[1..], turn);
      assert (run + [turn])[1..] == run[1..] + [turn];
    }
  }

  lemma Go<T>(s0: State<T>, run: seq<Turn<T>>, s: State<T>, tid: Tid, a: Action<T>)
    returns (run': seq<Turn<T>>, s': State<T>)
    requires Reaches(s0, run, s) && CanStep(s.core, tid, a) && Close(s.core.mem, s.core.threads[tid])
    ensures s' == Next(s, tid, a) && Reaches(s0, run', s') && SameOthers(s, s', tid)
  {
    CloseExtend(s0, run, Turn(tid, a));
    RunExtend(s0, run, Turn(tid, a));
    run', s' := run + [Turn(tid, a)], Next(s, tid, a);
  }

  /** A thread alone claims the cell that is free for the next ticket. */
  lemma ClaimAlone<T>(s0: State<T>, run: seq<Turn<T>>, s: State<T>, tid: Tid, m: T, n: nat, deq: nat, l: Local<T>)
    returns (run': seq<Turn<T>>, s': State<T>)
    requires Reaches(s0, run, s) && View(s, tid, n, n, deq, n, l) && l.AtRest() && |s.core.mem.cells| < WORD / 2
    ensures Reaches(s0, run', s') && SameOthers(s, s', tid)
    ensures View(s', tid, n, n + 1, deq, n, EnqClaimed(n, m))
    ensures s'.hist.sent == s.hist.sent && s'.hist.received == s.hist.received
  {
    hide Reaches, Slot;
    run', s' := Go(s0, run, s, tid, BeginEnqueue(m));
    run', s' := Go(s0, run', s', tid, LoadSequence);
    run', s' := Go(s0, run', s', tid, Compare(false));
  }

  lemma FillAlone<T>(s0: State<T>, run: seq<Turn<T>>, s: State<T>, tid: Tid, m: T, n: nat, deq: nat)
    returns (run': seq<Turn<T>>, s': State<T>)
    requires Reaches(s0, run, s) && View(s, tid, n, n + 1, deq, n, EnqClaimed(n, m))
    ensures Reaches(s0, run', s') && SameOthers(s, s', tid)
    ensures View(s', tid, n, n + 1, deq, n + 1, EnqDone(n))
    ensures s'.hist.sent == s.hist.sent[n := m] && s'.hist.received == s.hist.received
  {
    hide Reaches, Slot;
    run', s' := Go(s0, run, s, tid, Move(m));
    run', s' := Go(s0, run', s', tid, Publish);
  }

  /** One whole enqueue by a thread alone, into a cell that is free for it. */
  lemma EnqueueAlone<T>(s0: State<T>, run: seq<Turn<T>>, s: State<T>, tid: Tid, m: T, n: nat, deq: nat, l: Local<T>)
    returns (run': seq<Turn<T>>, s': State<T>)
    requires Reaches(s0, run, s) && View(s, tid, n, n, deq, n, l) && l.AtRest() && |s.core.mem.cells| < WORD / 2
    ensures Reaches(s0, run', s') && SameOthers(s, s', tid)
    ensures View(s', tid, n, n + 1, deq, n + 1, EnqDone(n))
    ensures s'.hist.sent == s.hist.sent[n := m] && s'.hist.received == s.hist.received
  {
    hide Reaches, View;
    run', s' := ClaimAlone(s0, run, s, tid, m, n, deq, l);
    run', s' := FillAlone(s0, run', s', tid, m, n, deq);
  }

  lemma TakeAlone<T>(s0: State<T>, run: seq<Turn<T>>, s: State<T>, tid: Tid, n: nat, l: Local<T>)
    returns (run': seq<Turn<T>>, s': State<T>)
    requires Reaches(s0, run, s) && View(s, tid, n, n + 1, n, n + 1, l) && l.AtRest()
    requires |s.core.mem.cells| < WORD / 2 - 1
    ensures Reaches(s0, run', s') && SameOthers(s, s', tid)
    ensures View(s', tid, n, n + 1, n + 1, n + 1, DeqClaimed(n))
  {
    hide Reaches, Slot;
    run', s' := Go(s0, run, s, tid, BeginDequeue);
    run', s' := Go(s0, run', s', tid, LoadSequence);
    run', s' := Go(s0, run', s', tid, Compare(false));
  }

  /** One whole dequeue by a thread alone, from a cell that is full for it. */
  lemma DequeueAlone<T>(s0: State<T>, run: seq<Turn<T>>, s: State<T>, tid: Tid, m: T, n: nat, l: Local<T>)
    returns (run': seq<Turn<T>>, s': State<T>)
    requires Reaches(s0, run, s) && View(s, tid, n, n + 1, n, n + 1, l) && l.AtRest()
    requires |s.core.mem.cells| < WORD / 2 - 1
    ensures Reaches(s0, run', s') && SameOthers(s, s', tid)
    ensures View(s', tid, n, n + 1, n + 1, n + |s.core.mem.cells|, s'.core.threads[tid])
    ensures s'.core.threads[tid].AtRest()
  {
    hide Reaches, Slot;
    run', s' := TakeAlone(s0, run, s, tid, n, l);
    run', s' := Go(s0, run', s', tid, Move(m));
    run', s' := Go(s0, run', s', tid, Publish);
  }

  lemma SizeIsEven(size: nat)
    requires ValidQueueSize(size)
    ensures size % 2 == 0
  {
    var k := AndZeroIsPow2(size);
    assert size == 2 * Pow2(k - 1);
  }

  /** From the start of any queue, one thread that enqueues and dequeues in turn
      brings both counters to any n. */
  lemma {:induction false} CountersReach<T>(s0: State<T>, tid: Tid, m: T, n: nat)
    returns (run: seq<Turn<T>>, s: State<T>)
    requires Init(s0) && tid in s0.core.threads && |s0.core.mem.cells| < WORD / 2
    ensures Reaches(s0, run, s) && SameOthers(s0, s, tid) && s.core.threads[tid].AtRest()
    ensures View(s, tid, n, n, n, n, s.core.threads[tid])
  {
    if n == 0 {
      run, s := [], s0;
    } else {
      run, s := CountersReach(s0, tid, m, n - 1);
      SizeIsEven(|s.core.mem.cells|);
      run, s := EnqueueAlone(s0, run, s, tid, m, n - 1, n - 1, s.core.threads[tid]);
      run, s := DequeueAlone(s0, run, s, tid, m, n - 1, s.core.threads[tid]);
      assert SameOthers(s0, s, tid);
      InitEstablishesInv(s0);
      RunKeepsInv(s0, run);
      hide Inv, Init;
      RestingCell(s, n);
    }
  }

  lemma {:induction false} WordExtend<T>(c: Core<T>, run: seq<Turn<T>>, turn: Turn<T>)
    requires CanWordRun(c, run) && CanStep(WordRun(c, run), turn.tid, turn.action)
    ensures CanWordRun(c, run + [turn])
    ensures WordRun(c, run + [turn]) == CoreStep(Word, WordRun(c, run), turn.tid, turn.action)
    decreases |run|
  {
    if run == [] {
      assert run + [turn] == [turn] && [turn][1..] == [];
    } else {
      WordExtend(CoreStep(Word, c, run[0].tid, run[0].action), run[1..], turn);
      assert (run + [turn])[1..] == run[1..] + [turn];
    }
  }

  /** With both counters at 2^64 - 1, thread a enqueues m. */
  lemma EnqueueAcrossWrap<T>(s0: State<T>, a: Tid, b: Tid, m: T) returns (run: seq<Turn<T>>, s: State<T>)
    requires Init(s0) && a in s0.core.threads && b in s0.core.threads && a != b && |s0.core.mem.cells| < WORD / 2
    ensures Reaches(s0, run, s) && b in s.core.threads && s.core.threads[b] == Idle
    ensures View(s, a, WORD - 1, WORD, WORD - 1, WORD, EnqDone(WORD - 1))
    ensures WORD - 1 in s.hist.sent && s.hist.sent[WORD - 1] == m
  {
    run, s := CountersReach(s0, a, m, WORD - 1);
    assert s.core.threads[b] == Idle;
    hide Reaches, Init, View;
    run, s := EnqueueAlone(s0, run, s, a, m, WORD - 1, WORD - 1, s.core.threads[a]);
  }

  /** Then thread b loads the dequeue counter. */
  lemma LoadAcrossWrap<T>(s0: State<T>, a: Tid, b: Tid, m: T) returns (run: seq<Turn<T>>, s: State<T>)
    requires Init(s0) && a in s0.core.threads && b in s0.core.threads && a != b && |s0.core.mem.cells| < WORD / 2
    ensures Reaches(s0, run, s) && b in s.core.threads && s.core.threads[b] == SizeHaveFirst(WORD - 1)
    ensures s.core.mem.enqueuePos == WORD && |s.core.mem.cells| >= 2
    ensures WORD - 1 in s.hist.sent && s.hist.sent[WORD - 1] == m && WORD - 1 !in s.hist.received
  {
    run, s := EnqueueAcrossWrap(s0, a, b, m);
    hide Reaches, Init;
    ReachedInv(s0, run, s);
    NotYetReceived(s);
    hide Inv;
    run, s := Go(s0, run, s, b, BeginSize);
  }

  lemma NotYetReceived<T>(s: State<T>)
    requires Inv(s)
    ensures forall t :: t in s.hist.received ==> t < s.core.mem.dequeuePos
  {
  }

  lemma ReachedInv<T>(s0: State<T>, run: seq<Turn<T>>, s: State<T>)
    requires Init(s0) && Reaches(s0, run, s)
    ensures Inv(s)
  {
    InitEstablishesInv(s0);
    RunKeepsInv(s0, run);
  }

  /** The run in which approx_size misses a message: the enqueue counter has
      wrapped to 0 and the dequeue counter has not. Although nothing happens
      between thread b's two loads, the size is 0 on words while the queue holds
      ticket 2^64 - 1. */
  lemma ApproxSizeMissesMessageAtWrap<T>(s0: State<T>, a: Tid, b: Tid, m: T) returns (run: seq<Turn<T>>)
    requires Init(s0) && a in s0.core.threads && b in s0.core.threads && a != b && |s0.core.mem.cells| < WORD / 2
    ensures CanRun(s0, run) && CanWordRun(WrapCore(s0.core), run)
    ensures var s, last := Run(s0, run), WORD - 1;
      && b in s.core.threads && s.core.threads[b] == SizeDone(1)
      && last in s.hist.sent && s.hist.sent[last] == m && last !in s.hist.received
    ensures var w := WordRun(WrapCore(s0.core), run);
      b in w.threads && w.threads[b] == SizeDone(0)
  {
    var s;
    run, s := LoadAcrossWrap(s0, a, b, m);
    InitEstablishesInv(s0);
    hide Init, Inv, CanRun, Run, CanWordRun, WordRun, RunStaysClose;
    FollowsOnWords(s0, run, s);
    var turn := Turn(b, LoadLast);
    RunExtend(s0, run, turn);
    WrapOfLast(s, b);
    WordExtend(WrapCore(s0.core), run, turn);
    run := run + [turn];
  }

  lemma FollowsOnWords<T>(s0: State<T>, run: seq<Turn<T>>, s: State<T>)
    requires Init(s0) && Reaches(s0, run, s) && |s0.core.mem.cells| < WORD / 2
    ensures CanWordRun(WrapCore(s0.core), run) && WordRun(WrapCore(s0.core), run) == WrapCore(s.core)
  {
    InitEstablishesInv(s0);
    hide Inv;
    WordRunRefines(s0, run);
  }

  lemma WrapOfLast<T>(s: State<T>, b: Tid)
    requires |s.core.mem.cells| >= 2 && b in s.core.threads && s.core.threads[b] == SizeHaveFirst(WORD - 1)
    requires s.core.mem.enqueuePos == WORD
    ensures CanStep(s.core, b, LoadLast) && CanStep(WrapCore(s.core), b, LoadLast)
    ensures Next(s, b, LoadLast).core.threads[b] == SizeDone(1) && Next(s, b, LoadLast).hist == s.hist
    ensures CoreStep(Word, WrapCore(s.core), b, LoadLast).threads[b] == SizeDone(0)
  {
    assert WORD % WORD == 0 && (WORD - 1) % WORD == WORD - 1;
  }
}
