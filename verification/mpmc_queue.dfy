// The lock-free bounded queue (mpmc_bounded_q.h) as a step relation: any number
// of threads, one atomic access to shared memory per step, any interleaving.
module MpmcQueue {
  import opened RingArithmetic

  type Tid = nat

  /** How size_t values behave: as unbounded naturals, or modulo 2^64. */
  datatype Arith = Exact | Word

  function Wrap(ar: Arith, x: nat): (w: nat)
  {
    if ar.Exact? then x else x % WORD
  }

  /** `(intptr_t)a - (intptr_t)b`. */
  function SignedDiff(ar: Arith, a: nat, b: nat): int
  {
    if ar.Exact? then a - b
    else
      var d := (a - b) % WORD;
      if d < WORD / 2 then d else d - WORD
  }

  datatype Cell<T> = Cell(sequence: nat, data: T)

  datatype Memory<T> = Memory(cells: seq<Cell<T>>, enqueuePos: nat, dequeuePos: nat)

  /** What one thread holds between two of its steps. */
  datatype Local<T> =
    | Idle
    | EnqHavePos(pos: nat, msg: T)
    | EnqHaveSeq(pos: nat, sq: nat, msg: T)
    | EnqClaimed(pos: nat, msg: T)          // compare-and-swap won
    | EnqMoved(pos: nat)                    // payload stored, sequence not yet
    | EnqDone(pos: nat)                     // returned true
    | EnqRefused(msg: T)                    // returned false; still owns msg
    | DeqHavePos(pos: nat)
    | DeqHaveSeq(pos: nat, sq: nat)
    | DeqClaimed(pos: nat)
    | DeqMoved(pos: nat, msg: T)
    | DeqDone(pos: nat, msg: T)
    | DeqEmpty
    | SizeHaveFirst(first: nat)
    | SizeDone(size: nat)
  {
    /** No queue operation is in flight. */
    predicate AtRest() {
      Idle? || EnqDone? || EnqRefused? || DeqDone? || DeqEmpty? || SizeDone?
    }

    /** Between a won compare-and-swap and the store that publishes the cell. */
    predicate InCriticalSection() {
      EnqClaimed? || EnqMoved? || DeqClaimed? || DeqMoved?
    }
  }

  datatype Action<T> =
    | BeginEnqueue(m: T)
    | BeginDequeue
    | BeginSize
    | LoadSequence
    | Compare(spurious: bool)  // test `dif`, then CAS, reload or give up
    | Move(residue: T)         // residue: what the moved-from object holds
    | Publish
    | LoadLast

  datatype Core<T> = Core(mem: Memory<T>, threads: map<Tid, Local<T>>)

  predicate Enabled<T>(l: Local<T>, a: Action<T>)
  {
    match a
    case BeginEnqueue(_) => l.AtRest()
    case BeginDequeue => l.AtRest()
    case BeginSize => l.AtRest()
    case LoadSequence => l.EnqHavePos? || l.DeqHavePos?
    case Compare(_) => l.EnqHaveSeq? || l.DeqHaveSeq?
    case Move(_) => l.EnqClaimed? || l.DeqClaimed?
    case Publish => l.EnqMoved? || l.DeqMoved?
    case LoadLast => l.SizeHaveFirst?
  }

  /** One atomic step of one thread. */
  function Step<T>(ar: Arith, mem: Memory<T>, l: Local<T>, a: Action<T>): (Memory<T>, Local<T>)
    requires |mem.cells| > 0 && Enabled(l, a)
  {
    var n := |mem.cells|;
    match a
    case BeginEnqueue(m) => (mem, EnqHavePos(mem.enqueuePos, m))
    case BeginDequeue => (mem, DeqHavePos(mem.dequeuePos))
    case BeginSize => (mem, SizeHaveFirst(mem.dequeuePos))
    case LoadSequence =>
      (match l
       case EnqHavePos(pos, m) => (mem, EnqHaveSeq(pos, mem.cells[Slot(pos, n)].sequence, m))
       case DeqHavePos(pos) => (mem, DeqHaveSeq(pos, mem.cells[Slot(pos, n)].sequence)))
    case Compare(spurious) =>
      (match l
       case EnqHaveSeq(pos, sq, m) =>
         var dif := SignedDiff(ar, sq, pos);
         if dif == 0 && mem.enqueuePos == pos && !spurious then
           (mem.(enqueuePos := Wrap(ar, pos + 1)), EnqClaimed(pos, m))
         else if dif >= 0 then (mem, EnqHavePos(mem.enqueuePos, m))
         else (mem, EnqRefused(m))
       case DeqHaveSeq(pos, sq) =>
         var dif := SignedDiff(ar, sq, Wrap(ar, pos + 1));
         if dif == 0 && mem.dequeuePos == pos && !spurious then
           (mem.(dequeuePos := Wrap(ar, pos + 1)), DeqClaimed(pos))
         else if dif >= 0 then (mem, DeqHavePos(mem.dequeuePos))
         else (mem, DeqEmpty))
    case Move(residue) =>
      (match l
       case EnqClaimed(pos, m) =>
         var i := Slot(pos, n);
         (mem.(cells := mem.cells[i := mem.cells[i].(data := m)]), EnqMoved(pos))
       case DeqClaimed(pos) =>
         var i := Slot(pos, n);
         (mem.(cells := mem.cells[i := mem.cells[i].(data := residue)]), DeqMoved(pos, mem.cells[i].data)))
    case Publish =>
      (match l
       case EnqMoved(pos) =>
         var i := Slot(pos, n);
         (mem.(cells := mem.cells[i := mem.cells[i].(sequence := Wrap(ar, pos + 1))]), EnqDone(pos))
       case DeqMoved(pos, m) =>
         var i := Slot(pos, n);
         (mem.(cells := mem.cells[i := mem.cells[i].(sequence := Wrap(ar, pos + n))]), DeqDone(pos, m)))
    case LoadLast =>
      var last := mem.enqueuePos;
      (mem, SizeDone(if last <= l.first then 0
                     else if last - l.first < n then last - l.first else n))
  }

  predicate CanStep<T>(c: Core<T>, tid: Tid, a: Action<T>)
  {
    |c.mem.cells| > 0 && tid in c.threads && Enabled(c.threads[tid], a)
  }

  function CoreStep<T>(ar: Arith, c: Core<T>, tid: Tid, a: Action<T>): Core<T>
    requires CanStep(c, tid, a)
  {
    var (mem, l) := Step(ar, c.mem, c.threads[tid], a);
    Core(mem, c.threads[tid := l])
  }

  /** What has happened so far: who claimed each ticket on each side, the value
      stored for each ticket and the value taken for it. */
  datatype History<T> = History(enqueuers: seq<Tid>, dequeuers: seq<Tid>,
                                sent: map<nat, T>, received: map<nat, T>)

  datatype State<T> = State(core: Core<T>, hist: History<T>)

  function Record<T>(h: History<T>, c: Core<T>, tid: Tid, a: Action<T>): History<T>
    requires CanStep(c, tid, a)
  {
    var l := c.threads[tid];
    var l' := Step(Exact, c.mem, l, a).1;
    match l'
    case EnqClaimed(_, _) => h.(enqueuers := h.enqueuers + [tid])
    case DeqClaimed(_) => h.(dequeuers := h.dequeuers + [tid])
    case EnqMoved(pos) => if l.EnqClaimed? then h.(sent := h.sent[pos := l.msg]) else h
    case DeqMoved(pos, m) => h.(received := h.received[pos := m])
    case _ => h
  }

  function Next<T>(s: State<T>, tid: Tid, a: Action<T>): State<T>
    requires CanStep(s.core, tid, a)
  {
    State(CoreStep(Exact, s.core, tid, a), Record(s.hist, s.core, tid, a))
  }

  /** The state the constructor leaves: cell i expects ticket i, both counters
      are zero, and every thread is outside the queue. */
  ghost predicate Init<T>(s: State<T>)
  {
    var mem := s.core.mem;
    && ValidQueueSize(|mem.cells|)
    && (forall i :: 0 <= i < |mem.cells| ==> mem.cells[i].sequence == i)
    && mem.enqueuePos == 0 && mem.dequeuePos == 0
    && (forall tid :: tid in s.core.threads ==> s.core.threads[tid] == Idle)
    && s.hist == History([], [], map[], map[])
  }

  // ---- The inductive invariant ----

  /** The cell expects, or is being filled by, the enqueuer of ticket t. */
  ghost predicate Free<T>(mem: Memory<T>, t: nat)
    requires |mem.cells| > 0
  {
    mem.cells[Slot(t, |mem.cells|)].sequence == t
  }

  /** The cell holds, or is being emptied of, ticket t. */
  ghost predicate Full<T>(mem: Memory<T>, t: nat)
    requires |mem.cells| > 0
  {
    mem.cells[Slot(t, |mem.cells|)].sequence == t + 1
  }

  ghost predicate CountersOk<T>(s: State<T>)
  {
    var mem := s.core.mem;
    && |mem.cells| >= 2
    && mem.dequeuePos <= mem.enqueuePos <= mem.dequeuePos + |mem.cells|
    && |s.hist.enqueuers| == mem.enqueuePos
    && |s.hist.dequeuers| == mem.dequeuePos
  }

  function ThreadOf<T>(s: State<T>, tid: Tid): Local<T>
  {
    if tid in s.core.threads then s.core.threads[tid] else Idle
  }

  /** Claimed by an enqueuer that has not published yet. */
  ghost predicate BeingFilled<T>(s: State<T>, t: nat)
    requires t < |s.hist.enqueuers|
  {
    var l := ThreadOf(s, s.hist.enqueuers[t]);
    (l.EnqClaimed? || l.EnqMoved?) && l.pos == t
  }

  /** Claimed by a dequeuer that has not handed the cell back yet. */
  ghost predicate BeingEmptied<T>(s: State<T>, t: nat)
    requires t < |s.hist.dequeuers|
  {
    var l := ThreadOf(s, s.hist.dequeuers[t]);
    (l.DeqClaimed? || l.DeqMoved?) && l.pos == t
  }

  ghost predicate FreeCellOk<T>(s: State<T>, t: nat)
    requires CountersOk(s)
  {
    var mem := s.core.mem;
    && mem.dequeuePos <= t < mem.dequeuePos + |mem.cells|
    && (t < mem.enqueuePos ==> BeingFilled(s, t))
  }

  ghost predicate FullCellOk<T>(s: State<T>, t: nat)
    requires CountersOk(s)
  {
    var mem := s.core.mem;
    && t < mem.enqueuePos <= t + |mem.cells|
    && t in s.hist.sent
    && (t < mem.dequeuePos ==> BeingEmptied(s, t))
    && (t !in s.hist.received ==> mem.cells[Slot(t, |mem.cells|)].data == s.hist.sent[t])
  }

  ghost predicate CellOk<T>(s: State<T>, i: nat)
    requires CountersOk(s) && i < |s.core.mem.cells|
  {
    var n := |s.core.mem.cells|;
    var q := s.core.mem.cells[i].sequence;
    || (Slot(q, n) == i && FreeCellOk(s, q))
    || (q >= 1 && Slot(q - 1, n) == i && FullCellOk(s, q - 1))
  }

  ghost predicate ThreadOk<T>(s: State<T>, tid: Tid)
    requires CountersOk(s) && tid in s.core.threads
  {
    var mem := s.core.mem;
    var h := s.hist;
    match s.core.threads[tid]
    case EnqHavePos(pos, _) => pos <= mem.enqueuePos
    case EnqHaveSeq(pos, sq, _) =>
      && pos <= mem.enqueuePos && (sq == pos == mem.enqueuePos ==> Free(mem, pos))
      && pos <= sq + |mem.cells| && sq <= mem.enqueuePos + |mem.cells|
    case EnqClaimed(pos, _) =>
      pos < mem.enqueuePos && h.enqueuers[pos] == tid && Free(mem, pos) && pos !in h.sent
    case EnqMoved(pos) =>
      && pos < mem.enqueuePos && h.enqueuers[pos] == tid && Free(mem, pos) && pos in h.sent
      && mem.cells[Slot(pos, |mem.cells|)].data == h.sent[pos]
    case EnqDone(pos) => pos < mem.enqueuePos && h.enqueuers[pos] == tid && pos in h.sent
    case DeqHavePos(pos) => pos <= mem.dequeuePos
    case DeqHaveSeq(pos, sq) =>
      && pos <= mem.dequeuePos && (sq == pos + 1 && pos == mem.dequeuePos ==> Full(mem, pos))
      && pos <= sq + |mem.cells| && sq <= mem.enqueuePos + |mem.cells|
    case DeqClaimed(pos) =>
      pos < mem.dequeuePos && h.dequeuers[pos] == tid && Full(mem, pos) && pos !in h.received
    case DeqMoved(pos, m) =>
      && pos < mem.dequeuePos && h.dequeuers[pos] == tid && Full(mem, pos)
      && pos in h.received && h.received[pos] == m
    case DeqDone(pos, m) =>
      pos < mem.dequeuePos && h.dequeuers[pos] == tid && pos in h.received && h.received[pos] == m
    case SizeHaveFirst(first) => first <= mem.dequeuePos
    case _ => true
  }

  /** Every claimed ticket has its value recorded, unless its claimant is still
      about to store (or take) it; and what is taken is what was stored. */
  ghost predicate TicketsOk<T>(s: State<T>)
    requires CountersOk(s)
  {
    var h := s.hist;
    && (forall t :: t in h.sent ==> t < |h.enqueuers|)
    && (forall t :: 0 <= t < |h.enqueuers| && t !in h.sent ==>
          ThreadOf(s, h.enqueuers[t]).EnqClaimed? && ThreadOf(s, h.enqueuers[t]).pos == t)
    && (forall t :: t in h.received ==> t < |h.dequeuers|)
    && (forall t :: 0 <= t < |h.dequeuers| ==> t in h.sent)
    && (forall t :: 0 <= t < |h.dequeuers| && t !in h.received ==>
          ThreadOf(s, h.dequeuers[t]).DeqClaimed? && ThreadOf(s, h.dequeuers[t]).pos == t)
    && (forall t :: t in h.received ==> t in h.sent && h.received[t] == h.sent[t])
  }

  ghost predicate Inv<T>(s: State<T>)
  {
    && CountersOk(s)
    && (forall i :: 0 <= i < |s.core.mem.cells| ==> CellOk(s, i))
    && (forall tid :: tid in s.core.threads ==> ThreadOk(s, tid))
    && TicketsOk(s)
  }

  lemma InitEstablishesInv<T>(s: State<T>)
    requires Init(s)
    ensures Inv(s)
  {
    forall i | 0 <= i < |s.core.mem.cells| ensures CellOk(s, i) {
    }
  }

  // -- steps that change no shared memory --

  ghost predicate LocalStep<T>(s: State<T>, tid: Tid, a: Action<T>, s': State<T>)
  {
    && Inv(s) && CanStep(s.core, tid, a) && s' == Next(s, tid, a)
    && s'.core.mem == s.core.mem && s'.hist == s.hist
    && !s.core.threads[tid].InCriticalSection() && !s'.core.threads[tid].InCriticalSection()
  }

  lemma LocalStepThread<T>(s: State<T>, tid: Tid, a: Action<T>, s': State<T>)
    requires LocalStep(s, tid, a, s') && CountersOk(s')
    ensures ThreadOk(s', tid)
  {
    assert ThreadOk(s, tid);
    if a.LoadSequence? {
      assert CellOk(s, Slot(s.core.threads[tid].pos, |s.core.mem.cells|));
    }
  }

  lemma LocalStepKeepsInv<T>(s: State<T>, tid: Tid, a: Action<T>, s': State<T>)
    requires LocalStep(s, tid, a, s')
    ensures Inv(s')
  {
    var l' := s'.core.threads[tid];
    assert s'.core.threads == s.core.threads[tid := l'];
    LocalStepThread(s, tid, a, s');
    forall i | 0 <= i < |s'.core.mem.cells| ensures CellOk(s', i) {
      assert CellOk(s, i);
      LocalStepCell(s, tid, l', s', i);
    }
    forall t | t in s'.core.threads ensures ThreadOk(s', t) {
      if t != tid { OtherThread(s, tid, l', s', t); }
    }
    LocalStepTickets(s, tid, l', s');
  }

  ghost predicate OnlyLocal<T>(s: State<T>, tid: Tid, l': Local<T>, s': State<T>)
  {
    && CountersOk(s) && tid in s.core.threads
    && !s.core.threads[tid].InCriticalSection()
    && s' == State(Core(s.core.mem, s.core.threads[tid := l']), s.hist)
  }

  lemma LocalStepCell<T>(s: State<T>, tid: Tid, l': Local<T>, s': State<T>, i: nat)
    requires OnlyLocal(s, tid, l', s') && i < |s.core.mem.cells| && CellOk(s, i)
    ensures CellOk(s', i)
  {
  }

  lemma OtherThread<T>(s: State<T>, tid: Tid, l': Local<T>, s': State<T>, t: Tid)
    requires OnlyLocal(s, tid, l', s') && t != tid && t in s.core.threads && ThreadOk(s, t)
    ensures ThreadOk(s', t)
  {
  }

  lemma LocalStepTickets<T>(s: State<T>, tid: Tid, l': Local<T>, s': State<T>)
    requires OnlyLocal(s, tid, l', s') && TicketsOk(s)
    ensures TicketsOk(s')
  {
  }

  lemma SlotNeighbours(t: nat, n: nat)
    requires n >= 2
    ensures Slot(t + 1, n) != Slot(t, n) == Slot(t + n, n)
    ensures t >= 1 ==> Slot(t - 1, n) != Slot(t, n)
  {
    SlotNextDiffers(t, n);
    if t >= 1 { SlotNextDiffers(t - 1, n); }
  }

  /** A cell whose sequence number is t (at t's slot) is free for t. */
  lemma FreeCell<T>(s: State<T>, t: nat)
    requires Inv(s) && Free(s.core.mem, t)
    ensures FreeCellOk(s, t)
  {
    SlotNeighbours(t, |s.core.mem.cells|);
    assert CellOk(s, Slot(t, |s.core.mem.cells|));
  }

  lemma FullCell<T>(s: State<T>, t: nat)
    requires Inv(s) && Full(s.core.mem, t)
    ensures FullCellOk(s, t)
  {
    SlotNeighbours(t, |s.core.mem.cells|);
    assert CellOk(s, Slot(t, |s.core.mem.cells|));
  }

  lemma CellCases<T>(s: State<T>, i: nat)
    requires Inv(s) && i < |s.core.mem.cells|
    ensures var q, n := s.core.mem.cells[i].sequence, |s.core.mem.cells|;
            || (Slot(q, n) == i && FreeCellOk(s, q))
            || (q >= 1 && Slot(q - 1, n) == i && FullCellOk(s, q - 1))
  {
    assert CellOk(s, i);
  }

  lemma CellIsFree<T>(s: State<T>, i: nat)
    requires CountersOk(s) && i < |s.core.mem.cells|
    requires var q := s.core.mem.cells[i].sequence;
             Slot(q, |s.core.mem.cells|) == i && FreeCellOk(s, q)
    ensures CellOk(s, i)
  {
  }

  lemma CellIsFull<T>(s: State<T>, i: nat)
    requires CountersOk(s) && i < |s.core.mem.cells|
    requires var q := s.core.mem.cells[i].sequence;
             q >= 1 && Slot(q - 1, |s.core.mem.cells|) == i && FullCellOk(s, q - 1)
    ensures CellOk(s, i)
  {
  }

  /** A thread in its critical section owns a cell of the right kind. */
  lemma OwnCell<T>(s: State<T>, tid: Tid)
    requires Inv(s) && tid in s.core.threads && s.core.threads[tid].InCriticalSection()
    ensures var l, mem := s.core.threads[tid], s.core.mem;
            && (l.EnqClaimed? || l.EnqMoved? ==>
                  Free(mem, l.pos) && l.pos < mem.enqueuePos && s.hist.enqueuers[l.pos] == tid)
            && (l.DeqClaimed? || l.DeqMoved? ==>
                  Full(mem, l.pos) && l.pos < mem.dequeuePos && s.hist.dequeuers[l.pos] == tid)
  {
    assert ThreadOk(s, tid);
  }

  /** The thread that empties a full cell is at its ticket. */
  lemma EmptierIsAt<T>(s: State<T>, tid: Tid, t: nat)
    requires CountersOk(s) && tid in s.core.threads && FullCellOk(s, t)
    requires s.core.threads[tid].DeqClaimed? || s.core.threads[tid].DeqMoved?
    ensures t < |s.hist.dequeuers| && s.hist.dequeuers[t] == tid ==> t == s.core.threads[tid].pos
  {
  }

  /** Neither counter moves, and the tickets of thread tid stay in its hands. */
  ghost predicate KeepsClaims<T>(s: State<T>, tid: Tid, l': Local<T>, s': State<T>)
  {
    && CountersOk(s) && CountersOk(s')
    && |s'.core.mem.cells| == |s.core.mem.cells|
    && s'.core.mem.enqueuePos == s.core.mem.enqueuePos && s'.core.mem.dequeuePos == s.core.mem.dequeuePos
    && s'.hist.enqueuers == s.hist.enqueuers && s'.hist.dequeuers == s.hist.dequeuers
    && tid in s.core.threads && s'.core.threads == s.core.threads[tid := l']
  }

  lemma FreeCellFrame<T>(s: State<T>, tid: Tid, l': Local<T>, s': State<T>, t: nat)
    requires KeepsClaims(s, tid, l', s') && FreeCellOk(s, t)
    requires t < |s.hist.enqueuers| && s.hist.enqueuers[t] == tid ==> (l'.EnqClaimed? || l'.EnqMoved?) && l'.pos == t
    ensures FreeCellOk(s', t)
  {
  }

  lemma FullCellFrame<T>(s: State<T>, tid: Tid, l': Local<T>, s': State<T>, t: nat)
    requires KeepsClaims(s, tid, l', s') && FullCellOk(s, t)
    requires t < |s.hist.dequeuers| && s.hist.dequeuers[t] == tid ==> (l'.DeqClaimed? || l'.DeqMoved?) && l'.pos == t
    requires t in s'.hist.sent && s'.hist.sent[t] == s.hist.sent[t]
    requires t !in s'.hist.received ==> t !in s.hist.received
    requires var i := Slot(t, |s.core.mem.cells|);
             t in s'.hist.received || s'.core.mem.cells[i].data == s.core.mem.cells[i].data
    ensures FullCellOk(s', t)
  {
  }

  // -- an enqueuer wins its compare-and-swap --

  ghost predicate EnqueueClaimsShape<T>(s: State<T>, tid: Tid, s': State<T>)
  {
    && CountersOk(s) && tid in s.core.threads
    && var mem, l := s.core.mem, s.core.threads[tid];
    && l.EnqHaveSeq? && l.sq == l.pos == mem.enqueuePos
    && s'.core.mem == mem.(enqueuePos := l.pos + 1)
    && s'.core.threads == s.core.threads[tid := EnqClaimed(l.pos, l.msg)]
    && s'.hist == s.hist.(enqueuers := s.hist.enqueuers + [tid])
  }

  ghost predicate EnqueueClaims<T>(s: State<T>, tid: Tid, s': State<T>)
  {
    Inv(s) && EnqueueClaimsShape(s, tid, s')
  }

  lemma EnqueueClaimsCounters<T>(s: State<T>, tid: Tid, s': State<T>)
    requires EnqueueClaims(s, tid, s')
    ensures CountersOk(s') && FreeCellOk(s, s.core.mem.enqueuePos)
  {
    assert ThreadOk(s, tid);
    FreeCell(s, s.core.mem.enqueuePos);
  }

  lemma EnqueueClaimsFree<T>(s: State<T>, tid: Tid, s': State<T>, t: nat)
    requires EnqueueClaimsShape(s, tid, s') && CountersOk(s') && FreeCellOk(s, t)
    ensures FreeCellOk(s', t)
  {
  }

  lemma EnqueueClaimsFull<T>(s: State<T>, tid: Tid, s': State<T>, t: nat)
    requires EnqueueClaimsShape(s, tid, s') && CountersOk(s') && FullCellOk(s, t)
    requires s.core.mem.enqueuePos != t + |s.core.mem.cells|
    ensures FullCellOk(s', t)
  {
  }

  lemma EnqueueClaimsCell<T>(s: State<T>, tid: Tid, s': State<T>, i: nat)
    requires Inv(s) && EnqueueClaimsShape(s, tid, s') && CountersOk(s') && i < |s.core.mem.cells|
    requires Free(s.core.mem, s.core.mem.enqueuePos)
    ensures CellOk(s', i)
  {
    hide Inv, ThreadOk, TicketsOk, CellOk, BeingFilled, BeingEmptied, FreeCellOk, FullCellOk;
    var n, q := |s.core.mem.cells|, s.core.mem.cells[i].sequence;
    CellCases(s, i);
    if Slot(q, n) == i && FreeCellOk(s, q) {
      EnqueueClaimsFree(s, tid, s', q);
      CellIsFree(s', i);
    } else {
      // a full cell for ticket pos - n would share its slot with pos
      SlotNeighbours(q - 1, n);
      EnqueueClaimsFull(s, tid, s', q - 1);
      CellIsFull(s', i);
    }
  }

  lemma EnqueueClaimsThread<T>(s: State<T>, tid: Tid, s': State<T>, t: Tid)
    requires EnqueueClaims(s, tid, s') && CountersOk(s') && t in s.core.threads
    ensures ThreadOk(s', t)
  {
    assert ThreadOk(s, t) && ThreadOk(s, tid);
    assert s.core.mem.enqueuePos !in s.hist.sent;
  }

  lemma EnqueueClaimKeepsInv<T>(s: State<T>, tid: Tid, s': State<T>)
    requires EnqueueClaims(s, tid, s')
    ensures Inv(s')
  {
    EnqueueClaimsCounters(s, tid, s');
    forall i | 0 <= i < |s'.core.mem.cells| ensures CellOk(s', i) {
      EnqueueClaimsCell(s, tid, s', i);
    }
    forall t | t in s'.core.threads ensures ThreadOk(s', t) {
      EnqueueClaimsThread(s, tid, s', t);
    }
  }

  // -- a dequeuer wins its compare-and-swap --

  ghost predicate DequeueClaimsShape<T>(s: State<T>, tid: Tid, s': State<T>)
  {
    && CountersOk(s) && tid in s.core.threads
    && var mem, l := s.core.mem, s.core.threads[tid];
    && l.DeqHaveSeq? && l.sq == l.pos + 1 && l.pos == mem.dequeuePos
    && s'.core.mem == mem.(dequeuePos := l.pos + 1)
    && s'.core.threads == s.core.threads[tid := DeqClaimed(l.pos)]
    && s'.hist == s.hist.(dequeuers := s.hist.dequeuers + [tid])
  }

  ghost predicate DequeueClaims<T>(s: State<T>, tid: Tid, s': State<T>)
  {
    Inv(s) && DequeueClaimsShape(s, tid, s')
  }

  lemma DequeueClaimsCounters<T>(s: State<T>, tid: Tid, s': State<T>)
    requires DequeueClaims(s, tid, s')
    ensures CountersOk(s') && FullCellOk(s, s.core.mem.dequeuePos)
  {
    assert ThreadOk(s, tid);
    FullCell(s, s.core.mem.dequeuePos);
  }

  lemma DequeueClaimsFree<T>(s: State<T>, tid: Tid, s': State<T>, t: nat)
    requires DequeueClaimsShape(s, tid, s') && CountersOk(s') && FreeCellOk(s, t)
    requires t != s.core.mem.dequeuePos
    ensures FreeCellOk(s', t)
  {
  }

  lemma DequeueClaimsFull<T>(s: State<T>, tid: Tid, s': State<T>, t: nat)
    requires DequeueClaimsShape(s, tid, s') && CountersOk(s') && FullCellOk(s, t)
    ensures FullCellOk(s', t)
  {
  }

  lemma DequeueClaimsCell<T>(s: State<T>, tid: Tid, s': State<T>, i: nat)
    requires Inv(s) && DequeueClaimsShape(s, tid, s') && CountersOk(s') && i < |s.core.mem.cells|
    requires Full(s.core.mem, s.core.mem.dequeuePos)
    ensures CellOk(s', i)
  {
    hide Inv, ThreadOk, TicketsOk, CellOk, BeingFilled, BeingEmptied, FreeCellOk, FullCellOk;
    var n, q := |s.core.mem.cells|, s.core.mem.cells[i].sequence;
    CellCases(s, i);
    if Slot(q, n) == i && FreeCellOk(s, q) {
      DequeueClaimsFree(s, tid, s', q);
      CellIsFree(s', i);
    } else {
      DequeueClaimsFull(s, tid, s', q - 1);
      CellIsFull(s', i);
    }
  }

  lemma DequeueClaimsThread<T>(s: State<T>, tid: Tid, s': State<T>, t: Tid)
    requires DequeueClaims(s, tid, s') && CountersOk(s') && t in s.core.threads
    ensures ThreadOk(s', t)
  {
    assert ThreadOk(s, t) && ThreadOk(s, tid);
    assert s.core.mem.dequeuePos !in s.hist.received;
  }

  lemma DequeueClaimKeepsInv<T>(s: State<T>, tid: Tid, s': State<T>)
    requires DequeueClaims(s, tid, s')
    ensures Inv(s')
  {
    DequeueClaimsCounters(s, tid, s');
    forall i | 0 <= i < |s'.core.mem.cells| ensures CellOk(s', i) {
      DequeueClaimsCell(s, tid, s', i);
    }
    forall t | t in s'.core.threads ensures ThreadOk(s', t) {
      DequeueClaimsThread(s, tid, s', t);
    }
  }

  // -- the payload is stored --

  ghost predicate MovesInShape<T>(s: State<T>, tid: Tid, s': State<T>)
  {
    && CountersOk(s) && tid in s.core.threads
    && var mem, l := s.core.mem, s.core.threads[tid];
    && l.EnqClaimed?
    && var i := Slot(l.pos, |mem.cells|);
    && s'.core.mem == mem.(cells := mem.cells[i := mem.cells[i].(data := l.msg)])
    && s'.core.threads == s.core.threads[tid := EnqMoved(l.pos)]
    && s'.hist == s.hist.(sent := s.hist.sent[l.pos := l.msg])
  }

  ghost predicate MovesIn<T>(s: State<T>, tid: Tid, s': State<T>)
  {
    Inv(s) && MovesInShape(s, tid, s')
  }

  lemma MovesInFree<T>(s: State<T>, tid: Tid, s': State<T>, t: nat)
    requires MovesInShape(s, tid, s') && CountersOk(s') && FreeCellOk(s, t)
    ensures FreeCellOk(s', t)
  {
  }

  lemma MovesInFull<T>(s: State<T>, tid: Tid, s': State<T>, t: nat)
    requires MovesInShape(s, tid, s') && CountersOk(s') && FullCellOk(s, t)
    requires var n := |s.core.mem.cells|;
             Slot(s.core.threads[tid].pos, n) != Slot(t, n) && t != s.core.threads[tid].pos
    ensures FullCellOk(s', t)
  {
  }

  lemma MovesInCell<T>(s: State<T>, tid: Tid, s': State<T>, i: nat)
    requires Inv(s) && MovesInShape(s, tid, s') && CountersOk(s') && i < |s.core.mem.cells|
    ensures CellOk(s', i)
  {
    hide Inv, ThreadOk, TicketsOk, CellOk, BeingFilled, BeingEmptied, FreeCellOk, FullCellOk;
    var n, q := |s.core.mem.cells|, s.core.mem.cells[i].sequence;
    CellCases(s, i);
    OwnCell(s, tid);
    if Slot(q, n) == i && FreeCellOk(s, q) {
      MovesInFree(s, tid, s', q);
      CellIsFree(s', i);
    } else {
      SlotNeighbours(q - 1, n);
      MovesInFull(s, tid, s', q - 1);
      CellIsFull(s', i);
    }
  }

  lemma MovesInThread<T>(s: State<T>, tid: Tid, s': State<T>, t: Tid)
    requires MovesIn(s, tid, s') && CountersOk(s') && t in s.core.threads
    ensures ThreadOk(s', t)
  {
    assert ThreadOk(s, t) && ThreadOk(s, tid);
  }

  lemma MoveInKeepsInv<T>(s: State<T>, tid: Tid, s': State<T>)
    requires MovesIn(s, tid, s')
    ensures Inv(s')
  {
    assert ThreadOk(s, tid);
    forall i | 0 <= i < |s'.core.mem.cells| ensures CellOk(s', i) {
      MovesInCell(s, tid, s', i);
    }
    forall t | t in s'.core.threads ensures ThreadOk(s', t) {
      MovesInThread(s, tid, s', t);
    }
  }

  // -- the payload is taken --

  ghost predicate MovesOutShape<T>(s: State<T>, tid: Tid, residue: T, s': State<T>)
  {
    && CountersOk(s) && tid in s.core.threads
    && var mem, l := s.core.mem, s.core.threads[tid];
    && l.DeqClaimed?
    && var i := Slot(l.pos, |mem.cells|);
    && var m := mem.cells[i].data;
    && s'.core.mem == mem.(cells := mem.cells[i := mem.cells[i].(data := residue)])
    && s'.core.threads == s.core.threads[tid := DeqMoved(l.pos, m)]
    && s'.hist == s.hist.(received := s.hist.received[l.pos := m])
  }

  ghost predicate MovesOut<T>(s: State<T>, tid: Tid, residue: T, s': State<T>)
  {
    Inv(s) && MovesOutShape(s, tid, residue, s')
  }

  lemma MovesOutFree<T>(s: State<T>, tid: Tid, residue: T, s': State<T>, t: nat)
    requires MovesOutShape(s, tid, residue, s') && CountersOk(s') && FreeCellOk(s, t)
    ensures FreeCellOk(s', t)
  {
    FreeCellFrame(s, tid, s'.core.threads[tid], s', t);
  }

  lemma MovesOutFull<T>(s: State<T>, tid: Tid, residue: T, s': State<T>, t: nat)
    requires MovesOutShape(s, tid, residue, s') && CountersOk(s') && FullCellOk(s, t)
    requires var n, pos := |s.core.mem.cells|, s.core.threads[tid].pos;
             && (t == pos || Slot(t, n) != Slot(pos, n))
             && (t < |s.hist.dequeuers| && s.hist.dequeuers[t] == tid ==> t == pos)
    ensures FullCellOk(s', t)
  {
    FullCellFrame(s, tid, s'.core.threads[tid], s', t);
  }

  lemma MovesOutCell<T>(s: State<T>, tid: Tid, residue: T, s': State<T>, i: nat)
    requires Inv(s) && MovesOutShape(s, tid, residue, s') && CountersOk(s') && i < |s.core.mem.cells|
    ensures CellOk(s', i)
  {
    hide Inv, ThreadOk, TicketsOk, CellOk, BeingFilled, BeingEmptied, FreeCellOk, FullCellOk, Slot;
    var n, q := |s.core.mem.cells|, s.core.mem.cells[i].sequence;
    CellCases(s, i);
    OwnCell(s, tid);
    if Slot(q, n) == i && FreeCellOk(s, q) {
      MovesOutFree(s, tid, residue, s', q);
      CellIsFree(s', i);
    } else {
      EmptierIsAt(s, tid, q - 1);
      MovesOutFull(s, tid, residue, s', q - 1);
      CellIsFull(s', i);
    }
  }

  lemma MovesOutThread<T>(s: State<T>, tid: Tid, residue: T, s': State<T>, t: Tid)
    requires MovesOut(s, tid, residue, s') && CountersOk(s') && t in s.core.threads
    ensures ThreadOk(s', t)
  {
    assert ThreadOk(s, t) && ThreadOk(s, tid);
    var pos, n := s.core.threads[tid].pos, |s.core.mem.cells|;
    var l := s.core.threads[t];
    // a cell cannot be free for l.pos and full for pos
    SlotNeighbours(pos, n);
    assert l.EnqMoved? ==> Slot(l.pos, n) != Slot(pos, n);
  }

  lemma MoveOutKeepsInv<T>(s: State<T>, tid: Tid, residue: T, s': State<T>)
    requires MovesOut(s, tid, residue, s')
    ensures Inv(s')
  {
    assert ThreadOk(s, tid);
    FullCell(s, s.core.threads[tid].pos);
    forall i | 0 <= i < |s'.core.mem.cells| ensures CellOk(s', i) {
      MovesOutCell(s, tid, residue, s', i);
    }
    forall t | t in s'.core.threads ensures ThreadOk(s', t) {
      MovesOutThread(s, tid, residue, s', t);
    }
  }

  // -- the sequence number is stored: the cell changes hands --

  ghost predicate PublishesFullShape<T>(s: State<T>, tid: Tid, s': State<T>)
  {
    && CountersOk(s) && tid in s.core.threads
    && var mem, l := s.core.mem, s.core.threads[tid];
    && l.EnqMoved?
    && var i := Slot(l.pos, |mem.cells|);
    && s'.core.mem == mem.(cells := mem.cells[i := mem.cells[i].(sequence := l.pos + 1)])
    && s'.core.threads == s.core.threads[tid := EnqDone(l.pos)]
    && s'.hist == s.hist
  }

  ghost predicate PublishesFull<T>(s: State<T>, tid: Tid, s': State<T>)
  {
    Inv(s) && PublishesFullShape(s, tid, s')
  }

  lemma PublishesFullOwn<T>(s: State<T>, tid: Tid, s': State<T>)
    requires Inv(s) && PublishesFullShape(s, tid, s') && CountersOk(s')
    ensures FullCellOk(s', s.core.threads[tid].pos)
  {
    assert ThreadOk(s, tid);
    var pos := s.core.threads[tid].pos;
    FreeCell(s, pos);
    hide ThreadOk, CellOk, Slot;
    assert pos !in s.hist.received;
  }

  lemma PublishesFullFrame<T>(s: State<T>, tid: Tid, s': State<T>, t: nat)
    requires PublishesFullShape(s, tid, s') && CountersOk(s')
    requires Slot(t, |s.core.mem.cells|) != Slot(s.core.threads[tid].pos, |s.core.mem.cells|)
    ensures FreeCellOk(s, t) ==> FreeCellOk(s', t)
    ensures FullCellOk(s, t) ==> FullCellOk(s', t)
  {
    var l' := s'.core.threads[tid];
    if FreeCellOk(s, t) { FreeCellFrame(s, tid, l', s', t); }
    if FullCellOk(s, t) { FullCellFrame(s, tid, l', s', t); }
  }

  lemma PublishesFullCell<T>(s: State<T>, tid: Tid, s': State<T>, i: nat)
    requires Inv(s) && PublishesFullShape(s, tid, s') && CountersOk(s') && i < |s.core.mem.cells|
    ensures CellOk(s', i)
  {
    hide Inv, ThreadOk, TicketsOk, CellOk, BeingFilled, BeingEmptied, FreeCellOk, FullCellOk, Slot;
    var n, q, pos := |s.core.mem.cells|, s.core.mem.cells[i].sequence, s.core.threads[tid].pos;
    if i == Slot(pos, n) {
      PublishesFullOwn(s, tid, s');
      CellIsFull(s', i);
    } else {
      CellCases(s, i);
      if Slot(q, n) == i && FreeCellOk(s, q) {
        PublishesFullFrame(s, tid, s', q);
        CellIsFree(s', i);
      } else {
        PublishesFullFrame(s, tid, s', q - 1);
        CellIsFull(s', i);
      }
    }
  }

  lemma PublishesFullThread<T>(s: State<T>, tid: Tid, s': State<T>, t: Tid)
    requires PublishesFull(s, tid, s') && CountersOk(s') && t in s.core.threads
    ensures ThreadOk(s', t)
  {
    assert ThreadOk(s, t) && ThreadOk(s, tid);
    var pos, n := s.core.threads[tid].pos, |s.core.mem.cells|;
    var l := s.core.threads[t];
    SlotNeighbours(pos, n);
    FreeCell(s, pos);
    assert l.DeqClaimed? || l.DeqMoved? ==> Slot(l.pos, n) != Slot(pos, n);
  }

  lemma PublishFullKeepsInv<T>(s: State<T>, tid: Tid, s': State<T>)
    requires PublishesFull(s, tid, s')
    ensures Inv(s')
  {
    assert ThreadOk(s, tid);
    forall i | 0 <= i < |s'.core.mem.cells| ensures CellOk(s', i) {
      PublishesFullCell(s, tid, s', i);
    }
    forall t | t in s'.core.threads ensures ThreadOk(s', t) {
      PublishesFullThread(s, tid, s', t);
    }
  }

  ghost predicate PublishesFreeShape<T>(s: State<T>, tid: Tid, s': State<T>)
  {
    && CountersOk(s) && tid in s.core.threads
    && var mem, l := s.core.mem, s.core.threads[tid];
    && l.DeqMoved?
    && var i := Slot(l.pos, |mem.cells|);
    && s'.core.mem == mem.(cells := mem.cells[i := mem.cells[i].(sequence := l.pos + |mem.cells|)])
    && s'.core.threads == s.core.threads[tid := DeqDone(l.pos, l.msg)]
    && s'.hist == s.hist
  }

  ghost predicate PublishesFree<T>(s: State<T>, tid: Tid, s': State<T>)
  {
    Inv(s) && PublishesFreeShape(s, tid, s')
  }

  lemma PublishesFreeOwn<T>(s: State<T>, tid: Tid, s': State<T>)
    requires PublishesFreeShape(s, tid, s') && CountersOk(s') && FullCellOk(s, s.core.threads[tid].pos)
    requires s.core.threads[tid].pos < s.core.mem.dequeuePos
    ensures var t := s.core.threads[tid].pos + |s.core.mem.cells|;
            Free(s'.core.mem, t) && FreeCellOk(s', t)
  {
    SlotNeighbours(s.core.threads[tid].pos, |s.core.mem.cells|);
  }

  lemma PublishesFreeFrame<T>(s: State<T>, tid: Tid, s': State<T>, t: nat)
    requires PublishesFreeShape(s, tid, s') && CountersOk(s')
    requires Slot(t, |s.core.mem.cells|) != Slot(s.core.threads[tid].pos, |s.core.mem.cells|)
    ensures FreeCellOk(s, t) ==> FreeCellOk(s', t)
    ensures FullCellOk(s, t) ==> FullCellOk(s', t)
  {
    var l' := s'.core.threads[tid];
    if FreeCellOk(s, t) { FreeCellFrame(s, tid, l', s', t); }
    if FullCellOk(s, t) { FullCellFrame(s, tid, l', s', t); }
  }

  lemma PublishesFreeCell<T>(s: State<T>, tid: Tid, s': State<T>, i: nat)
    requires Inv(s) && PublishesFreeShape(s, tid, s') && CountersOk(s') && i < |s.core.mem.cells|
    ensures CellOk(s', i)
  {
    hide Inv, ThreadOk, TicketsOk, CellOk, BeingFilled, BeingEmptied, FreeCellOk, FullCellOk, Slot;
    var n, q, pos := |s.core.mem.cells|, s.core.mem.cells[i].sequence, s.core.threads[tid].pos;
    if i == Slot(pos, n) {
      OwnCell(s, tid);
      FullCell(s, pos);
      PublishesFreeOwn(s, tid, s');
      SlotNeighbours(pos, n);
      CellIsFree(s', i);
    } else {
      CellCases(s, i);
      if Slot(q, n) == i && FreeCellOk(s, q) {
        PublishesFreeFrame(s, tid, s', q);
        CellIsFree(s', i);
      } else {
        PublishesFreeFrame(s, tid, s', q - 1);
        CellIsFull(s', i);
      }
    }
  }

  lemma PublishesFreeThread<T>(s: State<T>, tid: Tid, s': State<T>, t: Tid)
    requires PublishesFree(s, tid, s') && CountersOk(s') && t in s.core.threads
    ensures ThreadOk(s', t)
  {
    assert ThreadOk(s, t) && ThreadOk(s, tid);
    var pos, n := s.core.threads[tid].pos, |s.core.mem.cells|;
    var l := s.core.threads[t];
    SlotNeighbours(pos, n);
    FullCell(s, pos);
    assert l.EnqClaimed? || l.EnqMoved? ==> Slot(l.pos, n) != Slot(pos, n);
  }

  lemma PublishFreeKeepsInv<T>(s: State<T>, tid: Tid, s': State<T>)
    requires PublishesFree(s, tid, s')
    ensures Inv(s')
  {
    assert ThreadOk(s, tid);
    forall i | 0 <= i < |s'.core.mem.cells| ensures CellOk(s', i) {
      PublishesFreeCell(s, tid, s', i);
    }
    forall t | t in s'.core.threads ensures ThreadOk(s', t) {
      PublishesFreeThread(s, tid, s', t);
    }
  }

  lemma StepPreservesInv<T>(s: State<T>, tid: Tid, a: Action<T>)
    requires Inv(s) && CanStep(s.core, tid, a)
    ensures Inv(Next(s, tid, a))
  {
    var s' := Next(s, tid, a);
    var l, l' := s.core.threads[tid], s'.core.threads[tid];
    if l'.EnqClaimed? {
      EnqueueClaimKeepsInv(s, tid, s');
    } else if l'.DeqClaimed? {
      DequeueClaimKeepsInv(s, tid, s');
    } else if l.EnqClaimed? {
      MoveInKeepsInv(s, tid, s');
    } else if l.DeqClaimed? {
      MoveOutKeepsInv(s, tid, a.residue, s');
    } else if l.EnqMoved? {
      PublishFullKeepsInv(s, tid, s');
    } else if l.DeqMoved? {
      PublishFreeKeepsInv(s, tid, s');
    } else {
      LocalStepKeepsInv(s, tid, a, s');
    }
  }
}
