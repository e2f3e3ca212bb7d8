// The queue on 64-bit words: positions wrap at 2^64 and sequence numbers are
// compared by a signed difference.
module MpmcWord {
  import opened RingArithmetic
  import opened MpmcQueue
  import opened MpmcTheorems

  function WrapCell<T>(c: Cell<T>): Cell<T> { c.(sequence := c.sequence % WORD) }

  function WrapMemory<T>(mem: Memory<T>): Memory<T>
  {
    Memory(seq(|mem.cells|, i requires 0 <= i < |mem.cells| => WrapCell(mem.cells[i])),
           mem.enqueuePos % WORD, mem.dequeuePos % WORD)
  }

  function WrapLocal<T>(l: Local<T>): Local<T>
  {
    match l
    case EnqHavePos(pos, m) => EnqHavePos(pos % WORD, m)
    case EnqHaveSeq(pos, sq, m) => EnqHaveSeq(pos % WORD, sq % WORD, m)
    case EnqClaimed(pos, m) => EnqClaimed(pos % WORD, m)
    case EnqMoved(pos) => EnqMoved(pos % WORD)
    case EnqDone(pos) => EnqDone(pos % WORD)
    case DeqHavePos(pos) => DeqHavePos(pos % WORD)
    case DeqHaveSeq(pos, sq) => DeqHaveSeq(pos % WORD, sq % WORD)
    case DeqClaimed(pos) => DeqClaimed(pos % WORD)
    case DeqMoved(pos, m) => DeqMoved(pos % WORD, m)
    case DeqDone(pos, m) => DeqDone(pos % WORD, m)
    case SizeHaveFirst(first) => SizeHaveFirst(first % WORD)
    case _ => l
  }

  function WrapCore<T>(c: Core<T>): Core<T>
  {
    Core(WrapMemory(c.mem), map tid | tid in c.threads :: WrapLocal(c.threads[tid]))
  }

  /** The counter that stands at last has passed no multiple of 2^64 that the
      one at first has not. */
  predicate SameLap(first: nat, last: nat)
  {
    first / WORD == last / WORD
  }

  /** The thread about to step compares sequence numbers whose true distance is
      below 2^63. */
  ghost predicate Near<T>(mem: Memory<T>, l: Local<T>)
  {
    match l
    case EnqHaveSeq(pos, _, _) => mem.enqueuePos + |mem.cells| - pos < WORD / 2
    case DeqHaveSeq(pos, _) => mem.enqueuePos + |mem.cells| - pos < WORD / 2
    case _ => true
  }

  /** And inside approx_size, the enqueue counter has not passed a multiple of
      2^64 that the loaded dequeue counter has not. */
  ghost predicate Close<T>(mem: Memory<T>, l: Local<T>)
  {
    Near(mem, l) && (l.SizeHaveFirst? ==> SameLap(l.first, mem.enqueuePos))
  }

  lemma SignedDiffOfWrapped(a: nat, b: nat)
    requires -(WORD / 2) <= a - b < WORD / 2
    ensures SignedDiff(Word, a % WORD, b % WORD) == SignedDiff(Exact, a, b)
  {
  }

  lemma WrapEqualIff(a: nat, b: nat)
    requires b <= a < b + WORD
    ensures a % WORD == b % WORD <==> a == b
  {
  }

  lemma WrapSuccessor(a: nat, k: nat)
    ensures Wrap(Word, a % WORD + k) == (a + k) % WORD
  {
  }

  /** What Inv says about the numbers a thread holds. */
  ghost predicate InRange<T>(mem: Memory<T>, l: Local<T>)
  {
    var n := |mem.cells|;
    && ValidQueueSize(n) && n < WORD / 2
    && mem.dequeuePos <= mem.enqueuePos <= mem.dequeuePos + n
    && match l
       case EnqHaveSeq(pos, sq, _) => pos <= mem.enqueuePos && pos <= sq + n && sq <= mem.enqueuePos + n
       case DeqHaveSeq(pos, sq) => pos <= mem.dequeuePos && pos <= sq + n && sq <= mem.enqueuePos + n
       case SizeHaveFirst(first) => first <= mem.enqueuePos
       case _ => true
  }

  ghost predicate Simulates<T>(mem: Memory<T>, l: Local<T>, a: Action<T>)
    requires |mem.cells| > 0 && Enabled(l, a)
  {
    && Enabled(WrapLocal(l), a)
    && var (mem', l') := Step(Exact, mem, l, a);
    && Step(Word, WrapMemory(mem), WrapLocal(l), a) == (WrapMemory(mem'), WrapLocal(l'))
  }

  lemma WordEnqueueCompare<T>(mem: Memory<T>, pos: nat, sq: nat, m: T, a: Action<T>)
    requires InRange(mem, EnqHaveSeq(pos, sq, m)) && a.Compare? && Close(mem, EnqHaveSeq(pos, sq, m))
    ensures Simulates(mem, EnqHaveSeq(pos, sq, m), a)
  {
    SignedDiffOfWrapped(sq, pos);
    WrapEqualIff(mem.enqueuePos, pos);
    WrapSuccessor(pos, 1);
    hide SignedDiff, ValidQueueSize;
  }

  lemma WordDequeueCompare<T>(mem: Memory<T>, pos: nat, sq: nat, a: Action<T>)
    requires InRange(mem, DeqHaveSeq(pos, sq)) && a.Compare? && Close(mem, DeqHaveSeq(pos, sq))
    ensures Simulates(mem, DeqHaveSeq(pos, sq), a)
  {
    SignedDiffOfWrapped(sq, pos + 1);
    WrapEqualIff(mem.dequeuePos, pos);
    WrapSuccessor(pos, 1);
    hide SignedDiff, ValidQueueSize;
  }

  lemma WordCompare<T>(mem: Memory<T>, l: Local<T>, a: Action<T>)
    requires InRange(mem, l) && a.Compare? && Enabled(l, a) && Close(mem, l)
    ensures Simulates(mem, l, a)
  {
    hide Simulates, Close, InRange;
    match l
    case EnqHaveSeq(pos, sq, m) => WordEnqueueCompare(mem, pos, sq, m, a);
    case DeqHaveSeq(pos, sq) => WordDequeueCompare(mem, pos, sq, a);
  }

  lemma WrapUpdate<T>(mem: Memory<T>, i: nat, c: Cell<T>)
    requires i < |mem.cells|
    ensures WrapMemory(mem.(cells := mem.cells[i := c]))
            == WrapMemory(mem).(cells := WrapMemory(mem).cells[i := WrapCell(c)])
  {
    assert WrapMemory(mem.(cells := mem.cells[i := c])).cells == WrapMemory(mem).cells[i := WrapCell(c)];
  }

  lemma WordMove<T>(mem: Memory<T>, l: Local<T>, a: Action<T>)
    requires InRange(mem, l) && a.Move? && Enabled(l, a)
    ensures Simulates(mem, l, a)
  {
    var n := |mem.cells|;
    SlotIgnoresWrap(l.pos, n);
    var i := Slot(l.pos, n);
    WrapUpdate(mem, i, mem.cells[i].(data := if l.EnqClaimed? then l.msg else a.residue));
  }

  lemma WordPublish<T>(mem: Memory<T>, l: Local<T>)
    requires InRange(mem, l) && Enabled(l, Publish)
    ensures Simulates(mem, l, Publish)
  {
    var n := |mem.cells|;
    SlotIgnoresWrap(l.pos, n);
    WrapSuccessor(l.pos, 1);
    WrapSuccessor(l.pos, n);
    var i := Slot(l.pos, n);
    WrapUpdate(mem, i, mem.cells[i].(sequence := if l.EnqMoved? then l.pos + 1 else l.pos + n));
  }

  lemma WordLoadLast<T>(mem: Memory<T>, l: Local<T>)
    requires InRange(mem, l) && l.SizeHaveFirst? && Close(mem, l)
    ensures Simulates(mem, l, LoadLast)
  {
    assert mem.enqueuePos % WORD - l.first % WORD == mem.enqueuePos - l.first;
  }

  lemma WordLoad<T>(mem: Memory<T>, l: Local<T>, a: Action<T>)
    requires InRange(mem, l) && Enabled(l, a)
    requires a.LoadSequence? || a.BeginEnqueue? || a.BeginDequeue? || a.BeginSize?
    ensures Simulates(mem, l, a)
  {
    if a.LoadSequence? {
      SlotIgnoresWrap(l.pos, |mem.cells|);
      assert WrapMemory(mem).cells[Slot(l.pos, |mem.cells|)] == WrapCell(mem.cells[Slot(l.pos, |mem.cells|)]);
    }
  }

  lemma ThreadInRange<T>(s: State<T>, tid: Tid)
    requires Inv(s) && ValidQueueSize(|s.core.mem.cells|) && |s.core.mem.cells| < WORD / 2 && tid in s.core.threads
    ensures InRange(s.core.mem, s.core.threads[tid])
  {
    assert ThreadOk(s, tid);
  }

  lemma StepSimulates<T>(mem: Memory<T>, l: Local<T>, a: Action<T>)
    requires |mem.cells| > 0 && InRange(mem, l) && Enabled(l, a) && Close(mem, l)
    ensures Simulates(mem, l, a)
  {
    hide InRange, Simulates, Close, ValidQueueSize;
    match a
    case Compare(_) => WordCompare(mem, l, a);
    case Move(_) => WordMove(mem, l, a);
    case Publish => WordPublish(mem, l);
    case LoadLast => WordLoadLast(mem, l);
    case _ => WordLoad(mem, l, a);
  }

  /** One step of the word machine is the wrap of one step of the unbounded one. */
  lemma WordStep<T>(s: State<T>, tid: Tid, a: Action<T>)
    requires Inv(s) && ValidQueueSize(|s.core.mem.cells|) && |s.core.mem.cells| < WORD / 2
    requires CanStep(s.core, tid, a) && Close(s.core.mem, s.core.threads[tid])
    ensures CanStep(WrapCore(s.core), tid, a)
    ensures CoreStep(Word, WrapCore(s.core), tid, a) == WrapCore(CoreStep(Exact, s.core, tid, a))
  {
    hide Inv, InRange, Close, ValidQueueSize, Step, WrapLocal, Enabled;
    var mem, l := s.core.mem, s.core.threads[tid];
    ThreadInRange(s, tid);
    StepSimulates(mem, l, a);
    var c' := CoreStep(Exact, s.core, tid, a);
    assert WrapCore(c').threads == WrapCore(s.core).threads[tid := WrapLocal(c'.threads[tid])];
  }

  // ---- Whole runs ----

  ghost predicate RunStaysClose<T>(s: State<T>, run: seq<Turn<T>>)
    requires CanRun(s, run)
    decreases |run|
  {
    run == [] || (Close(s.core.mem, s.core.threads[run[0].tid])
                  && RunStaysClose(Next(s, run[0].tid, run[0].action), run[1..]))
  }

  predicate CanWordRun<T>(c: Core<T>, run: seq<Turn<T>>)
    decreases |run|
  {
    run == [] || (CanStep(c, run[0].tid, run[0].action)
                  && CanWordRun(CoreStep(Word, c, run[0].tid, run[0].action), run[1..]))
  }

  function WordRun<T>(c: Core<T>, run: seq<Turn<T>>): Core<T>
    requires CanWordRun(c, run)
    decreases |run|
  {
    if run == [] then c else WordRun(CoreStep(Word, c, run[0].tid, run[0].action), run[1..])
  }

  /** As long as compared numbers are less than 2^63 apart, the real queue, whose
      counters wrap, does step for step what the unbounded queue does; so every
      theorem about runs of the unbounded queue speaks about it. */
  lemma {:induction false} WordRunRefines<T>(s: State<T>, run: seq<Turn<T>>)
    requires Inv(s) && ValidQueueSize(|s.core.mem.cells|) && |s.core.mem.cells| < WORD / 2
    requires CanRun(s, run) && RunStaysClose(s, run)
    ensures CanWordRun(WrapCore(s.core), run)
    ensures WordRun(WrapCore(s.core), run) == WrapCore(Run(s, run).core)
    decreases |run|
  {
    if run != [] {
      WordStep(s, run[0].tid, run[0].action);
      StepPreservesInv(s, run[0].tid, run[0].action);
      var s' := Next(s, run[0].tid, run[0].action);
      WordRunRefines(s', run[1..]);
    }
  }

  /** approx_size compares two wrapped counters. It agrees with the unbounded
      queue exactly when the enqueue counter has not passed a multiple of 2^64
      that the loaded dequeue counter has not, or when 2^64 enqueues and more
      came after the first load and the wrapped values are a ring apart again.
      Else the size is too small: 0, if fewer enqueues came. */
  lemma ApproxSizeRightIff<T>(mem: Memory<T>, first: nat)
    requires InRange(mem, SizeHaveFirst(first))
    ensures var exact := Step(Exact, mem, SizeHaveFirst(first), LoadLast).1.size;
            var word := Step(Word, WrapMemory(mem), SizeHaveFirst(first % WORD), LoadLast).1.size;
            var last, n := mem.enqueuePos, |mem.cells|;
            && (word == exact <==>
                  SameLap(first, last) || (last - first >= WORD && last % WORD - first % WORD >= n))
            && (word != exact ==> word < exact && (last - first < WORD ==> word == 0))
  {
    assert |WrapMemory(mem).cells| == |mem.cells| && 0 < |mem.cells| < WORD && first <= mem.enqueuePos;
    hide InRange, ValidQueueSize, SameLap;
    WrappedDistance(first, mem.enqueuePos);
  }

  lemma WrappedDistance(first: nat, last: nat)
    requires first <= last
    ensures SameLap(first, last) ==> 0 <= last % WORD - first % WORD == last - first
    ensures !SameLap(first, last) && last - first < WORD ==> last % WORD < first % WORD
    ensures !SameLap(first, last) ==> first < last && last % WORD - first % WORD < last - first
  {
  }
}
