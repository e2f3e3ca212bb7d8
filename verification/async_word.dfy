// The asynchronous logger on 64-bit words: the same steps as in AsyncLog, with
// the queue's counters and sequence numbers wrapping at 2^64.
module AsyncWord {
  import opened RingArithmetic
  import opened MpmcQueue
  import opened MpmcWord
  import opened AsyncWorker
  import opened AsyncLog

  const NO_HISTORY: History<Msg> := History([], [], map[], map[])

  function WrapClient(c: Client): Client
  {
    match c
    case WaitingEmpty(ticket) => WaitingEmpty(ticket % WORD)
    case FlushReturned(ticket) => FlushReturned(ticket % WORD)
    case _ => c
  }

  /** The state the words hold; what they do not hold is forgotten. */
  function OnWords(g: Logger): Logger
  {
    Logger(State(WrapCore(g.q.core), NO_HISTORY), g.worker, WrapClients(g.clients))
  }

  function WrapClients(clients: map<Tid, Client>): map<Tid, Client>
  {
    map tid | tid in clients :: WrapClient(clients[tid])
  }

  lemma WrapClientsUpdate(clients: map<Tid, Client>, tid: Tid, c: Client)
    ensures WrapClients(clients[tid := c]) == WrapClients(clients)[tid := WrapClient(c)]
  {
  }

  function WordQueue(q: State<Msg>, tid: Tid, a: Action<Msg>): State<Msg>
    requires CanStep(q.core, tid, a)
  {
    q.(core := CoreStep(Word, q.core, tid, a))
  }

  /** Happen, with the queue's arithmetic on words. */
  function HappenOnWords(sinks: Sinks, g: Logger, h: Happening): Logger
    requires Possible(sinks, g, h)
  {
    match h
    case Call(tid, msg, wait) =>
      g.(q := WordQueue(g.q, tid, BeginEnqueue(msg)), clients := g.clients[tid := Pushing(msg, wait)])
    case ClientQueue(tid, a) => g.(q := WordQueue(g.q, tid, a))
    case Retry(tid) => g.(q := WordQueue(g.q, tid, BeginEnqueue(LocalOf(g, tid).msg)))
    case PollSize(tid) => g.(q := WordQueue(g.q, tid, BeginSize))
    case WorkerBegin => g.(q := WordQueue(g.q, WORKER, BeginDequeue), worker := Do(sinks, g.worker, Begin))
    case WorkerQueue(a) => g.(q := WordQueue(g.q, WORKER, a))
    case _ => Happen(sinks, g, h)
  }

  /** The thread that makes the step. */
  function Actor(h: Happening): Tid
  {
    match h
    case Call(tid, _, _) => tid
    case ClientQueue(tid, _) => tid
    case Retry(tid) => tid
    case Pushed(tid) => tid
    case PollSize(tid) => tid
    case Return(tid) => tid
    case _ => WORKER
  }

  predicate SizeOk(g: Logger)
  {
    ValidQueueSize(|g.q.core.mem.cells|) && |g.q.core.mem.cells| < WORD / 2
  }

  lemma WrapClientAt(clients: map<Tid, Client>, tid: Tid)
    requires tid in clients
    ensures tid in WrapClients(clients) && WrapClients(clients)[tid] == WrapClient(clients[tid])
  {
  }

  lemma WrapLocalOf(g: Logger, tid: Tid)
    ensures LocalOf(OnWords(g), tid) == WrapLocal(LocalOf(g, tid))
  {
  }

  lemma WordQueueRefines(sinks: Sinks, g: Logger, tid: Tid, a: Action<Msg>)
    requires LoggerInv(sinks, g) && SizeOk(g) && CanStep(g.q.core, tid, a) && Close(g.q.core.mem, LocalOf(g, tid))
    ensures CanStep(OnWords(g).q.core, tid, a)
    ensures WordQueue(OnWords(g).q, tid, a) == State(WrapCore(Next(g.q, tid, a).core), NO_HISTORY)
    ensures |Next(g.q, tid, a).core.mem.cells| == |g.q.core.mem.cells|
  {
    WordStep(g.q, tid, a);
  }

  /** Which steps are possible does not depend on the numbers. */
  lemma PossibleOnWords(sinks: Sinks, g: Logger, h: Happening)
    requires Possible(sinks, g, h)
    ensures Possible(sinks, OnWords(g), h)
  {
    WrapLocalOf(g, Actor(h));
    assert |OnWords(g).q.core.mem.cells| == |g.q.core.mem.cells|;
  }

  predicate StepsQueue(h: Happening)
  {
    h.Call? || h.ClientQueue? || h.Retry? || h.PollSize? || h.WorkerBegin? || h.WorkerQueue?
  }

  lemma QueueHappensOnWords(sinks: Sinks, g: Logger, h: Happening)
    requires LoggerInv(sinks, g) && SizeOk(g) && Possible(sinks, g, h) && Possible(sinks, OnWords(g), h)
    requires Close(g.q.core.mem, LocalOf(g, Actor(h))) && StepsQueue(h)
    ensures HappenOnWords(sinks, OnWords(g), h) == OnWords(Happen(sinks, g, h))
    ensures SizeOk(Happen(sinks, g, h))
  {
    WrapLocalOf(g, Actor(h));
    hide LoggerInv, WrapCore, CoreStep, Close, WrapClients, Do, Enabled, ValidQueueSize;
    match h
    case Call(tid, msg, wait) =>
      WordQueueRefines(sinks, g, tid, BeginEnqueue(msg));
      WrapClientsUpdate(g.clients, tid, Pushing(msg, wait));
    case ClientQueue(tid, a) => WordQueueRefines(sinks, g, tid, a);
    case Retry(tid) => WordQueueRefines(sinks, g, tid, BeginEnqueue(LocalOf(g, tid).msg));
    case PollSize(tid) => WordQueueRefines(sinks, g, tid, BeginSize);
    case WorkerBegin => WordQueueRefines(sinks, g, WORKER, BeginDequeue);
    case WorkerQueue(a) => WordQueueRefines(sinks, g, WORKER, a);
  }

  lemma RestHappensOnWords(sinks: Sinks, g: Logger, h: Happening)
    requires SizeOk(g) && Possible(sinks, g, h) && Possible(sinks, OnWords(g), h) && !StepsQueue(h)
    ensures HappenOnWords(sinks, OnWords(g), h) == OnWords(Happen(sinks, g, h))
    ensures SizeOk(Happen(sinks, g, h))
  {
    WrapLocalOf(g, Actor(h));
    if h.Pushed? || h.Return? {
      WrapClientAt(g.clients, h.tid);
      WrapClientsUpdate(g.clients, h.tid, Happen(sinks, g, h).clients[h.tid]);
    }
    hide WrapCore, WrapClients, Do, Enabled, ValidQueueSize;
  }

  /** One step of the logger on words is the wrap of one step of the unbounded
      logger. */
  lemma HappenOnWordsRefines(sinks: Sinks, g: Logger, h: Happening)
    requires LoggerInv(sinks, g) && SizeOk(g) && Possible(sinks, g, h) && Close(g.q.core.mem, LocalOf(g, Actor(h)))
    ensures Possible(sinks, OnWords(g), h)
    ensures HappenOnWords(sinks, OnWords(g), h) == OnWords(Happen(sinks, g, h))
    ensures SizeOk(Happen(sinks, g, h))
  {
    hide *;
    PossibleOnWords(sinks, g, h);
    if StepsQueue(h) {
      QueueHappensOnWords(sinks, g, h);
    } else {
      RestHappensOnWords(sinks, g, h);
    }
  }

  // ---- Whole runs ----

  ghost predicate StaysClose(sinks: Sinks, g: Logger, run: seq<Happening>)
    requires CanHappen(sinks, g, run)
    decreases |run|
  {
    run == [] || (Close(g.q.core.mem, LocalOf(g, Actor(run[0])))
                  && StaysClose(sinks, Happen(sinks, g, run[0]), run[1..]))
  }

  predicate CanHappenOnWords(sinks: Sinks, g: Logger, run: seq<Happening>)
    decreases |run|
  {
    run == [] || (Possible(sinks, g, run[0]) && CanHappenOnWords(sinks, HappenOnWords(sinks, g, run[0]), run[1..]))
  }

  function AfterOnWords(sinks: Sinks, g: Logger, run: seq<Happening>): Logger
    requires CanHappenOnWords(sinks, g, run)
    decreases |run|
  {
    if run == [] then g else AfterOnWords(sinks, HappenOnWords(sinks, g, run[0]), run[1..])
  }

  /** While compared numbers are less than 2^63 apart, and at no poll has the
      enqueue counter passed a multiple of 2^64 that the loaded dequeue counter
      has not, the logger on words does step for step what the unbounded one
      does. */
  lemma {:induction false} AfterOnWordsRefines(sinks: Sinks, g: Logger, run: seq<Happening>)
    requires LoggerInv(sinks, g) && SizeOk(g) && CanHappen(sinks, g, run) && StaysClose(sinks, g, run)
    ensures CanHappenOnWords(sinks, OnWords(g), run)
    ensures AfterOnWords(sinks, OnWords(g), run) == OnWords(After(sinks, g, run))
    decreases |run|
  {
    if run != [] {
      hide LoggerInv, SizeOk, OnWords, HappenOnWords, Happen, Possible, Close;
      HappenOnWordsRefines(sinks, g, run[0]);
      HappenPreservesInv(sinks, g, run[0]);
      AfterOnWordsRefines(sinks, Happen(sinks, g, run[0]), run[1..]);
    }
  }

  /** At any poll, a flush(true) that waits finds the queue empty on words exactly
      when the counters it loads are equal modulo 2^64 or the enqueue counter has
      wrapped past the first one. The unbounded logger finds it empty only when
      they are equal. */
  lemma FlushFindsEmptyOnWordsIff(sinks: Sinks, g: Logger, tid: Tid)
    requires LoggerInv(sinks, g) && SizeOk(g) && tid in g.clients && g.clients[tid].WaitingEmpty?
    requires LocalOf(g, tid).SizeHaveFirst?
    ensures Possible(sinks, g, ClientQueue(tid, LoadLast)) && Possible(sinks, OnWords(g), ClientQueue(tid, LoadLast))
    ensures var first := LocalOf(g, tid).first;
      var ahead := g.q.core.mem.enqueuePos - first;
      && (LocalOf(Happen(sinks, g, ClientQueue(tid, LoadLast)), tid) == SizeDone(0) <==> ahead == 0)
      && (LocalOf(HappenOnWords(sinks, OnWords(g), ClientQueue(tid, LoadLast)), tid) == SizeDone(0)
          <==> ahead % WORD == 0 || first % WORD + ahead % WORD >= WORD)
  {
    var first, last := LocalOf(g, tid).first, g.q.core.mem.enqueuePos;
    FirstBelowLast(sinks, g, tid);
    PossibleOnWords(sinks, g, ClientQueue(tid, LoadLast));
    WrapLocalOf(g, tid);
    WrappedNotAhead(first, last);
    hide LoggerInv, SizeOk, OnWords, WrapLocal, Possible, Happen, HappenOnWords;
    LastOnExact(sinks, g, tid);
    LastOnWords(sinks, g, tid);
  }

  lemma FirstBelowLast(sinks: Sinks, g: Logger, tid: Tid)
    requires LoggerInv(sinks, g) && tid in g.clients && LocalOf(g, tid).SizeHaveFirst?
    ensures LocalOf(g, tid).first <= g.q.core.mem.enqueuePos && CanStep(g.q.core, tid, LoadLast)
  {
    assert ThreadOk(g.q, tid);
  }

  lemma LastOnExact(sinks: Sinks, g: Logger, tid: Tid)
    requires LocalOf(g, tid).SizeHaveFirst? && Possible(sinks, g, ClientQueue(tid, LoadLast))
    ensures LocalOf(Happen(sinks, g, ClientQueue(tid, LoadLast)), tid) == SizeDone(0)
            <==> g.q.core.mem.enqueuePos <= LocalOf(g, tid).first
  {
  }

  lemma LastOnWords(sinks: Sinks, g: Logger, tid: Tid)
    requires LocalOf(g, tid).SizeHaveFirst? && Possible(sinks, OnWords(g), ClientQueue(tid, LoadLast))
    ensures LocalOf(HappenOnWords(sinks, OnWords(g), ClientQueue(tid, LoadLast)), tid) == SizeDone(0)
            <==> g.q.core.mem.enqueuePos % WORD <= LocalOf(g, tid).first % WORD
  {
    WrapLocalOf(g, tid);
  }

  lemma WrappedNotAhead(first: nat, last: nat)
    requires first <= last
    ensures last % WORD <= first % WORD
            <==> (last - first) % WORD == 0 || first % WORD + (last - first) % WORD >= WORD
  {
  }
}
