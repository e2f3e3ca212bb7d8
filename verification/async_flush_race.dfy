// A run in which flush(true) returns although no sink has been flushed.
module AsyncFlushRace {
  import opened RingArithmetic
  import opened MpmcQueue
  import opened AsyncWorker
  import opened AsyncLog

  lemma {:induction false} Extend(sinks: Sinks, g0: Logger, run: seq<Happening>, h: Happening)
    returns (longer: seq<Happening>)
    requires CanHappen(sinks, g0, run) && Possible(sinks, After(sinks, g0, run), h)
    ensures CanHappen(sinks, g0, longer) && After(sinks, g0, longer) == Happen(sinks, After(sinks, g0, run), h)
    decreases |run|
  {
    longer := run + [h];
    if run == [] {
      assert longer[1..] == [];
    } else {
      var rest := Extend(sinks, Happen(sinks, g0, run[0]), run[1..], h);
      longer := [run[0]] + rest;
      assert longer[1..] == rest;
    }
  }

  const ONE_SINK := Sinks([0])
  const HELLO := Log(2, "hello")

  function OneClient(): Logger
  {
    Logger(State(Core(Memory([Cell(0, Msg.Flush), Cell(1, Msg.Flush)], 0, 0), map[0 := Idle, 1 := Idle]),
                 History([], [], map[], map[])),
           STARTED, map[1 := Outside])
  }

  /** The whole of a two-cell logger with one client, except its history. */
  ghost predicate Looks(g: Logger, a: Cell<Msg>, b: Cell<Msg>, enq: nat, deq: nat,
                        l0: Local<Msg>, l1: Local<Msg>, w: Worker, c: Client)
  {
    && |g.q.core.mem.cells| == 2 && g.q.core.mem.cells[0] == a && g.q.core.mem.cells[1] == b
    && g.q.core.mem.enqueuePos == enq && g.q.core.mem.dequeuePos == deq
    && 0 in g.q.core.threads && g.q.core.threads[0] == l0
    && 1 in g.q.core.threads && g.q.core.threads[1] == l1
    && g.worker == w && g.clients.Keys == {1} && g.clients[1] == c
  }

  lemma NoSteps() returns (run: seq<Happening>)
    ensures CanHappen(ONE_SINK, OneClient(), run) && After(ONE_SINK, OneClient(), run) == OneClient()
  {
    run := [];
  }

  lemma LogTicketClaimed() returns (run: seq<Happening>)
    ensures CanHappen(ONE_SINK, OneClient(), run)
    ensures Looks(After(ONE_SINK, OneClient(), run), Cell(0, Msg.Flush), Cell(1, Msg.Flush), 1, 0,
                  Idle, EnqClaimed(0, HELLO), STARTED, Pushing(HELLO, false))
  {
    run := NoSteps();
    hide After, CanHappen;
    run := Extend(ONE_SINK, OneClient(), run, Call(1, HELLO, false));
    run := Extend(ONE_SINK, OneClient(), run, ClientQueue(1, LoadSequence));
    run := Extend(ONE_SINK, OneClient(), run, ClientQueue(1, Compare(false)));
  }

  lemma LogPushed() returns (run: seq<Happening>)
    ensures CanHappen(ONE_SINK, OneClient(), run)
    ensures Looks(After(ONE_SINK, OneClient(), run), Cell(1, HELLO), Cell(1, Msg.Flush), 1, 0,
                  Idle, EnqDone(0), STARTED, Outside)
  {
    hide After, CanHappen;
    run := LogTicketClaimed();
    run := Extend(ONE_SINK, OneClient(), run, ClientQueue(1, Move(HELLO)));
    run := Extend(ONE_SINK, OneClient(), run, ClientQueue(1, Publish));
    run := Extend(ONE_SINK, OneClient(), run, Pushed(1));
  }

  lemma FlushTicketClaimed() returns (run: seq<Happening>)
    ensures CanHappen(ONE_SINK, OneClient(), run)
    ensures Looks(After(ONE_SINK, OneClient(), run), Cell(1, HELLO), Cell(1, Msg.Flush), 2, 0,
                  Idle, EnqClaimed(1, Msg.Flush), STARTED, Pushing(Msg.Flush, true))
  {
    hide After, CanHappen;
    run := LogPushed();
    run := Extend(ONE_SINK, OneClient(), run, Call(1, Msg.Flush, true));
    run := Extend(ONE_SINK, OneClient(), run, ClientQueue(1, LoadSequence));
    run := Extend(ONE_SINK, OneClient(), run, ClientQueue(1, Compare(false)));
  }

  lemma FlushPushed() returns (run: seq<Happening>)
    ensures CanHappen(ONE_SINK, OneClient(), run)
    ensures Looks(After(ONE_SINK, OneClient(), run), Cell(1, HELLO), Cell(2, Msg.Flush), 2, 0,
                  Idle, EnqDone(1), STARTED, WaitingEmpty(1))
  {
    hide After, CanHappen;
    run := FlushTicketClaimed();
    run := Extend(ONE_SINK, OneClient(), run, ClientQueue(1, Move(Msg.Flush)));
    run := Extend(ONE_SINK, OneClient(), run, ClientQueue(1, Publish));
    run := Extend(ONE_SINK, OneClient(), run, Pushed(1));
  }

  lemma WorkerClaimsLog() returns (run: seq<Happening>)
    ensures CanHappen(ONE_SINK, OneClient(), run)
    ensures Looks(After(ONE_SINK, OneClient(), run), Cell(1, HELLO), Cell(2, Msg.Flush), 2, 1,
                  DeqClaimed(0), EnqDone(1), Worker(Popping, false, false, [], map[], []), WaitingEmpty(1))
  {
    hide After, CanHappen;
    run := FlushPushed();
    run := Extend(ONE_SINK, OneClient(), run, WorkerBegin);
    run := Extend(ONE_SINK, OneClient(), run, WorkerQueue(LoadSequence));
    run := Extend(ONE_SINK, OneClient(), run, WorkerQueue(Compare(false)));
  }

  lemma WorkerPopsLog() returns (run: seq<Happening>)
    ensures CanHappen(ONE_SINK, OneClient(), run)
    ensures Looks(After(ONE_SINK, OneClient(), run), Cell(2, HELLO), Cell(2, Msg.Flush), 2, 1,
                  DeqDone(0, HELLO), EnqDone(1), Worker(Formatting, false, false, [HELLO], map[], []), WaitingEmpty(1))
  {
    hide After, CanHappen;
    run := WorkerClaimsLog();
    run := Extend(ONE_SINK, OneClient(), run, WorkerQueue(Move(HELLO)));
    run := Extend(ONE_SINK, OneClient(), run, WorkerQueue(Publish));
    run := Extend(ONE_SINK, OneClient(), run, WorkerPop);
  }

  lemma WorkerDeliversLog() returns (run: seq<Happening>)
    ensures CanHappen(ONE_SINK, OneClient(), run)
    ensures Looks(After(ONE_SINK, OneClient(), run), Cell(2, HELLO), Cell(2, Msg.Flush), 2, 1,
                  DeqDone(0, HELLO), EnqDone(1),
                  Worker(Ready, false, false, [HELLO], map[], [Delivered(0, 0)]), WaitingEmpty(1))
  {
    hide After, CanHappen;
    run := WorkerPopsLog();
    run := Extend(ONE_SINK, OneClient(), run, WorkerAct(Format(false)));
    run := Extend(ONE_SINK, OneClient(), run, WorkerAct(Deliver(false)));
    run := Extend(ONE_SINK, OneClient(), run, WorkerAct(Deliver(false)));
  }

  lemma WorkerClaimsFlush() returns (run: seq<Happening>)
    ensures CanHappen(ONE_SINK, OneClient(), run)
    ensures Looks(After(ONE_SINK, OneClient(), run), Cell(2, HELLO), Cell(2, Msg.Flush), 2, 2,
                  DeqClaimed(1), EnqDone(1),
                  Worker(Popping, false, false, [HELLO], map[], [Delivered(0, 0)]), WaitingEmpty(1))
  {
    hide After, CanHappen;
    run := WorkerDeliversLog();
    run := Extend(ONE_SINK, OneClient(), run, WorkerBegin);
    run := Extend(ONE_SINK, OneClient(), run, WorkerQueue(LoadSequence));
    run := Extend(ONE_SINK, OneClient(), run, WorkerQueue(Compare(false)));
  }

  lemma FlushReturns() returns (run: seq<Happening>)
    ensures CanHappen(ONE_SINK, OneClient(), run)
    ensures Looks(After(ONE_SINK, OneClient(), run), Cell(2, HELLO), Cell(2, Msg.Flush), 2, 2,
                  DeqClaimed(1), SizeDone(0),
                  Worker(Popping, false, false, [HELLO], map[], [Delivered(0, 0)]), FlushReturned(1))
  {
    hide After, CanHappen;
    run := WorkerClaimsFlush();
    run := Extend(ONE_SINK, OneClient(), run, PollSize(1));
    run := Extend(ONE_SINK, OneClient(), run, ClientQueue(1, LoadLast));
    run := Extend(ONE_SINK, OneClient(), run, Return(1));
  }

  /** flush(true) may return while the flush message is still in the worker's
      hands: the earlier message has been delivered, but no sink was flushed. */
  lemma FlushMayReturnBeforeSinksAreFlushed() returns (run: seq<Happening>)
    ensures Initial(OneClient()) && CanHappen(ONE_SINK, OneClient(), run)
    ensures var g := After(ONE_SINK, OneClient(), run);
            && 1 in g.clients && g.clients[1] == FlushReturned(1)
            && g.worker.taken == [HELLO] && Unflushed(g.worker.events, 0) == [0]
  {
    AndPow2IsZero(1);
    run := FlushReturns();
    Snoc([], Delivered(0, 0), 0);
  }
}
