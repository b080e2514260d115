/** What clients can rely on, over every run from the initial state. */
module Theorems {
  import opened Coder
  import opened FixedSizeQueues
  import opened Framing
  import opened Protocol
  import opened ProtocolInvariants
  import opened ProtocolRuns
  import opened Records
  import opened SerialInterfaces
  import opened Wrappers

  /** `s` is what some interleaving of the reader and `n` clients leads to. */
  ghost predicate Reachable(n: nat, s: State) {
    exists run: seq<Action> :: Possible(Initial(n), run) && s == After(Initial(n), run)
  }

  lemma ReachableSafe(n: nat, s: State)
    requires Reachable(n, s)
    ensures Safe(s)
  {
    hide Safe, After, Possible;
    var run :| Possible(Initial(n), run) && s == After(Initial(n), run);
    InitialSafe(n);
    RunSafe(Initial(n), run);
  }

  // ---------- End to end ----------

  function CountTaken(exits: seq<Exit>): nat {
    if exits == [] then 0 else
      CountTaken(exits[..|exits| - 1]) + if exits[|exits| - 1].Popped? then 1 else 0
  }

  /** The positions of the taken samples in the push order. */
  function TakenPositions(exits: seq<Exit>): seq<nat> {
    if exits == [] then [] else
      var n := |exits| - 1;
      TakenPositions(exits[..n]) + if exits[n].Popped? then [n] else []
  }

  ghost predicate Increasing(p: seq<nat>) { forall j, k :: 0 <= j < k < |p| ==> p[j] < p[k] }

  lemma {:induction false} TakenAreAtPositions(pushes: seq<GpggaData>, exits: seq<Exit>)
    requires |exits| <= |pushes|
    ensures var p, d := TakenPositions(exits), Taken(pushes, exits);
            && |d| == |p| == CountTaken(exits) && Increasing(p)
            && (forall k :: 0 <= k < |p| ==> p[k] < |exits| && d[k] == pushes[p[k]])
            && (forall j :: 0 <= j < |exits| ==> (exits[j].Popped? <==> j in p))
  {
    if exits == [] {
    } else {
      var n := |exits| - 1;
      TakenAreAtPositions(pushes, exits[..n]);
      var p, p' := TakenPositions(exits[..n]), TakenPositions(exits);
      forall j | 0 <= j < |exits| ensures exits[j].Popped? <==> j in p' {
        if j < n { assert exits[j] == exits[..n][j]; }
        assert p <= p' && (j in p' <==> j in p || (exits[n].Popped? && j == n));
      }
    }
  }

  /** The samples handed out are, in order and at most once each, samples decoded from the lines the
      reader completed; every decoded sample but at most the one in the reader's hands was pushed;
      pushed = taken + evicted + queued; and a sample is evicted exactly when it is still in the queue
      as the tenth later one is pushed. */
  lemma EndToEnd(n: nat, s: State)
    requires Reachable(n, s)
    ensures var decoded, q, p := Samples(Framed(s.past.log).lines), s.queue, TakenPositions(s.queue.exits);
            && q.pushes <= decoded && |decoded| <= |q.pushes| + 1
            && |s.past.delivered| == |p| == CountTaken(q.exits) && Increasing(p)
            && (forall k :: 0 <= k < |p| ==> p[k] < |q.pushes| && s.past.delivered[k] == decoded[p[k]])
            && |q.exits| + |q.content| == |q.pushes| && q.content == q.pushes[|q.exits|..]
    ensures var q, p := s.queue, TakenPositions(s.queue.exits);
            forall k :: 0 <= k < |q.exits| ==>
              match q.exits[k]
              case Dropped(at) => k !in p && at == k + 10 < |q.pushes|
              case Popped(at) => k in p && k < at <= k + 10
  {
    ReachableSafe(n, s);
    var q := s.queue;
    assert Deliveries(s) && Accounted(q, CAPACITY);
    TakenAreAtPositions(q.pushes, q.exits);
    FlightLength(s.reader);
    hide Framed, Samples, Taken, TakenPositions, CountTaken, Safe, Reachable;
  }

  lemma FlightLength(r: Reader)
    ensures |InFlight(r)| <= 1
  {
    hide Decoding;
  }

  // ---------- Queue, mask and waiting ----------

  /** Outside the data sections the GPGGA bit says whether samples are queued, no other bit is ever
      set, and the queue never exceeds ten. */
  lemma MaskAgrees(n: nat, s: State)
    requires Reachable(n, s)
    ensures |s.queue.content| <= 10
    ensures s.dataMutex == None ==> s.received == if s.queue.content == [] then {} else {GPGGA_BIT}
  {
    ReachableSafe(n, s);
    assert QueueAndMask(s);
    hide Safe, Reachable;
  }

  /** With `data_mutex_` free, a waiter for GPGGA is blocked on a non-empty queue only while the reader
      is between its unlock and its notification. */
  lemma DataWakeupNotLost(n: nat, s: State, i: nat)
    requires Reachable(n, s) && s.dataMutex == None
    requires i < |s.clients| && IsBlocked(s.clients[i]) && GPGGA_BIT in s.clients[i].w.mask
    requires s.queue.content != []
    ensures s.reader == AtNotify
  {
    ReachableSafe(n, s);
    assert Locks(s) && NoLostWakeup(s);
    hide Safe, Reachable;
  }

  /** What each verdict of `wait_for_data` means, and when it is given. */
  lemma VerdictMeaning(n: nat, s: State, i: nat, mask: KindMask, verdict: ReturnCode, sawRunning: bool)
    requires Reachable(n, s)
    requires i < |s.clients| && s.clients[i] == InWait(WaitDone(mask, verdict, sawRunning))
    ensures GPGGA_BIT in mask ==>
              && (verdict == OK <==> s.queue.content != [])
              && (verdict == TIMEOUT <==> sawRunning && s.queue.content == [])
              && (verdict == ERROR <==> !sawRunning && s.queue.content == [])
    ensures GPGGA_BIT !in mask ==>
              && (verdict == OK <==> !sawRunning && mask != {} && s.queue.content != [])
              && (verdict == TIMEOUT <==> sawRunning)
              && (verdict == ERROR <==> !sawRunning && (mask == {} || s.queue.content == []))
  {
    ReachableSafe(n, s);
    assert Verdicts(s);
    assert VerdictIs(s.clients[i], s.queue.content != []);
    hide Safe, Reachable;
  }

  // ---------- One consumer ----------

  /** A step that takes a sample, or finds none. */
  predicate Pops(s: State, a: Action) {
    a.Continue? && a.i < |s.clients| && s.clients[a.i] == InTake(TakeCheck)
  }

  /** Nobody gets as far as popping. */
  ghost predicate NobodyPops(s: State, run: seq<Action>)
    requires Possible(s, run)
    decreases |run|
  {
    run != [] ==> !Pops(s, run[0]) && NobodyPops(Next(s, run[0]), run[1..])
  }

  lemma StepKeepsSamples(s: State, a: Action)
    requires Enabled(s, a) && s.queue.content != [] && !Pops(s, a)
    ensures Next(s, a).queue.content != []
  {
    match a
    case ReaderStep(event, result) => ReaderKeepsSamples(s, event, result);
    case Begin(_, _) =>
    case Wake(_, _) =>
    case Continue(i, fails, result) =>
      CallKeepsSamples(s, i, fails, result);
      hide ReaderNext, OpenNext, CloseNext, TakeNext, WaitNext;
  }

  lemma CallKeepsSamples(s: State, i: nat, fails: bool, result: CloseResult)
    requires i < |s.clients| && s.clients[i] != InTake(TakeCheck)
    ensures var c := s.clients[i];
            && (c.InOpen? ==> OpenNext(s, i, c.o, fails).queue == s.queue)
            && (c.InClose? ==> CloseNext(s, i, c.c, result).queue == s.queue)
            && (c.InWait? && !c.w.Blocked? ==> WaitNext(s, i, c.w, fails).queue == s.queue)
            && (c.InTake? ==> TakeNext(s, i, c.t).queue == s.queue)
  {
    hide Step, NotifyAll;
  }

  lemma ReaderKeepsSamples(s: State, event: PortEvent, result: CloseResult)
    requires ReaderEnabled(s, event) && s.queue.content != []
    ensures ReaderNext(s, event, result).queue.content != []
  {
    hide Decoding, NotifyAll;
  }

  lemma {:induction false} RunKeepsSamples(s: State, run: seq<Action>)
    requires Possible(s, run) && NobodyPops(s, run) && s.queue.content != []
    ensures After(s, run).queue.content != []
    decreases |run|
  {
    hide Next, Enabled, Pops;
    if run == [] {
    } else {
      StepKeepsSamples(s, run[0]);
      RunKeepsSamples(Next(s, run[0]), run[1..]);
    }
  }

  /** Once `wait_for_data` for GPGGA has returned OK to somebody, the next `take_next` that gets to look,
      whoever calls it, finds a sample, however many pushes, evictions, waits, closes and opens come in
      between. So a client that takes alone always gets what it waited for. */
  lemma SingleConsumer(n: nat, s: State, run: seq<Action>, w: nat, t: nat)
    requires Reachable(n, s) && w < |s.clients| && Promising(s.clients[w])
    requires Possible(s, run) && NobodyPops(s, run)
    requires var e := After(s, run); t < |e.clients| && e.clients[t] == InTake(TakeCheck)
    ensures var e := After(s, run);
            e.queue.content != []
            && TakeNext(e, t, TakeCheck).clients[t] == InTake(TakeClear(e.queue.content[0]))
  {
    VerdictMeaning(n, s, w, s.clients[w].w.mask, OK, s.clients[w].w.sawRunning);
    RunKeepsSamples(s, run);
    hide Reachable, After, Possible, NobodyPops, Step;
  }

  // ---------- Lifecycle ----------

  /** While `mutex_` is free: the thread handle says whether there is a read thread; it outlives its
      port only after a read error; and the port is open without a thread, so that the next `close` is
      fatal, if and only if `set_option` failed or the operating system refused to close the port, and
      no unjoined read error stands. */
  lemma PortAndThread(n: nat, s: State)
    requires Reachable(n, s) && s.mutex == None
    ensures s.reader != Absent <==> s.thread == Joinable
    ensures s.thread != Joined
    ensures s.portOpen && s.thread != Joinable ==> OptionFailed in s.past.faults || CloseFailed in s.past.faults
    ensures s.crash == None ==>
              (s.portOpen && s.thread != Joinable
               <==> ReadError !in s.past.faults && (OptionFailed in s.past.faults || CloseFailed in s.past.faults))
    ensures ReadError in s.past.faults ==> s.thread == Joinable
    ensures !s.portOpen && s.thread == Joinable ==> ReadError in s.past.faults
  {
    ReachableSafe(n, s);
    assert Locks(s) && Control(s);
    hide Safe, Reachable;
    NobodySees(s);
    hide Control, Locks;
  }

  /** There is at most one read thread: wherever `open` is about to start one, there is none, or the
      process is about to go down because a thread that was not joined would be overwritten. */
  lemma SpawnFindsNoReader(n: nat, s: State, i: nat, fails: bool)
    requires Reachable(n, s) && i < |s.clients| && s.clients[i] == InOpen(OpenSpawn)
    ensures s.reader == Absent || (OpenNext(s, i, OpenSpawn, fails).crash == Some(ThreadOverwritten)
                                   && ReadError in s.past.faults)
  {
    ReachableSafe(n, s);
    assert Locks(s) && Control(s);
    hide Safe, Reachable;
    OwnLocks(s, i);
    OwnerSees(s, i);
    hide Locks, Control;
  }

  /** From the moment a `close` that found an open port lets go of `mutex_`, whatever it returns, until
      an `open` starts the next routine: no reader is alive and the flag is false. */
  lemma ClosedMeansQuiet(n: nat, s: State)
    requires Reachable(n, s) && s.past.closed
    ensures s.reader == Absent && s.thread == NoThread && !s.running
  {
    ReachableSafe(n, s);
    assert Lifecycle(s);
    hide Safe, Reachable;
  }

  /** The process goes down only for these causes. */
  lemma CrashCauses(n: nat, s: State)
    requires Reachable(n, s)
    ensures s.crash == Some(JoinOfNothing) ==> OptionFailed in s.past.faults || CloseFailed in s.past.faults
    ensures s.crash == Some(ThreadOverwritten) ==> ReadError in s.past.faults
    ensures s.crash == Some(ConversionThrew) ==>
              exists line | line in Framed(s.past.log).lines :: Decoding(line) == Terminates
  {
    ReachableSafe(n, s);
    assert Crashes(s);
    hide Safe, Reachable, Decoding;
  }
}
