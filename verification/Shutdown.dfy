/** `close` and progress: what the join waits for, when it ends, when everything is stuck, and which
    waiters a stop reaches. */
module Shutdown {
  import opened Coder
  import opened FixedSizeQueues
  import opened Framing
  import opened Protocol
  import opened ProtocolInvariants
  import opened ProtocolRuns
  import opened SerialInterfaces
  import opened Wrappers

  /** Client `i` waits in the join. */
  predicate InJoin(s: State, i: nat) { i < |s.clients| && Joining(s.clients[i]) }

  /** The reader is blocked in a read of an open port. */
  predicate ReadsDevice(s: State) { s.portOpen && s.reader.Reading? }

  /** The reader is in such a read, or on its way into one that only the device can end. */
  predicate NeedsDevice(s: State) { s.portOpen && (s.reader.AtReadLine? || s.reader.Reading?) }

  /** A step the device has to provide. */
  predicate FromDevice(s: State, a: Action) { a.ReaderStep? && ReadsDevice(s) }

  /** The device delivers a character that does not complete the line. */
  predicate Chatter(s: State, a: Action) {
    FromDevice(s, a) && a.event.Byte? && a.event.c != '\n'
  }

  /** How many steps the reader has left once the flag is down, device chatter aside. */
  function ReaderRank(r: Reader, portOpen: bool): nat {
    match r
    case Absent => 0
    case Returned => 0
    case AtLoop => 1
    case AtNotify => 2
    case Notifying => 2
    case AtUnlock => 3
    case Storing => 3
    case AtSet => 4
    case Closing => 4
    case AtPush(_) => 5
    case WantsData(_) => 6
    case AtDecode(_) => 7
    case Reading(_) => if portOpen then 8 else 5
    case AtReadLine => if portOpen then 9 else 4
  }

  /** How many steps a client has left before it releases `data_mutex_`. */
  function HolderRank(c: Client): nat {
    match c
    case InTake(TakeCheck) => 3
    case InTake(TakeClear(_)) => 2
    case InTake(TakeRelease(_)) => 1
    case InWait(WaitTest(_, _)) => 3
    case InWait(AboutToBlock(_)) => 1
    case InWait(WaitVerdict(_, _, _)) => 2
    case InWait(WaitDone(_, _, _)) => 1
    case _ => 0
  }

  function Rank(s: State): nat {
    4 * ReaderRank(s.reader, s.portOpen) +
    match s.dataMutex
    case Some(ByClient(j)) => if j < |s.clients| then HolderRank(s.clients[j]) else 0
    case _ => 0
  }

  lemma JoinerKnows(s: State, i: nat)
    requires Locks(s) && Control(s) && InJoin(s, i)
    ensures s.mutex == Some(i) && !s.running
    ensures forall j | 0 <= j < |s.clients| && j != i :: !HoldsMutex(s.clients[j])
    ensures s.portOpen ==> CloseFailed in s.past.faults
  {
    assert OwnerKnows(s, s.clients[i]);
    assert HoldsMutex(s.clients[i]);
    OthersOutside(s, i);
  }

  // ---------- One step while a closer waits ----------

  /** A reader step moves the reader strictly closer to its end, unless the device only chatters. */
  lemma ReaderRunsDown(s: State, event: PortEvent, result: CloseResult)
    requires s.crash == None && ReaderEnabled(s, event) && !s.running
    requires ReaderNext(s, event, result).crash == None
    ensures var s', a := ReaderNext(s, event, result), ReaderStep(event, result);
            && (s'.portOpen ==> s.portOpen)
            && ReaderRank(s'.reader, s'.portOpen)
               <= ReaderRank(s.reader, s.portOpen) - (if Chatter(s, a) then 0 else 1)
            && (NeedsDevice(s') ==> NeedsDevice(s))
            && (NeedsDevice(s) && !FromDevice(s, a) ==> NeedsDevice(s'))
  {
    hide Decoding, Step, NotifyAll;
  }

  /** While closer `i` waits, what the others do. */
  lemma OthersKeepJoining(s: State, i: nat, a: Action)
    requires Locks(s) && Control(s) && Enabled(s, a) && InJoin(s, i) && !(a.Continue? && a.i == i)
    requires Next(s, a).crash == None
    ensures InJoin(Next(s, a), i)
    ensures !a.ReaderStep? ==> Next(s, a).reader == s.reader && Next(s, a).portOpen == s.portOpen
    ensures ReaderRank(Next(s, a).reader, Next(s, a).portOpen)
            <= ReaderRank(s.reader, s.portOpen) - (if a.ReaderStep? && !Chatter(s, a) then 1 else 0)
    ensures NeedsDevice(Next(s, a)) ==> NeedsDevice(s)
    ensures NeedsDevice(s) && !FromDevice(s, a) ==> NeedsDevice(Next(s, a))
  {
    JoinerKnows(s, i);
    hide Locks, Control, ReaderRank;
    match a
    case ReaderStep(event, result) =>
      ReaderRunsDown(s, event, result);
      ReaderKeepsJoiner(s, i, event, result);
      hide ReaderNext;
    case Begin(_, _) => ClientKeepsJoiner(s, i, a);
    case Continue(_, _, _) => ClientKeepsJoiner(s, i, a);
    case Wake(_, _) => ClientKeepsJoiner(s, i, a);
  }

  lemma ReaderKeepsJoiner(s: State, i: nat, event: PortEvent, result: CloseResult)
    requires ReaderEnabled(s, event) && InJoin(s, i)
    ensures InJoin(ReaderNext(s, event, result), i)
  {
    ReaderOnlyWakes(s, event, result);
    hide ReaderNext;
  }

  lemma ClientKeepsJoiner(s: State, i: nat, a: Action)
    requires Enabled(s, a) && InJoin(s, i) && !a.ReaderStep? && !(a.Continue? && a.i == i)
    requires s.mutex == Some(i) && forall j | 0 <= j < |s.clients| && j != i :: !HoldsMutex(s.clients[j])
    ensures Undisturbed(s, Next(s, a), i)
  {
    match a
    case Begin(_, _) =>
    case Wake(_, _) =>
    case Continue(j, fails, result) =>
      assert !HoldsMutex(s.clients[j]);
      OutsiderStep(s, i, j, fails, result);
      hide OpenNext, CloseNext, TakeNext, WaitNext;
  }

  /** A client outside the `mutex_` sections, which cannot enter them either. */
  lemma OutsiderStep(s: State, i: nat, j: nat, fails: bool, result: CloseResult)
    requires s.crash == None && s.mutex == Some(i) && j < |s.clients| && j != i
    requires ContinueEnabled(s, j) && !HoldsMutex(s.clients[j]) && InJoin(s, i)
    ensures !s.clients[j].InOpen?
    ensures s.clients[j].InClose? ==> Undisturbed(s, CloseNext(s, j, s.clients[j].c, result), i)
    ensures s.clients[j].InTake? ==> Undisturbed(s, TakeNext(s, j, s.clients[j].t), i)
    ensures s.clients[j].InWait? ==> Undisturbed(s, WaitNext(s, j, s.clients[j].w, fails), i)
  {
    hide OpenNext, CloseNext, TakeNext, WaitNext;
    CallTouchesItself(s, j, fails, result);
    match s.clients[j]
    case InOpen(_) =>
    case InClose(c) => NotifyFrame(s, j, c, result);
    case InTake(t) => TakeFrame(s, j, t);
    case InWait(w) => WaitFrame(s, j, w, fails);
  }

  lemma NotifyFrame(s: State, j: nat, c: ClosePoint, result: CloseResult)
    requires j < |s.clients| && c.CloseNotify?
    ensures var s' := CloseNext(s, j, c, result);
            s'.reader == s.reader && s'.portOpen == s.portOpen && s'.crash == s.crash
  {
    hide NotifyAll;
  }

  lemma TakeFrame(s: State, j: nat, t: TakePoint)
    requires j < |s.clients|
    ensures var s' := TakeNext(s, j, t);
            s'.reader == s.reader && s'.portOpen == s.portOpen && s'.crash == s.crash
  {
    hide Step;
  }

  predicate Undisturbed(s: State, s': State, i: nat) {
    InJoin(s', i) && s'.reader == s.reader && s'.portOpen == s.portOpen && s'.crash == None
  }

  // ---------- The reader runs out of steps ----------

  /** The reader's steps in a run, device chatter not counted. */
  function ReaderSteps(s: State, run: seq<Action>): nat
    requires Possible(s, run)
    decreases |run|
  {
    if run == [] then 0 else
      (if run[0].ReaderStep? && !Chatter(s, run[0]) then 1 else 0) + ReaderSteps(Next(s, run[0]), run[1..])
  }

  predicate Without(run: seq<Action>, i: nat) {
    forall k | 0 <= k < |run| :: !(run[k].Continue? && run[k].i == i)
  }

  /** Whatever the schedule, the reader takes at most seven more steps, or nine on a port that refused
      to close; when it has taken them all it has returned and the join can proceed. */
  lemma {:induction false} ReaderStepsBounded(s: State, i: nat, run: seq<Action>)
    requires Safe(s) && InJoin(s, i) && Possible(s, run) && Without(run, i)
    ensures ReaderRank(s.reader, s.portOpen) <= if s.portOpen then 9 else 7
    ensures var e := After(s, run);
            e.crash == None ==>
              InJoin(e, i) && ReaderSteps(s, run) + ReaderRank(e.reader, e.portOpen) <= ReaderRank(s.reader, s.portOpen)
    decreases |run|
  {
    hide Safe, Next, Enabled, ReaderRank, InJoin, Chatter;
    RankBound(s);
    if run == [] {
    } else {
      var a, s' := run[0], Next(s, run[0]);
      SafeParts(s);
      NextSafe(s, a);
      if s'.crash == None {
        OthersKeepJoining(s, i, a);
        ReaderStepsBounded(s', i, run[1..]);
      } else {
        CrashEnds(s', run[1..]);
      }
    }
  }

  lemma RankBound(s: State)
    ensures ReaderRank(s.reader, s.portOpen) <= if s.portOpen then 9 else 7
  {
  }

  lemma SafeParts(s: State)
    requires Safe(s)
    ensures Locks(s) && Control(s) && Lifecycle(s)
  {
  }

  lemma CrashEnds(s: State, run: seq<Action>)
    requires s.crash != None && Possible(s, run)
    ensures run == []
  {
  }

  // ---------- The join ends ----------

  /** While the reader is not done and needs nothing from the device, it can step, or the client holding
      `data_mutex_` can, and that step brings the join closer. */
  lemma SomebodyMoves(s: State, i: nat) returns (a: Action)
    requires Safe(s) && s.crash == None && InJoin(s, i) && s.thread == Joinable && s.reader != Returned
    ensures Enabled(s, a) && !(a.Continue? && a.i == i) && !Chatter(s, a)
    ensures a.ReaderStep? || (a.Continue? && a.i < |s.clients| && HoldsData(s.clients[a.i]))
    ensures Next(s, a).crash == None ==> Rank(Next(s, a)) < Rank(s) && Next(s, a).thread == Joinable
  {
    SafeParts(s);
    JoinerKnows(s, i);
    if ReaderEnabled(s, Aborted) {
      a := ReaderStep(Aborted, Closed);
      hide Locks, Control, Lifecycle, Safe;
      ReaderRankStep(s);
    } else {
      match s.dataMutex {
        case Some(ByClient(j)) =>
          OwnLocks(s, j);
          a := Continue(j, false, Closed);
          hide Locks, Control, Lifecycle, Safe;
          HolderRunsDown(s, j);
      }
    }
  }

  lemma ReaderRankStep(s: State)
    requires s.crash == None && ReaderEnabled(s, Aborted) && !s.running
    ensures var s' := ReaderNext(s, Aborted, Closed);
            s'.thread == s.thread && (s'.crash == s.crash ==> Rank(s') < Rank(s))
  {
    hide ReaderNext, ReaderRank, HolderRank;
    var s' := ReaderNext(s, Aborted, Closed);
    if s'.crash == s.crash {
      ReaderRunsDown(s, Aborted, Closed);
    }
    HolderBound(s);
    HolderBound(s');
    ReaderKeepsThread(s);
  }

  lemma HolderBound(s: State)
    ensures 4 * ReaderRank(s.reader, s.portOpen) <= Rank(s) <= 4 * ReaderRank(s.reader, s.portOpen) + 3
  {
  }

  lemma ReaderKeepsThread(s: State)
    requires ReaderEnabled(s, Aborted)
    ensures ReaderNext(s, Aborted, Closed).thread == s.thread
  {
    hide Decoding, Step, NotifyAll;
  }

  lemma HolderRunsDown(s: State, j: nat)
    requires s.crash == None && j < |s.clients| && HoldsData(s.clients[j]) && s.dataMutex == Some(ByClient(j))
    ensures ContinueEnabled(s, j)
    ensures var s' := Next(s, Continue(j, false, Closed));
            Rank(s') < Rank(s) && s'.thread == s.thread && s'.crash == None
  {
    hide Step, ReaderRank, OpenNext, CloseNext, ReaderNext;
    if s.clients[j].InTake? {
      hide WaitNext;
    } else {
      hide TakeNext;
    }
  }

  /** No step of the run is the device's. */
  ghost predicate NoDevice(s: State, run: seq<Action>)
    requires Possible(s, run)
    decreases |run|
  {
    run != [] ==> !FromDevice(s, run[0]) && NoDevice(Next(s, run[0]), run[1..])
  }

  /** The join of `i` can proceed, or a conversion has brought the process down. */
  predicate JoinOver(e: State, i: nat) {
    e.crash == Some(ConversionThrew)
    || (e.crash == None && InJoin(e, i) && e.thread == Joinable && e.reader == Returned
        && Enabled(e, Continue(i, false, Closed)))
  }

  /** From every such state the join completes within the steps of the reader and of the threads it
      waits for, unless decoding the line in the reader's hands brings the process down. The device is
      asked for something only if the reader needs it. */
  lemma {:induction false} CloseCompletes(s: State, i: nat) returns (run: seq<Action>)
    requires Safe(s) && s.crash == None && InJoin(s, i) && s.thread == Joinable
    ensures Possible(s, run) && Without(run, i) && JoinOver(After(s, run), i)
    ensures !NeedsDevice(s) ==> NoDevice(s, run)
    decreases Rank(s)
  {
    hide *;
    if s.reader == Returned {
      run := ReadyToJoin(s, i);
    } else {
      var a, s' := JoinCloser(s, i);
      if s'.crash == None {
        var rest := CloseCompletes(s', i);
        run := FirstStep(s, a, rest, i);
      } else {
        var rest := CrashedRun(s', i);
        run := FirstStep(s, a, rest, i);
      }
    }
  }

  lemma ReadyToJoin(s: State, i: nat) returns (run: seq<Action>)
    requires s.crash == None && InJoin(s, i) && s.thread == Joinable && s.reader == Returned
    ensures Possible(s, run) && Without(run, i) && JoinOver(After(s, run), i) && NoDevice(s, run)
  {
    run := [];
  }

  lemma CrashedRun(s: State, i: nat) returns (run: seq<Action>)
    requires s.crash == Some(ConversionThrew)
    ensures Possible(s, run) && Without(run, i) && JoinOver(After(s, run), i) && NoDevice(s, run)
  {
    run := [];
  }

  lemma FirstStep(s: State, a: Action, rest: seq<Action>, i: nat) returns (run: seq<Action>)
    requires Enabled(s, a) && Possible(Next(s, a), rest) && Without(rest, i) && !(a.Continue? && a.i == i)
    ensures Possible(s, run) && Without(run, i) && After(s, run) == After(Next(s, a), rest)
    ensures !FromDevice(s, a) && NoDevice(Next(s, a), rest) ==> NoDevice(s, run)
  {
    hide Enabled, Next, FromDevice;
    run := [a] + rest;
    assert run[1..] == rest;
  }

  /** One step on the way. */
  lemma JoinCloser(s: State, i: nat) returns (a: Action, s': State)
    requires Safe(s) && s.crash == None && InJoin(s, i) && s.thread == Joinable && s.reader != Returned
    ensures Enabled(s, a) && !(a.Continue? && a.i == i) && s' == Next(s, a)
    ensures s'.crash in {None, Some(ConversionThrew)}
    ensures s'.crash == None ==> Safe(s') && InJoin(s', i) && s'.thread == Joinable && Rank(s') < Rank(s)
    ensures !NeedsDevice(s) ==> !FromDevice(s, a) && (s'.crash == None ==> !NeedsDevice(s'))
  {
    hide Next, InJoin, Rank, HoldsData, Safe, Enabled, ReaderRank;
    a := SomebodyMoves(s, i);
    SafeParts(s);
    NextSafe(s, a);
    OnlyConversion(s, a);
    s' := Next(s, a);
    if s'.crash == None {
      OthersKeepJoining(s, i, a);
    }
  }

  lemma OnlyConversion(s: State, a: Action)
    requires Enabled(s, a) && (a.ReaderStep? || (a.Continue? && HoldsData(s.clients[a.i])))
    ensures Next(s, a).crash in {None, Some(ConversionThrew)}
  {
    hide Decoding, Step, NotifyAll;
  }

  // ---------- What the join waits for ----------

  lemma OutsidersDoNotCrash(s: State, i: nat, a: Action)
    requires Locks(s) && Control(s) && Enabled(s, a) && InJoin(s, i) && !(a.Continue? && a.i == i)
    requires a.ReaderStep? ==> !s.reader.AtDecode?
    ensures Next(s, a).crash == None
  {
    JoinerKnows(s, i);
    hide Locks, Control;
    match a
    case ReaderStep(event, result) =>
      ReaderAlive(s, event, result);
      hide ReaderNext;
    case Begin(_, _) => ClientKeepsJoiner(s, i, a);
    case Continue(_, _, _) => ClientKeepsJoiner(s, i, a);
    case Wake(_, _) => ClientKeepsJoiner(s, i, a);
  }

  /** As long as the device is silent, whatever the other threads do, the closer stays in the join, and
      so `mutex_` stays taken. */
  lemma {:induction false} SilenceKeepsWaiting(s: State, i: nat, run: seq<Action>)
    requires Safe(s) && s.crash == None && InJoin(s, i) && NeedsDevice(s)
    requires Possible(s, run) && Without(run, i) && NoDevice(s, run)
    ensures After(s, run).crash == None && InJoin(After(s, run), i) && NeedsDevice(After(s, run))
    ensures After(s, run).mutex == Some(i)
    decreases |run|
  {
    hide Safe, Next, Enabled, InJoin, FromDevice;
    SafeParts(s);
    JoinerKnows(s, i);
    if run == [] {
    } else {
      var a := run[0];
      OutsidersDoNotCrash(s, i, a);
      OthersKeepJoining(s, i, a);
      NextSafe(s, a);
      SilenceKeepsWaiting(Next(s, a), i, run[1..]);
    }
  }

  /** The join can end without the device if and only if the reader is not in, or on its way into, a
      read of a port that the operating system refused to close. */
  lemma JoinNeedsDevice(s: State, i: nat)
    requires Safe(s) && s.crash == None && InJoin(s, i) && s.thread == Joinable
    ensures (exists run: seq<Action> ::
               Possible(s, run) && Without(run, i) && NoDevice(s, run) && JoinOver(After(s, run), i))
            <==> !NeedsDevice(s)
    ensures NeedsDevice(s) ==> CloseFailed in s.past.faults
  {
    SafeParts(s);
    JoinerKnows(s, i);
    hide Safe, Locks, Control, Lifecycle, Possible, After, NoDevice, Enabled, InJoin;
    if NeedsDevice(s) {
      forall run: seq<Action> | Possible(s, run) && Without(run, i) && NoDevice(s, run)
        ensures !JoinOver(After(s, run), i)
      {
        SilenceKeepsWaiting(s, i, run);
      }
    } else {
      var run := CloseCompletes(s, i);
    }
  }

  // ---------- Deadlock ----------

  /** A step some thread can take by itself. */
  predicate Moves(s: State, a: Action) {
    Enabled(s, a) && (a.ReaderStep? || a.Continue?) && !FromDevice(s, a)
  }

  /** Outside every call, asleep in the wait, wanting `mutex_`, or waiting in the join. */
  predicate Stands(c: Client) { c == Idle || IsBlocked(c) || WantsMutex(c) || Joining(c) }

  /** A closer joins a reader that is blocked in a device read on an open port, and nobody else is under
      way. */
  ghost predicate Hung(s: State) {
    ReadsDevice(s) && OwnerIs(s, Joining) && forall j | 0 <= j < |s.clients| :: Stands(s.clients[j])
  }

  /** Whoever holds `data_mutex_` can step. */
  lemma DataNotStuck(s: State) returns (a: Action)
    requires Locks(s) && s.crash == None && s.dataMutex != None
    ensures Moves(s, a)
  {
    match s.dataMutex {
      case Some(ByReader) =>
        a := ReaderStep(Aborted, Closed);
      case Some(ByClient(j)) =>
        OwnLocks(s, j);
        a := Continue(j, false, Closed);
    }
  }

  lemma UnderWayNotStuck(s: State, j: nat) returns (a: Action)
    requires Locks(s) && s.crash == None && j < |s.clients| && !Stands(s.clients[j])
    ensures Moves(s, a)
  {
    if ContinueEnabled(s, j) {
      a := Continue(j, false, Closed);
    } else {
      a := DataNotStuck(s);
    }
  }

  /** The read thread a closer waits for has returned, or can step, or waits for a holder of
      `data_mutex_` that can. */
  lemma JoinNotStuck(s: State, k: nat) returns (a: Action)
    requires Locks(s) && Lifecycle(s) && s.crash == None && InJoin(s, k) && !ReadsDevice(s)
    ensures Moves(s, a)
  {
    OwnLocks(s, k);
    if ContinueEnabled(s, k) {
      a := Continue(k, false, Closed);
    } else if ReaderEnabled(s, Aborted) {
      a := ReaderStep(Aborted, Closed);
    } else {
      a := DataNotStuck(s);
    }
  }

  lemma SomeMove(s: State, i: nat) returns (a: Action)
    requires Locks(s) && Lifecycle(s) && s.crash == None && !Hung(s)
    requires i < |s.clients| && s.clients[i] != Idle && !IsBlocked(s.clients[i])
    ensures Moves(s, a)
  {
    OwnLocks(s, i);
    if j :| 0 <= j < |s.clients| && !Stands(s.clients[j]) {
      a := UnderWayNotStuck(s, j);
    } else if WantsMutex(s.clients[i]) && s.mutex == None {
      a := Continue(i, false, Closed);
    } else {
      var k := s.mutex.value;
      OwnLocks(s, k);
      assert Stands(s.clients[k]);
      a := JoinNotStuck(s, k);
    }
  }

  lemma HungStands(s: State, a: Action)
    requires Locks(s) && Lifecycle(s) && Hung(s)
    ensures !Moves(s, a)
  {
    if a.Continue? && a.i < |s.clients| {
      assert Stands(s.clients[a.i]);
      OwnLocks(s, a.i);
    }
  }

  /** While any client is inside a call and not asleep in the wait, some thread can take a step by
      itself if and only if the system does not hang in a join on a silent device; and it hangs only
      after the operating system refused to close the port. */
  lemma NoDeadlock(s: State, i: nat)
    requires Safe(s) && s.crash == None && i < |s.clients| && s.clients[i] != Idle && !IsBlocked(s.clients[i])
    ensures (exists a: Action :: Moves(s, a)) <==> !Hung(s)
    ensures Hung(s) ==> CloseFailed in s.past.faults
  {
    SafeParts(s);
    if Hung(s) {
      JoinerKnows(s, s.mutex.value);
      hide Safe, Control, Locks, Lifecycle, Hung, Moves;
      forall a: Action ensures !Moves(s, a) {
        HungStands(s, a);
      }
    } else {
      hide Safe, Control, Locks, Lifecycle, Hung, Moves;
      var a := SomeMove(s, i);
    }
  }

  // ---------- The stop wake-up ----------

  /** Inside a `close` that found an open port, up to its notification. */
  predicate Stopping(c: Client) {
    c.InClose? && !c.c.CloseWants? && !c.c.CloseCheck? && (c.c.CloseRelease? ==> c.c.notify)
  }

  /** Client `j` stays asleep in the wait all along the run. */
  ghost predicate SleepsThrough(s: State, run: seq<Action>, j: nat)
    requires Possible(s, run)
    decreases |run|
  {
    && j < |s.clients| && IsBlocked(s.clients[j])
    && (run != [] ==> SleepsThrough(Next(s, run[0]), run[1..], j))
  }

  lemma StepKeepsStopping(s: State, a: Action, i: nat, j: nat)
    requires Enabled(s, a) && i < |s.clients| && Stopping(s.clients[i]) && j < |s.clients| && IsBlocked(s.clients[j])
    requires j < |Next(s, a).clients| && IsBlocked(Next(s, a).clients[j])
    ensures i < |Next(s, a).clients| && Stopping(Next(s, a).clients[i])
  {
    match a
    case ReaderStep(event, result) =>
      ReaderOnlyWakes(s, event, result);
      hide ReaderNext;
    case Begin(_, _) =>
    case Wake(_, _) =>
    case Continue(k, fails, result) =>
      if k == i {
        CloseGoesOn(s, i, s.clients[i].c, result);
      } else {
        CallTouchesItself(s, k, fails, result);
      }
      hide ReaderNext, OpenNext, CloseNext, TakeNext, WaitNext;
  }

  lemma ReaderOnlyWakes(s: State, event: PortEvent, result: CloseResult)
    requires ReaderEnabled(s, event)
    ensures var s' := ReaderNext(s, event, result); s'.clients == s.clients || s'.clients == NotifyAll(s.clients)
  {
    hide Decoding, Step, NotifyAll;
  }

  lemma CloseGoesOn(s: State, i: nat, c: ClosePoint, result: CloseResult)
    requires i < |s.clients| && s.clients[i] == InClose(c) && Stopping(s.clients[i])
    ensures var s' := CloseNext(s, i, c, result);
            |s'.clients| == |s.clients| &&
            if c.CloseNotify? then forall j | 0 <= j < |s.clients| :: !IsBlocked(s'.clients[j])
            else Stopping(s'.clients[i])
  {
  }

  lemma CallTouchesItself(s: State, k: nat, fails: bool, result: CloseResult)
    requires k < |s.clients| && ContinueEnabled(s, k)
    ensures var c := s.clients[k];
            && (c.InOpen? ==> OnlyTouches(s, OpenNext(s, k, c.o, fails), k))
            && (c.InClose? ==> OnlyTouches(s, CloseNext(s, k, c.c, result), k))
            && (c.InTake? ==> OnlyTouches(s, TakeNext(s, k, c.t), k))
            && (c.InWait? ==> OnlyTouches(s, WaitNext(s, k, c.w, fails), k))
  {
    hide OpenNext, CloseNext, TakeNext, WaitNext, OnlyTouches;
    match s.clients[k]
    case InOpen(o) => OpenTouchesItself(s, k, o, fails);
    case InClose(c) => CloseTouchesItself(s, k, c, result);
    case InTake(t) => TakeTouchesItself(s, k, t);
    case InWait(w) => WaitFrame(s, k, w, fails); OneClientTouched(s, WaitNext(s, k, w, fails), k);
  }

  lemma OneClientTouched(s: State, s': State, k: nat)
    requires OnlyClient(s, s', k)
    ensures OnlyTouches(s, s', k)
  {
  }

  lemma OpenTouchesItself(s: State, k: nat, o: OpenPoint, fails: bool)
    requires k < |s.clients|
    ensures OnlyTouches(s, OpenNext(s, k, o, fails), k)
  {
  }

  lemma TakeTouchesItself(s: State, k: nat, t: TakePoint)
    requires k < |s.clients|
    ensures OnlyTouches(s, TakeNext(s, k, t), k)
  {
    hide Step;
  }

  lemma CloseTouchesItself(s: State, k: nat, c: ClosePoint, result: CloseResult)
    requires k < |s.clients|
    ensures OnlyTouches(s, CloseNext(s, k, c, result), k)
  {
  }

  /** The other clients stay where they are, or are woken. */
  predicate OnlyTouches(s: State, s': State, k: nat) {
    |s'.clients| == |s.clients| &&
    forall j | 0 <= j < |s.clients| && j != k ::
      s'.clients[j] == s.clients[j] || (IsBlocked(s.clients[j]) && s'.clients[j].InWait? && s'.clients[j].w.Woken?)
  }

  /** No `close` returns over the head of a sleeper: a waiter that was asleep once `close` had found an
      open port is woken before that `close` is over. */
  lemma {:induction false} StopWakesSleepers(s: State, run: seq<Action>, i: nat, j: nat)
    requires Possible(s, run) && SleepsThrough(s, run, j) && i < |s.clients| && Stopping(s.clients[i])
    ensures i < |After(s, run).clients| && Stopping(After(s, run).clients[i])
    decreases |run|
  {
    hide Next, Enabled, Stopping, IsBlocked;
    if run == [] {
    } else {
      StepKeepsStopping(s, run[0], i, j);
      StopWakesSleepers(Next(s, run[0]), run[1..], i, j);
    }
  }

  /** No client sets the flag again. */
  ghost predicate NoStart(s: State, run: seq<Action>)
    requires Possible(s, run)
    decreases |run|
  {
    run != [] ==> !Starts(s, run[0]) && NoStart(Next(s, run[0]), run[1..])
  }

  predicate Starts(s: State, a: Action) {
    a.Continue? && a.i < |s.clients| && s.clients[a.i] == InOpen(OpenStore)
  }

  /** Past the test of the waiting predicate, and not woken. */
  predicate Sleepy(c: Client) { c.InWait? && (c.w.AboutToBlock? || c.w.Blocked?) }

  /** With the flag down no step takes a waiter past the test into sleep. */
  lemma StepMakesNoSleeper(s: State, a: Action, j: nat)
    requires Enabled(s, a) && !s.running && !Starts(s, a)
    ensures !Next(s, a).running && |Next(s, a).clients| == |s.clients|
    ensures j < |s.clients| && Sleepy(Next(s, a).clients[j]) ==> Sleepy(s.clients[j])
  {
    match a
    case ReaderStep(event, result) =>
      ReaderOnlyWakes(s, event, result);
      ReaderDoesNotStart(s, event, result);
      hide ReaderNext;
    case Begin(_, _) =>
    case Wake(_, _) =>
    case Continue(k, fails, result) =>
      CallTouchesItself(s, k, fails, result);
      CallMakesNoSleeper(s, k, fails, result);
      hide ReaderNext, OpenNext, CloseNext, TakeNext, WaitNext;
  }

  lemma ReaderDoesNotStart(s: State, event: PortEvent, result: CloseResult)
    requires ReaderEnabled(s, event) && !s.running
    ensures !ReaderNext(s, event, result).running
  {
    hide Decoding, Step, NotifyAll;
  }

  predicate StaysAwake(s: State, s': State, k: nat) {
    !s'.running && k < |s.clients| == |s'.clients| && (Sleepy(s'.clients[k]) ==> Sleepy(s.clients[k]))
  }

  lemma CallMakesNoSleeper(s: State, k: nat, fails: bool, result: CloseResult)
    requires k < |s.clients| && ContinueEnabled(s, k) && !s.running && s.clients[k] != InOpen(OpenStore)
    ensures var c := s.clients[k];
            && (c.InOpen? ==> StaysAwake(s, OpenNext(s, k, c.o, fails), k))
            && (c.InClose? ==> StaysAwake(s, CloseNext(s, k, c.c, result), k))
            && (c.InTake? ==> StaysAwake(s, TakeNext(s, k, c.t), k))
            && (c.InWait? ==> StaysAwake(s, WaitNext(s, k, c.w, fails), k))
  {
    if s.clients[k].InClose? {
      CloseMakesNoSleeper(s, k, s.clients[k].c, result);
    }
    hide Step, NotifyAll, CloseNext;
  }

  lemma CloseMakesNoSleeper(s: State, k: nat, c: ClosePoint, result: CloseResult)
    requires k < |s.clients| && s.clients[k] == InClose(c) && !s.running
    ensures StaysAwake(s, CloseNext(s, k, c, result), k)
  {
  }

  /** After a stop, until the next start, nobody who is asleep or about to block was not so already. */
  lemma {:induction false} NoNewSleepers(s: State, run: seq<Action>, j: nat)
    requires Possible(s, run) && !s.running && NoStart(s, run) && j < |s.clients|
    ensures j < |After(s, run).clients| && (Sleepy(After(s, run).clients[j]) ==> Sleepy(s.clients[j]))
    decreases |run|
  {
    hide Next, Enabled, Starts, Sleepy;
    if run == [] {
    } else {
      StepMakesNoSleeper(s, run[0], j);
      NoNewSleepers(Next(s, run[0]), run[1..], j);
    }
  }

  /** Some run without a new start puts `j` to sleep. */
  ghost predicate CanOversleep(s: State, j: nat) {
    exists run: seq<Action> ::
      Possible(s, run) && NoStart(s, run) && j < |After(s, run).clients| && IsBlocked(After(s, run).clients[j])
  }

  /** At a notification that leaves nobody blocked, with the flag down: a client can still come to sleep
      before the next start if and only if it has tested the predicate and is about to block. */
  lemma StopMissesExactly(s: State, j: nat)
    requires s.crash == None && !s.running && j < |s.clients|
    requires forall k | 0 <= k < |s.clients| :: !IsBlocked(s.clients[k])
    ensures CanOversleep(s, j) <==> s.clients[j].InWait? && s.clients[j].w.AboutToBlock?
  {
    if CanOversleep(s, j) {
      var run: seq<Action> :|
        Possible(s, run) && NoStart(s, run) && j < |After(s, run).clients| && IsBlocked(After(s, run).clients[j]);
      NoNewSleepers(s, run, j);
    }
    if s.clients[j].InWait? && s.clients[j].w.AboutToBlock? {
      BlockNow(s, j);
    }
  }

  lemma BlockNow(s: State, j: nat)
    requires s.crash == None && j < |s.clients| && s.clients[j].InWait? && s.clients[j].w.AboutToBlock?
    ensures CanOversleep(s, j)
  {
    var a := Proceed(j);
    var run, e := Solo(s, a);
    assert NoStart(e, run[1..]);
    assert NoStart(s, run);
    assert IsBlocked(e.clients[j]);
  }

  /** The notification of `close` by client `i`, with the flag still down: exactly the clients about to
      block can miss the stop. */
  lemma CloseNotificationMisses(s: State, i: nat, code: ReturnCode, j: nat)
    requires s.crash == None && !s.running && i < |s.clients| && s.clients[i] == InClose(CloseNotify(code))
    requires j < |s.clients|
    ensures Enabled(s, Proceed(i))
    ensures CanOversleep(Next(s, Proceed(i)), j) <==> s.clients[j].InWait? && s.clients[j].w.AboutToBlock?
  {
    var s' := Next(s, Proceed(i));
    CloseGoesOn(s, i, s.clients[i].c, Closed);
    assert s'.crash == None && !s'.running;
    assert forall k | 0 <= k < |s.clients| :: !IsBlocked(s'.clients[k]);
    assert s'.clients[j].InWait? && s'.clients[j].w.AboutToBlock?
      <==> s.clients[j].InWait? && s.clients[j].w.AboutToBlock?;
    hide CanOversleep, Next;
    StopMissesExactly(s', j);
  }
}
