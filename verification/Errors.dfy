/** Where the verdict ERROR of `wait_for_data` comes from, and when `open` overwrites a thread. */
module Errors {
  import opened Coder
  import opened FixedSizeQueues
  import opened Framing
  import opened Protocol
  import opened ProtocolInvariants
  import opened ProtocolRuns
  import opened SerialInterfaces
  import opened Shutdown
  import opened Witnesses
  import opened Wrappers

  // ---------- Setbacks ----------

  /** A `close` clears the flag, a read ends with an error, or `set_option` fails. */
  predicate Setback(s: State, a: Action) {
    match a
    case ReaderStep(event, _) => s.reader.Reading? && !event.Byte?
    case Continue(i, fails, _) =>
      i < |s.clients| && (s.clients[i] == InClose(CloseStore) || (s.clients[i] == InOpen(OpenOption) && fails))
    case Begin(_, _) => false
    case Wake(_, _) => false
  }

  function Setbacks(s: State, run: seq<Action>): nat
    requires Possible(s, run)
    decreases |run|
  {
    if run == [] then 0 else (if Setback(s, run[0]) then 1 else 0) + Setbacks(Next(s, run[0]), run[1..])
  }

  lemma StepCountsSetbacks(s: State, a: Action)
    requires Enabled(s, a)
    ensures Next(s, a).past.setbacks == s.past.setbacks + if Setback(s, a) then 1 else 0
  {
    match a
    case ReaderStep(event, result) => ReaderCountsSetbacks(s, event, result);
    case Begin(_, _) =>
    case Wake(_, _) =>
    case Continue(i, fails, result) =>
      CallCountsSetbacks(s, i, fails, result);
      hide ReaderNext, OpenNext, CloseNext, TakeNext, WaitNext;
  }

  lemma ReaderCountsSetbacks(s: State, event: PortEvent, result: CloseResult)
    requires ReaderEnabled(s, event)
    ensures ReaderNext(s, event, result).past.setbacks
            == s.past.setbacks + if s.reader.Reading? && !event.Byte? then 1 else 0
  {
    hide Decoding, Step, NotifyAll;
  }

  lemma CallCountsSetbacks(s: State, i: nat, fails: bool, result: CloseResult)
    requires i < |s.clients|
    ensures var c, n := s.clients[i], s.past.setbacks;
            && (c.InOpen? ==> OpenNext(s, i, c.o, fails).past.setbacks == n + if c.o.OpenOption? && fails then 1 else 0)
            && (c.InClose? ==> CloseNext(s, i, c.c, result).past.setbacks == n + if c.c.CloseStore? then 1 else 0)
            && (c.InTake? ==> TakeNext(s, i, c.t).past.setbacks == n)
            && (c.InWait? && !c.w.Blocked? ==> WaitNext(s, i, c.w, fails).past.setbacks == n)
  {
    hide Step, NotifyAll;
  }

  /** The history counts exactly the setbacks of the run. */
  lemma {:induction false} SetbacksCounted(s: State, run: seq<Action>)
    requires Possible(s, run)
    ensures After(s, run).past.setbacks == s.past.setbacks + Setbacks(s, run)
    decreases |run|
  {
    hide Next, Enabled, Setback;
    if run == [] {
    } else {
      StepCountsSetbacks(s, run[0]);
      SetbacksCounted(Next(s, run[0]), run[1..]);
    }
  }

  // ---------- Without setbacks an open port has a running routine ----------

  /** The routine runs on an open port and the reader is not about to end it. */
  predicate Up(s: State) { s.portOpen && s.running && !s.reader.Closing? && !s.reader.Storing? }

  /** In `wait_for_data`, having seen the port open. */
  predicate SawOpen(c: Client) {
    c.InWait? && !c.w.WaitWants? && !c.w.WaitCheck? && (c.w.WaitRelease? ==> c.w.isOpen)
  }

  predicate SawRunning(c: Client) {
    c.InWait? ==> (c.w.WaitVerdict? ==> c.w.sawRunning) && (c.w.WaitDone? ==> c.w.sawRunning)
  }

  predicate AtOpening(c: Client) { Opening(c) || (c.InOpen? && c.o.OpenPort?) }

  predicate FairClient(s: State, c: Client) {
    && !(Stopping(c) && !c.c.CloseStore?) && SawRunning(c)
    && (SawOpen(c) ==> Up(s))
    && (Opening(c) && s.thread != Joinable ==> s.portOpen && (c.o.OpenSpawn? ==> s.running))
  }

  ghost predicate Fair(s: State) {
    && (forall i | 0 <= i < |s.clients| :: FairClient(s, s.clients[i]))
    && (s.portOpen ==> Up(s) || OwnerIs(s, Opening))
    && (OwnerIs(s, AtOpening) ==> forall i | 0 <= i < |s.clients| :: !SawOpen(s.clients[i]))
  }

  /** What a step of client `k` does to the port and the routine. */
  predicate FairCall(s: State, s': State, k: nat) {
    && k < |s.clients| == |s'.clients|
    && Handover(s.mutex, s'.mutex, k)
    && (Up(s) ==> Up(s'))
    && FairClient(s', s'.clients[k])
    && (if s.mutex == Some(k) || s'.mutex == Some(k) then
          && (s'.portOpen ==> Up(s') || Opening(s'.clients[k]))
          && (AtOpening(s'.clients[k]) ==> s'.mutex == Some(k) && (AtOpening(s.clients[k]) || !s.portOpen))
          && (Opening(s'.clients[k]) ==> s'.mutex == Some(k))
        else
          && s'.portOpen == s.portOpen && s'.running == s.running && s'.reader == s.reader && s'.thread == s.thread
          && !AtOpening(s'.clients[k]))
    && (SawOpen(s'.clients[k]) ==> SawOpen(s.clients[k]) || (s.mutex == Some(k) && !AtOpening(s.clients[k])))
  }

  /** What the owner of `mutex_` may rely on. */
  predicate FairBefore(s: State, k: nat) {
    && k < |s.clients| && FairClient(s, s.clients[k])
    && (s.mutex == Some(k) || s.mutex == None ==> (s.portOpen ==> Up(s) || Opening(s.clients[k])))
    && (HoldsMutex(s.clients[k]) <==> s.mutex == Some(k))
    && (s.thread != Joinable ==> s.reader == Absent)
  }

  lemma OpenIsFair(s: State, k: nat, o: OpenPoint, fails: bool)
    requires FairBefore(s, k) && s.clients[k] == InOpen(o) && ContinueEnabled(s, k)
    requires !(o.OpenOption? && fails)
    ensures FairCall(s, OpenNext(s, k, o, fails), k)
  {
  }

  lemma CloseIsFair(s: State, k: nat, c: ClosePoint, result: CloseResult)
    requires FairBefore(s, k) && s.clients[k] == InClose(c) && ContinueEnabled(s, k) && !c.CloseStore?
    ensures FairCall(s, CloseNext(s, k, c, result), k)
  {
  }

  lemma TakeIsFair(s: State, k: nat, t: TakePoint)
    requires FairBefore(s, k) && s.clients[k] == InTake(t)
    ensures FairCall(s, TakeNext(s, k, t), k)
  {
    hide Step;
  }

  lemma WaitIsFair(s: State, k: nat, w: WaitPoint, late: bool)
    requires FairBefore(s, k) && s.clients[k] == InWait(w) && ContinueEnabled(s, k)
    ensures FairCall(s, WaitNext(s, k, w, late), k)
  {
  }

  /** The step of one client keeps fairness for all. */
  lemma CallKeepsFair(s: State, s': State, k: nat)
    requires Locks(s) && Locks(s') && Fair(s) && FairCall(s, s', k) && OnlyTouches(s, s', k)
    ensures Fair(s')
  {
    forall j | 0 <= j < |s'.clients| ensures FairClient(s', s'.clients[j]) {
      if j != k { OthersStayFair(s, s', k, j); }
    }
    OwnerStays(s, s', k);
    hide FairClient, Up;
  }

  lemma OthersStayFair(s: State, s': State, k: nat, j: nat)
    requires Locks(s) && Fair(s) && FairCall(s, s', k) && OnlyTouches(s, s', k) && j < |s.clients| && j != k
    ensures FairClient(s', s'.clients[j])
    ensures SawOpen(s'.clients[j]) <==> SawOpen(s.clients[j])
  {
    assert FairClient(s, s.clients[j]);
    if Opening(s.clients[j]) {
      assert HoldsMutex(s.clients[j]) && s.mutex == Some(j);
    }
  }

  lemma OwnerStays(s: State, s': State, k: nat)
    requires Locks(s) && Locks(s') && Fair(s) && FairCall(s, s', k) && OnlyTouches(s, s', k)
    ensures s'.portOpen ==> Up(s') || OwnerIs(s', Opening)
    ensures OwnerIs(s', AtOpening) ==> forall i | 0 <= i < |s'.clients| :: !SawOpen(s'.clients[i])
  {
    if s.mutex == Some(k) || s'.mutex == Some(k) {
      OwnerIsCaller(s, s', k);
    } else if s.mutex.Some? {
      var j := s.mutex.value;
      assert s'.mutex == Some(j) && HoldsMutex(s.clients[j]) && s'.clients[j] == s.clients[j];
      forall i | 0 <= i < |s'.clients| ensures SawOpen(s'.clients[i]) ==> SawOpen(s.clients[i]) {
        if i != k { OthersStayFair(s, s', k, i); }
      }
    }
  }

  lemma OwnerIsCaller(s: State, s': State, k: nat)
    requires Locks(s) && Locks(s') && Fair(s) && FairCall(s, s', k) && OnlyTouches(s, s', k)
    requires s.mutex == Some(k) || s'.mutex == Some(k)
    ensures s'.portOpen ==> Up(s') || OwnerIs(s', Opening)
    ensures OwnerIs(s', AtOpening) ==> forall i | 0 <= i < |s'.clients| :: !SawOpen(s'.clients[i])
  {
    if OwnerIs(s', AtOpening) {
      forall i | 0 <= i < |s'.clients| ensures !SawOpen(s'.clients[i]) {
        assert FairClient(s, s.clients[i]);
        if i != k { OthersStayFair(s, s', k, i); }
        assert AtOpening(s.clients[k]) ==> HoldsMutex(s.clients[k]) && OwnerIs(s, AtOpening);
      }
    }
  }

  lemma ReaderIsFair(s: State, event: PortEvent, result: CloseResult)
    requires Lifecycle(s) && ReaderEnabled(s, event) && !(s.reader.Reading? && !event.Byte?)
    ensures var s' := ReaderNext(s, event, result);
            && (s'.clients == s.clients || s'.clients == NotifyAll(s.clients))
            && (Up(s) ==> Up(s'))
            && (s'.portOpen ==> s.portOpen) && s.thread == Joinable == s'.thread && s'.mutex == s.mutex
  {
    ReaderOnlyWakes(s, event, result);
    hide Decoding, Step, NotifyAll;
  }

  lemma ReaderKeepsFair(s: State, event: PortEvent, result: CloseResult)
    requires Locks(s) && Lifecycle(s) && Fair(s) && ReaderEnabled(s, event) && !(s.reader.Reading? && !event.Byte?)
    ensures Fair(ReaderNext(s, event, result))
  {
    ReaderIsFair(s, event, result);
    var s' := ReaderNext(s, event, result);
    WokenAreFair(s, s');
    hide ReaderNext;
  }

  lemma WokenAreFair(s: State, s': State)
    requires s'.clients == s.clients || s'.clients == NotifyAll(s.clients)
    requires Locks(s) && Fair(s) && s'.mutex == s.mutex && (Up(s) ==> Up(s')) && s'.thread == Joinable
    requires s'.portOpen ==> s.portOpen
    ensures Fair(s')
  {
    forall i | 0 <= i < |s'.clients|
      ensures FairClient(s', s'.clients[i]) && (SawOpen(s'.clients[i]) <==> SawOpen(s.clients[i]))
    {
      assert FairClient(s, s.clients[i]);
    }
    if s.mutex.Some? {
      assert HoldsMutex(s.clients[s.mutex.value]) && s'.clients[s.mutex.value] == s.clients[s.mutex.value];
    }
  }

  lemma BeginKeepsFair(s: State, i: nat, call: Call)
    requires Locks(s) && Fair(s) && i < |s.clients| && s.clients[i] == Idle
    ensures Fair(BeginNext(s, i, call))
  {
    PassiveKeepsFair(s, BeginNext(s, i, call), i);
  }

  lemma PassiveKeepsFair(s: State, s': State, i: nat)
    requires Locks(s) && Fair(s) && OnlyClient(s, s', i) && s' == s.(clients := s'.clients)
    requires !HoldsMutex(s.clients[i]) && !HoldsMutex(s'.clients[i]) && FairClient(s', s'.clients[i])
    requires SawOpen(s'.clients[i]) ==> SawOpen(s.clients[i])
    ensures Fair(s')
  {
    forall j | 0 <= j < |s'.clients|
      ensures FairClient(s', s'.clients[j]) && (SawOpen(s'.clients[j]) ==> SawOpen(s.clients[j]))
    {
      assert FairClient(s, s.clients[j]);
    }
    if s.mutex.Some? {
      assert s'.clients[s.mutex.value] == s.clients[s.mutex.value];
    }
  }

  lemma StepKeepsFair(s: State, a: Action)
    requires Safe(s) && Fair(s) && Enabled(s, a) && !Setback(s, a)
    ensures Fair(Next(s, a))
  {
    SafeParts(s);
    hide Safe, Control, Locks, Lifecycle, Fair;
    match a
    case ReaderStep(event, result) => ReaderKeepsFair(s, event, result);
    case Begin(i, call) => BeginKeepsFair(s, i, call);
    case Wake(i, expired) =>
      FairClientOf(s, i);
      PassiveKeepsFair(s, Next(s, a), i);
    case Continue(k, fails, result) =>
      NextSafe(s, a);
      SafeParts(Next(s, a));
      CallIsFair(s, k, fails, result);
      hide OpenNext, CloseNext, TakeNext, WaitNext;
      CallKeepsFair(s, Next(s, a), k);
  }

  lemma CallIsFair(s: State, k: nat, fails: bool, result: CloseResult)
    requires Locks(s) && Lifecycle(s) && Fair(s) && Enabled(s, Continue(k, fails, result))
    requires !Setback(s, Continue(k, fails, result))
    ensures var s' := Next(s, Continue(k, fails, result)); FairCall(s, s', k) && OnlyTouches(s, s', k)
  {
    hide Locks, Lifecycle, Fair, OpenNext, CloseNext, TakeNext, WaitNext, FairCall, FairBefore, OnlyTouches;
    FairOwner(s, k);
    CallTouchesItself(s, k, fails, result);
    match s.clients[k] {
      case InOpen(o) => OpenIsFair(s, k, o, fails);
      case InClose(c) => CloseIsFair(s, k, c, result);
      case InTake(t) => TakeIsFair(s, k, t);
      case InWait(w) => WaitIsFair(s, k, w, fails);
    }
  }

  lemma FairClientOf(s: State, i: nat)
    requires Fair(s) && i < |s.clients|
    ensures FairClient(s, s.clients[i])
  {
  }

  lemma FairOwner(s: State, k: nat)
    requires Locks(s) && Lifecycle(s) && Fair(s) && k < |s.clients|
    ensures FairBefore(s, k)
  {
    FairClientOf(s, k);
    OwnLocks(s, k);
  }

  /** Over every run without setbacks. */
  lemma {:induction false} RunKeepsFair(s: State, run: seq<Action>)
    requires Safe(s) && Fair(s) && Possible(s, run) && Setbacks(s, run) == 0
    ensures Fair(After(s, run))
    decreases |run|
  {
    hide Safe, Fair, Next, Enabled, Setback;
    if run == [] {
    } else {
      StepKeepsFair(s, run[0]);
      NextSafe(s, run[0]);
      RunKeepsFair(Next(s, run[0]), run[1..]);
    }
  }

  // ---------- Where ERROR comes from ----------

  predicate IsError(s: State, i: nat, mask: KindMask) {
    i < |s.clients| && s.clients[i].InWait? && s.clients[i].w.WaitDone? && s.clients[i].w.mask == mask
    && s.clients[i].w.verdict == ERROR
  }

  lemma FairGivesNoError(s: State, i: nat, mask: KindMask)
    requires Safe(s) && Fair(s)
    ensures !IsError(s, i, mask)
  {
    if i < |s.clients| {
      assert VerdictIs(s.clients[i], s.queue.content != []) by { assert Verdicts(s); }
      hide Safe;
      FairClientOf(s, i);
    }
  }

  /** From power-up: `wait_for_data` answers ERROR only after some `close` has cleared the flag, or a
      read has ended with an error, or `set_option` has failed. */
  lemma ErrorNeedsSetback(n: nat, run: seq<Action>, i: nat, mask: KindMask)
    requires Possible(Initial(n), run) && IsError(After(Initial(n), run), i, mask)
    ensures Setbacks(Initial(n), run) > 0
  {
    InitialSafe(n);
    assert Fair(Initial(n));
    hide Safe, Fair, Possible, After, Setbacks, IsError;
    if Setbacks(Initial(n), run) == 0 {
      RunKeepsFair(Initial(n), run);
      RunSafe(Initial(n), run);
      FairGivesNoError(After(Initial(n), run), i, mask);
    }
  }

  /** No call is under way and both mutexes are free. */
  ghost predicate Settled(s: State) {
    s.crash == None && s.mutex == None && s.dataMutex == None
    && forall i | 0 <= i < |s.clients| :: s.clients[i] == Idle
  }

  /** Some run without a further setback gives client `i` the verdict ERROR. */
  ghost predicate CanError(s: State, i: nat, mask: KindMask) {
    exists run: seq<Action> :: Possible(s, run) && Setbacks(s, run) == 0 && IsError(After(s, run), i, mask)
  }

  /** From a settled state, without a further `close`, read error or failing `set_option`, a client can
      come to the verdict ERROR if and only if the port is open and the flag is down or the reader is
      about to clear it. */
  lemma ErrorExactly(s: State, i: nat, mask: KindMask)
    requires Safe(s) && Settled(s) && i < |s.clients|
    ensures CanError(s, i, mask) <==> s.portOpen && (!s.running || s.reader.Closing? || s.reader.Storing?)
  {
    if s.portOpen && (!s.running || s.reader.Closing? || s.reader.Storing?) {
      hide Safe, CanError;
      SoloError(s, i, mask);
    } else {
      assert Fair(s);
      hide Safe, Fair, Possible, After, Setbacks, IsError;
      forall run: seq<Action> | Possible(s, run) && Setbacks(s, run) == 0
        ensures !IsError(After(s, run), i, mask)
      {
        RunKeepsFair(s, run);
        RunSafe(s, run);
        FairGivesNoError(After(s, run), i, mask);
      }
    }
  }

  /** Client `i` takes whatever is queued. */
  lemma {:induction false} SoloDrain(s: State, i: nat) returns (run: seq<Action>, s': State)
    requires s.crash == None && s.dataMutex == None && i < |s.clients| && s.clients[i] == Idle
    ensures Possible(s, run) && s' == After(s, run) && s'.queue.content == []
    ensures s' == s.(queue := s'.queue, received := s'.received, past := s'.past)
    ensures s'.past.setbacks == s.past.setbacks
    decreases |s.queue.content|
  {
    hide Possible, After, Next, Enabled;
    if s.queue.content == [] {
      run, s' := Stay(s);
    } else {
      var taking, s1 := SoloTake(s, i);
      var rest;
      rest, s' := SoloDrain(s1, i);
      Concat(s, taking, rest);
      run := taking + rest;
    }
  }

  /** The reader clears the flag. */
  lemma SoloLower(s: State) returns (run: seq<Action>, s': State)
    requires s.crash == None && (s.reader.Closing? || s.reader.Storing? || !s.running)
    ensures Possible(s, run) && s' == After(s, run) && !s'.running
    ensures s' == s.(portOpen := s'.portOpen, running := false, reader := s'.reader)
  {
    hide Possible, After, OpenNext, CloseNext, TakeNext, WaitNext, NotifyAll;
    if !s.running {
      run, s' := Stay(s);
    } else if s.reader.Storing? {
      run, s' := Solo(s, ReaderStep(Aborted, Closed));
    } else {
      run, s' := Solo(s, ReaderStep(Aborted, Closed));
      run, s' := Then(s, run, s', ReaderStep(Aborted, Closed));
    }
  }

  lemma EmptyMeansUnmarked(s: State)
    requires Safe(s) && s.dataMutex == None && s.queue.content == []
    ensures s.received == {}
  {
    assert QueueAndMask(s);
    hide Safe;
  }

  lemma SoloError(s: State, i: nat, mask: KindMask)
    requires Safe(s) && Settled(s) && i < |s.clients|
    requires s.portOpen && (!s.running || s.reader.Closing? || s.reader.Storing?)
    ensures CanError(s, i, mask)
  {
    hide Safe, Possible, After, Next, Enabled, Setbacks;
    var r1, s1 := SoloDrain(s, i);
    RunSafe(s, r1);
    EmptyMeansUnmarked(s1);
    var r2, s2 := SoloIsOpen(s1, i, mask);
    Concat(s, r1, r2);
    var r3, s3 := SoloLower(s2);
    Concat(s, r1 + r2, r3);
    var r4, s4 := SoloVerdict(s3, i, mask);
    Concat(s, r1 + r2 + r3, r4);
    var run := r1 + r2 + r3 + r4;
    SetbacksCounted(s, run);
    assert IsError(After(s, run), i, mask);
  }

  /** A read error and no `close`: the waiter that saw the port open answers ERROR. */
  lemma ErrorAfterReadError(mask: KindMask) returns (run: seq<Action>)
    ensures Possible(Initial(1), run)
    ensures var s := After(Initial(1), run);
            s.clients == [InWait(WaitDone(mask, ERROR, false))] && s.past.log == [Failed] && s.past.setbacks == 1
  {
    hide Possible, After, Next, Enabled;
    var s := Initial(1);
    var opening, s1 := SoloOpen(s, 0, false);
    var waiting, s2 := StoppedWait(s1, mask);
    Concat(s, opening, waiting);
    run := opening + waiting;
  }

  /** A failing `set_option`, no read and no `close`: the waiter answers ERROR at once. */
  lemma ErrorAfterOptionFailure(mask: KindMask) returns (run: seq<Action>)
    ensures Possible(Initial(1), run)
    ensures var s := After(Initial(1), run);
            s.clients == [InWait(WaitDone(mask, ERROR, false))] && s.past.log == [] && s.past.setbacks == 1
            && s.past.faults == {OptionFailed}
  {
    hide Possible, After, Next, Enabled;
    var s := Initial(1);
    var r1, s1 := SoloOpen(s, 0, true);
    var r2, s2 := SoloIsOpen(s1, 0, mask);
    Concat(s, r1, r2);
    var r3, s3 := SoloVerdict(s2, 0, mask);
    Concat(s, r1 + r2, r3);
    run := r1 + r2 + r3;
  }

  // ---------- Overwriting a thread ----------

  /** In `open`, before the thread is started or the port given up. */
  predicate Starting(c: Client) { c.InOpen? && !c.o.OpenWants? && !c.o.OpenRelease? }

  /** Client `i` stays there all along the run. */
  ghost predicate StaysStarting(s: State, run: seq<Action>, i: nat)
    requires Possible(s, run)
    decreases |run|
  {
    && i < |s.clients| && Starting(s.clients[i])
    && (run != [] ==> StaysStarting(Next(s, run[0]), run[1..], i))
  }

  lemma StepKeepsThread(s: State, a: Action, i: nat)
    requires Locks(s) && Enabled(s, a) && i < |s.clients| && Starting(s.clients[i])
    requires i < |Next(s, a).clients| && Starting(Next(s, a).clients[i])
    ensures Next(s, a).thread == s.thread
  {
    assert HoldsMutex(s.clients[i]);
    OthersOutside(s, i);
    hide Locks;
    match a
    case ReaderStep(event, result) => ReaderLeavesThread(s, event, result);
    case Begin(_, _) =>
    case Wake(_, _) =>
    case Continue(k, fails, result) =>
      CallLeavesThread(s, k, fails, result);
      hide ReaderNext, OpenNext, CloseNext, TakeNext, WaitNext;
  }

  lemma ReaderLeavesThread(s: State, event: PortEvent, result: CloseResult)
    requires ReaderEnabled(s, event)
    ensures ReaderNext(s, event, result).thread == s.thread
  {
    hide Decoding, Step, NotifyAll;
  }

  lemma CallLeavesThread(s: State, k: nat, fails: bool, result: CloseResult)
    requires k < |s.clients|
    ensures var c := s.clients[k];
            && (c.InOpen? ==> var s' := OpenNext(s, k, c.o, fails);
                              k < |s'.clients| && (Starting(s'.clients[k]) ==> s'.thread == s.thread))
            && (c.InClose? && !HoldsMutex(c) ==> CloseNext(s, k, c.c, result).thread == s.thread)
            && (c.InTake? ==> TakeNext(s, k, c.t).thread == s.thread)
            && (c.InWait? && !c.w.Blocked? ==> WaitNext(s, k, c.w, fails).thread == s.thread)
  {
    hide Step, NotifyAll;
  }

  lemma {:induction false} RunKeepsThread(s: State, run: seq<Action>, i: nat)
    requires Safe(s) && Possible(s, run) && StaysStarting(s, run, i)
    ensures After(s, run).thread == s.thread
    decreases |run|
  {
    hide Safe, Next, Enabled, Starting;
    if run == [] {
    } else {
      SafeParts(s);
      StepKeepsThread(s, run[0], i);
      NextSafe(s, run[0]);
      RunKeepsThread(Next(s, run[0]), run[1..], i);
    }
  }

  /** Over every schedule: an `open` that gets as far as starting its thread overwrites another one, and
      brings the process down, if and only if the handle held an unjoined thread when that `open` tested
      the port. */
  lemma OverwritesExactly(s: State, run: seq<Action>, i: nat, fails: bool)
    requires Safe(s) && i < |s.clients| && s.clients[i] == InOpen(OpenCheck)
    requires Possible(s, run) && StaysStarting(s, run, i)
    requires var e := After(s, run); e.crash == None && i < |e.clients| && e.clients[i] == InOpen(OpenSpawn)
    ensures OpenNext(After(s, run), i, OpenSpawn, fails).crash == Some(ThreadOverwritten) <==> s.thread == Joinable
  {
    hide Safe, Possible, After, StaysStarting;
    RunKeepsThread(s, run, i);
  }
}
