/** Runs, put together step by step, that show where the protocol fails its users. */
module Witnesses {
  import opened FixedSizeQueues
  import opened Framing
  import opened Protocol
  import opened ProtocolRuns
  import opened SerialInterfaces
  import opened Shutdown
  import opened Theorems
  import opened Wrappers

  /** Client `i` runs alone from `Idle` through `open`; the environment may only fail `set_option`. */
  lemma SoloOpen(s: State, i: nat, optionFails: bool) returns (run: seq<Action>, s': State)
    requires s.crash == None && s.mutex == None && !s.portOpen && i < |s.clients| && s.clients[i] == Idle
    ensures Possible(s, run) && s' == After(s, run)
    ensures optionFails ==>
              s' == s.(portOpen := true,
                       past := s.past.(faults := s.past.faults + {OptionFailed}, setbacks := s.past.setbacks + 1))
    ensures !optionFails && s.thread != Joinable ==>
              s' == s.(portOpen := true, running := true, thread := Joinable, reader := AtLoop,
                       past := s.past.(closed := false))
    ensures !optionFails && s.thread == Joinable ==> s'.crash == Some(ThreadOverwritten)
  {
    hide Possible, After, CloseNext, TakeNext, WaitNext, ReaderNext;
    run, s' := SoloOpenPort(s, i);
    var open := s.(mutex := Some(i), portOpen := true);
    run, s' := Then(s, run, s', Continue(i, optionFails, Closed));
    if optionFails {
      run, s' := Then(s, run, s', Proceed(i));
      assert s'.clients == s.clients;
    } else {
      run, s' := Then(s, run, s', Proceed(i));
      var ready := open.(running := true, past := s.past.(closed := false));
      assert With(ready, s', i, InOpen(OpenSpawn));
      var rest;
      rest, s' := SoloSpawn(s', ready, i);
      Concat(s, run, rest);
      run := run + rest;
      assert s.clients[i := Idle] == s.clients;
    }
  }

  lemma SoloSpawn(s: State, ready: State, i: nat) returns (run: seq<Action>, s': State)
    requires s.crash == None && i < |s.clients| && With(ready, s, i, InOpen(OpenSpawn))
    ensures Possible(s, run) && s' == After(s, run)
    ensures if s.thread == Joinable then s'.crash == Some(ThreadOverwritten)
            else s' == ready.(thread := Joinable, reader := AtLoop, mutex := None, clients := ready.clients[i := Idle])
  {
    hide Possible, After, CloseNext, TakeNext, WaitNext, ReaderNext;
    run, s' := Solo(s, Proceed(i));
    if s'.crash == None {
      run, s' := Then(s, run, s', Proceed(i));
      assert s'.clients == ready.clients[i := Idle];
    }
  }

  lemma SoloOpenPort(s: State, i: nat) returns (run: seq<Action>, s': State)
    requires s.crash == None && s.mutex == None && !s.portOpen && i < |s.clients| && s.clients[i] == Idle
    ensures Possible(s, run) && s' == After(s, run)
    ensures With(s.(mutex := Some(i), portOpen := true), s', i, InOpen(OpenOption))
  {
    hide Possible, After, CloseNext, TakeNext, WaitNext, ReaderNext;
    run, s' := Solo(s, Begin(i, CallOpen));
    run, s' := Then(s, run, s', Proceed(i));
    assert With(s.(mutex := Some(i)), s', i, InOpen(OpenCheck));
    run, s' := Then(s, run, s', Proceed(i));
    assert With(s.(mutex := Some(i)), s', i, InOpen(OpenPort));
    run, s' := Then(s, run, s', Proceed(i));
  }

  /** After a read error the port is closed and `close` refuses to run, so the thread stays unjoined;
      the next successful opening of the port overwrites it and the process goes down. */
  lemma ReopenAfterReadError(n: nat, s: State, i: nat) returns (run: seq<Action>)
    requires Reachable(n, s) && s.crash == None && s.mutex == None && !s.portOpen && s.thread == Joinable
    requires i < |s.clients| && s.clients[i] == Idle
    ensures ReadError in s.past.faults
    ensures Possible(s, run) && After(s, run).crash == Some(ThreadOverwritten)
  {
    PortAndThread(n, s);
    var s';
    run, s' := SoloOpen(s, i, false);
  }

  /** What a failed read leaves in the history. */
  function FailedPast(past: Past, event: PortEvent, isOpen: bool): Past {
    past.(log := past.log + [event], setbacks := past.setbacks + 1,
          faults := if event == Failed && isOpen then past.faults + {ReadError} else past.faults)
  }

  /** A read that ends with an error: unless it was aborted the reader closes the port if it is still
      open, as far as the operating system does; then it clears the flag, wakes the waiters and returns. */
  lemma SoloFailure(s: State, line: string, event: PortEvent, result: CloseResult) returns (run: seq<Action>, s': State)
    requires s.crash == None && s.reader == Reading(line) && !event.Byte?
    ensures Possible(s, run) && s' == After(s, run)
    ensures s' == s.(portOpen := s.portOpen && (event == Aborted || result == ErrorStillOpen), running := false,
                     reader := Returned, clients := NotifyAll(s.clients), past := FailedPast(s.past, event, s.portOpen))
  {
    hide Possible, After, OpenNext, CloseNext, TakeNext, WaitNext, NotifyAll;
    var step := ReaderStep(event, result);
    run, s' := Solo(s, step);
    if event == Failed {
      run, s' := Then(s, run, s', step);
    }
    assert s' == s.(portOpen := s.portOpen && (event == Aborted || result == ErrorStillOpen), reader := Storing,
                    past := FailedPast(s.past, event, s.portOpen));
    hide FailedPast;
    var rest;
    rest, s' := SoloStop(s');
    Concat(s, run, rest);
    run := run + rest;
  }

  lemma SoloStop(s: State) returns (run: seq<Action>, s': State)
    requires s.crash == None && s.reader == Storing
    ensures Possible(s, run) && s' == After(s, run)
    ensures s' == s.(running := false, reader := Returned, clients := NotifyAll(s.clients))
  {
    hide Possible, After, OpenNext, CloseNext, TakeNext, WaitNext, NotifyAll;
    var step := ReaderStep(Aborted, Closed);
    run, s' := Solo(s, step);
    run, s' := Then(s, run, s', step);
    run, s' := Then(s, run, s', step);
  }

  /** A routine that finds its port closed ends: it clears the flag, wakes the waiters and returns. */
  lemma ClosedPortEndsRoutine(s: State) returns (run: seq<Action>, s': State)
    requires s.crash == None && !s.portOpen && s.running && s.reader == AtLoop
    ensures Possible(s, run) && s' == After(s, run)
    ensures s' == s.(running := false, reader := Returned, clients := NotifyAll(s.clients))
  {
    hide Possible, After, OpenNext, CloseNext, TakeNext, WaitNext, NotifyAll;
    run, s' := Solo(s, ReaderStep(Aborted, Closed));
    run, s' := Then(s, run, s', ReaderStep(Aborted, Closed));
    var rest;
    rest, s' := SoloStop(s');
    Concat(s, run, rest);
    run := run + rest;
  }

  /** A read fails on the open port while nobody sleeps. */
  lemma SoloReadError(s: State) returns (run: seq<Action>, s': State)
    requires s.crash == None && s.portOpen && s.running && s.reader == AtLoop
    requires forall j | 0 <= j < |s.clients| :: !IsBlocked(s.clients[j])
    ensures Possible(s, run) && s' == After(s, run)
    ensures s' == s.(portOpen := false, running := false, reader := Returned,
                     past := s.past.(log := s.past.log + [Failed], faults := s.past.faults + {ReadError},
                                     setbacks := s.past.setbacks + 1))
  {
    NotifyNobody(s.clients);
    hide Possible, After, Next, Enabled, NotifyAll;
    run, s' := SoloStartReading(s);
    var rest;
    rest, s' := SoloFailure(s', "", Failed, Closed);
    Concat(s, run, rest);
    run := run + rest;
  }

  /** On a closed port `close` is refused and changes nothing. */
  lemma SoloCloseRefused(s: State, i: nat) returns (run: seq<Action>, s': State)
    requires s.crash == None && s.mutex == None && !s.portOpen && i < |s.clients| && s.clients[i] == Idle
    ensures Possible(s, run) && s' == After(s, run)
    ensures With(s.(mutex := Some(i)), s', i, InClose(CloseRelease(ILLEGAL_OPERATION, false)))
    ensures Enabled(s', Proceed(i)) && Next(s', Proceed(i)) == s
  {
    hide Possible, After, OpenNext, TakeNext, WaitNext, ReaderNext, NotifyAll;
    run, s' := Solo(s, Begin(i, CallClose));
    run, s' := Then(s, run, s', Proceed(i));
    assert With(s.(mutex := Some(i)), s', i, InClose(CloseCheck));
    run, s' := Then(s, run, s', Proceed(i));
    ReleaseRestores(s, s', i);
    hide Next;
  }

  lemma ReleaseRestores(s: State, s': State, i: nat)
    requires s.crash == None && s.mutex == None && i < |s.clients| && s.clients[i] == Idle
    requires With(s.(mutex := Some(i)), s', i, InClose(CloseRelease(ILLEGAL_OPERATION, false)))
    ensures Enabled(s', Proceed(i)) && Next(s', Proceed(i)) == s
  {
    hide OpenNext, TakeNext, WaitNext, ReaderNext, NotifyAll;
    var after := Next(s', Proceed(i));
    assert after.clients == s.clients;
    assert after.past == s.past;
    assert after == s.(clients := after.clients, past := after.past);
  }

  /** From power-up: after a read error `close` answers ILLEGAL_OPERATION and leaves the thread
      unjoined, and the next `open` brings the process down. */
  lemma ReopenCrashes() returns (refused: seq<Action>, run: seq<Action>)
    ensures Possible(Initial(1), refused) && Possible(Initial(1), run) && refused <= run
    ensures var s := After(Initial(1), refused);
            s.clients == [InClose(CloseRelease(ILLEGAL_OPERATION, false))] && s.thread == Joinable && s.crash == None
    ensures After(Initial(1), run).crash == Some(ThreadOverwritten)
  {
    hide Possible, After, Next, Enabled;
    var s := Initial(1);
    var opening, s1 := SoloOpen(s, 0, false);
    var failing, s2 := SoloReadError(s1);
    Concat(s, opening, failing);
    var closing, s3 := SoloCloseRefused(s2, 0);
    Concat(s, opening + failing, closing);
    refused := opening + failing + closing;
    var releasing, s4 := Solo(s3, Proceed(0));
    Concat(s, refused, releasing);
    var reopening, s5 := SoloOpen(s4, 0, false);
    Concat(s, refused + releasing, reopening);
    run := refused + releasing + reopening;
  }

  /** Client `i` runs alone from `Idle` through the closing of the port, successful or not. */
  lemma SoloClosePort(s: State, i: nat, result: CloseResult) returns (run: seq<Action>, s': State)
    requires s.crash == None && s.mutex == None && s.portOpen && i < |s.clients| && s.clients[i] == Idle
    ensures Possible(s, run) && s' == After(s, run)
    ensures With(PortShut(s.(mutex := Some(i)), result), s', i,
                 InClose(CloseJoin(if result == Closed then OK else ERROR)))
  {
    hide Possible, After, OpenNext, TakeNext, WaitNext, ReaderNext, NotifyAll, PortShut;
    run, s' := Solo(s, Begin(i, CallClose));
    run, s' := Then(s, run, s', Proceed(i));
    var locked := s.(mutex := Some(i));
    assert With(locked, s', i, InClose(CloseCheck));
    var rest;
    rest, s' := CloseUpToJoin(s', locked, i, result);
    Concat(s, run, rest);
    run := run + rest;
  }

  /** The flag cleared and the port closed, as far as the operating system closes it. */
  function PortShut(s: State, result: CloseResult): State {
    var faults := if result == ErrorStillOpen then s.past.faults + {CloseFailed} else s.past.faults;
    s.(running := false, portOpen := result == ErrorStillOpen,
       past := s.past.(faults := faults, setbacks := s.past.setbacks + 1))
  }

  lemma CloseUpToJoin(s: State, locked: State, i: nat, result: CloseResult) returns (run: seq<Action>, s': State)
    requires s.crash == None && s.portOpen && With(locked, s, i, InClose(CloseCheck))
    ensures Possible(s, run) && s' == After(s, run)
    ensures With(PortShut(locked, result), s', i, InClose(CloseJoin(if result == Closed then OK else ERROR)))
  {
    hide Possible, After, OpenNext, TakeNext, WaitNext, ReaderNext, NotifyAll;
    run, s' := Solo(s, Proceed(i));
    assert With(locked, s', i, InClose(CloseStore));
    run, s' := Then(s, run, s', Proceed(i));
    var stopped := locked.(running := false, past := locked.past.(setbacks := locked.past.setbacks + 1));
    assert With(stopped, s', i, InClose(ClosePort));
    var rest;
    rest, s' := SoloShut(s', stopped, i, result);
    Concat(s, run, rest);
    run := run + rest;
  }

  lemma SoloShut(s: State, stopped: State, i: nat, result: CloseResult) returns (run: seq<Action>, s': State)
    requires s.crash == None && s.portOpen && With(stopped, s, i, InClose(ClosePort))
    ensures Possible(s, run) && s' == After(s, run)
    ensures var faults := if result == ErrorStillOpen then s.past.faults + {CloseFailed} else s.past.faults;
            With(stopped.(portOpen := result == ErrorStillOpen, past := s.past.(faults := faults)), s', i,
                 InClose(CloseJoin(if result == Closed then OK else ERROR)))
  {
    hide Possible, After, OpenNext, TakeNext, WaitNext, ReaderNext, NotifyAll;
    run, s' := Solo(s, Continue(i, false, result));
  }

  /** Wherever the port is open without a thread, closing it joins a null thread. */
  lemma StrandedPortIsFatal(s: State, i: nat) returns (run: seq<Action>)
    requires s.crash == None && s.mutex == None && s.portOpen && s.thread == NoThread
    requires i < |s.clients| && s.clients[i] == Idle
    ensures Possible(s, run) && After(s, run).crash == Some(JoinOfNothing)
  {
    hide Possible, After, OpenNext, TakeNext, WaitNext, ReaderNext, NotifyAll;
    var s';
    run, s' := SoloClosePort(s, i, Closed);
    run, s' := Then(s, run, s', Proceed(i));
  }

  /** A failing `set_option` leaves a port without a thread, and closing it joins a null thread. */
  lemma CloseAfterOptionFailure() returns (run: seq<Action>)
    ensures Possible(Initial(1), run) && After(Initial(1), run).crash == Some(JoinOfNothing)
  {
    hide Possible, After, Next, Enabled;
    var opening, s := SoloOpen(Initial(1), 0, true);
    var closing := StrandedPortIsFatal(s, 0);
    Concat(Initial(1), opening, closing);
    run := opening + closing;
  }

  /** From power-up: the operating system refuses to close the port while the reader waits for the
      device, and with it the join, `mutex_` held, hangs. */
  lemma RefusedCloseHangs() returns (run: seq<Action>)
    ensures Possible(Initial(1), run)
    ensures var s := After(Initial(1), run);
            Hung(s) && s.clients == [InClose(CloseJoin(ERROR))] && s.mutex == Some(0) && s.reader == Reading("")
  {
    hide Possible, After, Next, Enabled;
    var s := Initial(1);
    var opening, s1 := SoloOpen(s, 0, false);
    var reading, s2 := SoloStartReading(s1);
    Concat(s, opening, reading);
    var closing, s3 := SoloClosePort(s2, 0, ErrorStillOpen);
    Concat(s, opening + reading, closing);
    run := opening + reading + closing;
  }

  lemma SoloStartReading(s: State) returns (run: seq<Action>, s': State)
    requires s.crash == None && s.portOpen && s.running && s.reader == AtLoop
    ensures Possible(s, run) && s' == After(s, run) == s.(reader := Reading(""))
  {
    hide Possible, After, OpenNext, CloseNext, TakeNext, WaitNext, NotifyAll;
    run, s' := Solo(s, ReaderStep(Aborted, Closed));
    run, s' := Then(s, run, s', ReaderStep(Aborted, Closed));
  }

  /** Client `i` runs alone from `Idle` to the point where it has tested the predicate and is about to
      block. */
  lemma SoloWait(s: State, i: nat, mask: KindMask) returns (run: seq<Action>, s': State)
    requires s.crash == None && s.mutex == None && s.dataMutex == None && s.portOpen && s.running && s.received == {}
    requires i < |s.clients| && s.clients[i] == Idle
    ensures Possible(s, run) && s' == After(s, run)
    ensures With(s.(dataMutex := Some(ByClient(i))), s', i, InWait(AboutToBlock(mask)))
  {
    hide Possible, After, OpenNext, TakeNext, CloseNext, ReaderNext;
    run, s' := SoloIsOpen(s, i, mask);
    run, s' := Then(s, run, s', Proceed(i));
    assert With(s.(dataMutex := Some(ByClient(i))), s', i, InWait(WaitTest(mask, false)));
    run, s' := Then(s, run, s', Proceed(i));
  }

  lemma SoloIsOpen(s: State, i: nat, mask: KindMask) returns (run: seq<Action>, s': State)
    requires s.crash == None && s.mutex == None && s.portOpen && i < |s.clients| && s.clients[i] == Idle
    ensures Possible(s, run) && s' == After(s, run)
    ensures With(s, s', i, InWait(WaitWantsData(mask)))
  {
    hide Possible, After, OpenNext, TakeNext, CloseNext, ReaderNext;
    run, s' := Solo(s, Begin(i, CallWait(mask)));
    run, s' := Then(s, run, s', Proceed(i));
    assert With(s.(mutex := Some(i)), s', i, InWait(WaitCheck(mask)));
    run, s' := Then(s, run, s', Proceed(i));
    run, s' := Then(s, run, s', Proceed(i));
  }

  /** One client has stored the flag and closed the port while the other has tested the predicate. */
  lemma CloseWhileTesting(mask: KindMask) returns (run: seq<Action>, s': State)
    ensures Possible(Initial(2), run) && s' == After(Initial(2), run)
    ensures s'.crash == None && s'.thread == Joinable && s'.reader == AtLoop && !s'.running && !s'.portOpen
    ensures s'.clients == [InClose(CloseJoin(OK)), InWait(AboutToBlock(mask))]
  {
    var s := Initial(2);
    hide Possible, After, Next, Enabled;
    var r1, s1 := SoloOpen(s, 0, false);
    var r2, s2 := SoloWait(s1, 1, mask);
    Concat(s, r1, r2);
    var r3, s3 := SoloClosePort(s2, 0, Closed);
    Concat(s, r1 + r2, r3);
    run, s' := r1 + r2 + r3, s3;
  }

  /** The stop wake-up, unlike the data wake-up, can be lost: the flag is stored and the waiters are
      notified without `data_mutex_`, possibly between a waiter's test and its blocking. The waiter
      then sleeps on a stopped routine with nobody left to notify it. */
  lemma StopWakeupLost(mask: KindMask) returns (run: seq<Action>)
    ensures Possible(Initial(2), run)
    ensures var s := After(Initial(2), run);
            s.clients == [Idle, InWait(Blocked(mask))] && !s.running && s.reader == Absent && s.past.closed
  {
    var closing, s := CloseWhileTesting(mask);
    hide *;
    var missing, s' := CloseMissesWaiter(s, mask);
    Concat(Initial(2), closing, missing);
    run := closing + missing;
  }

  lemma CloseMissesWaiter(s: State, mask: KindMask) returns (run: seq<Action>, s': State)
    requires s.crash == None && s.thread == Joinable && s.reader == AtLoop && !s.running && !s.portOpen
    requires s.clients == [InClose(CloseJoin(OK)), InWait(AboutToBlock(mask))]
    ensures Possible(s, run) && s' == After(s, run)
    ensures s'.clients == [Idle, InWait(Blocked(mask))] && !s'.running && s'.reader == Absent && s'.past.closed
  {
    hide Possible, After, Next, Enabled;
    var r1, s1 := SoloJoin(s, 0);
    var r2, s2 := SoloRelease(s1, 0);
    Concat(s, r1, r2);
    var r3, s3 := SoloBlock(s2, 1, mask);
    run, s' := r1 + r2 + r3, s3;
    Concat(s, r1 + r2, r3);
  }

  lemma SoloBlock(s: State, i: nat, mask: KindMask) returns (run: seq<Action>, s': State)
    requires s.crash == None && i < |s.clients| && s.clients[i] == InWait(AboutToBlock(mask))
    ensures Possible(s, run) && s' == After(s, run)
    ensures With(s.(dataMutex := None), s', i, InWait(Blocked(mask)))
  {
    hide Possible, After, OpenNext, TakeNext, CloseNext, ReaderNext;
    run, s' := Solo(s, Proceed(i));
  }

  /** The reader finds the flag cleared and is joined. */
  lemma SoloJoin(s: State, i: nat) returns (run: seq<Action>, s': State)
    requires s.crash == None && s.thread == Joinable && s.reader == AtLoop && !s.running && !s.portOpen
    requires i < |s.clients| && s.clients[i] == InClose(CloseJoin(OK))
    ensures Possible(s, run) && s' == After(s, run)
    ensures With(s.(thread := NoThread, reader := Absent, past := s.past.(faults := {})), s', i,
                 InClose(CloseRelease(OK, true)))
  {
    hide Possible, After, OpenNext, TakeNext, WaitNext, NotifyAll, ReaderNext;
    run, s' := SoloReturn(s);
    run, s' := Then(s, run, s', Proceed(i));
    run, s' := Then(s, run, s', Proceed(i));
  }

  lemma SoloReturn(s: State) returns (run: seq<Action>, s': State)
    requires s.crash == None && s.reader == AtLoop && !s.running
    ensures Possible(s, run) && s' == After(s, run) == s.(reader := Returned)
  {
    hide Possible, After, OpenNext, CloseNext, TakeNext, WaitNext, NotifyAll;
    run, s' := Solo(s, ReaderStep(Aborted, Closed));
  }

  /** The end of `close`, with nobody to notify. */
  lemma SoloRelease(s: State, i: nat) returns (run: seq<Action>, s': State)
    requires s.crash == None && i < |s.clients| && s.clients[i] == InClose(CloseRelease(OK, true))
    requires forall j | 0 <= j < |s.clients| :: !IsBlocked(s.clients[j])
    ensures Possible(s, run) && s' == After(s, run)
    ensures With(s.(mutex := None, past := s.past.(closed := true)), s', i, Idle)
  {
    NotifyNobody(s.clients[i := Idle]);
    hide Possible, After, OpenNext, TakeNext, WaitNext, NotifyAll, ReaderNext;
    run, s' := Solo(s, Proceed(i));
    run, s' := Then(s, run, s', Proceed(i));
  }

  lemma NotifyNobody(clients: seq<Client>)
    requires forall j | 0 <= j < |clients| :: !IsBlocked(clients[j])
    ensures NotifyAll(clients) == clients
  {
  }

  lemma Stay(s: State) returns (run: seq<Action>, s': State)
    ensures Possible(s, run) && s' == After(s, run) == s
  {
    run, s' := [], s;
  }

  /** Client `i` runs alone through a `take_next` that finds a sample. */
  lemma SoloTake(s: State, i: nat) returns (run: seq<Action>, s': State)
    requires s.crash == None && s.dataMutex == None && i < |s.clients| && s.clients[i] == Idle
    requires s.queue.content != []
    ensures Possible(s, run) && s' == After(s, run)
    ensures s' == s.(queue := Step(s.queue, CAPACITY, Pop), received := s'.received,
                     past := s.past.(delivered := s.past.delivered + [s.queue.content[0]]))
    ensures |s'.queue.content| < |s.queue.content|
  {
    hide After, Possible, OpenNext, CloseNext, ReaderNext, WaitNext, Step;
    var popped := s.(dataMutex := Some(ByClient(i)), queue := Step(s.queue, CAPACITY, Pop),
                     past := s.past.(delivered := s.past.delivered + [s.queue.content[0]]));
    run, s' := SoloPop(s, popped, i);
    run, s' := Then(s, run, s', Proceed(i));
    assert With(popped.(received := s'.received), s', i, InTake(TakeRelease(Some(s.queue.content[0]))));
    run, s' := Then(s, run, s', Proceed(i));
    assert s'.clients == s.clients;
    PopShortens(s.queue);
  }

  lemma SoloPop(s: State, popped: State, i: nat) returns (run: seq<Action>, s': State)
    requires s.crash == None && s.dataMutex == None && i < |s.clients| && s.clients[i] == Idle
    requires s.queue.content != []
    requires popped == s.(dataMutex := Some(ByClient(i)), queue := Step(s.queue, CAPACITY, Pop),
                          past := s.past.(delivered := s.past.delivered + [s.queue.content[0]]))
    ensures Possible(s, run) && s' == After(s, run)
    ensures With(popped, s', i, InTake(TakeClear(s.queue.content[0])))
  {
    hide After, Possible, OpenNext, CloseNext, ReaderNext, WaitNext, Step;
    run, s' := Solo(s, Begin(i, CallTake));
    run, s' := Then(s, run, s', Proceed(i));
    assert With(s.(dataMutex := Some(ByClient(i))), s', i, InTake(TakeCheck));
    run, s' := Then(s, run, s', Proceed(i));
  }

  lemma PopShortens<T>(h: History<T>)
    requires h.content != []
    ensures |Step(h, CAPACITY, Pop).content| < |h.content|
  {
  }

  /** `take_next` on an empty queue changes nothing. */
  lemma SoloTakeNothing(s: State, i: nat) returns (run: seq<Action>, s': State)
    requires s.crash == None && s.dataMutex == None && i < |s.clients| && s.clients[i] == Idle
    requires s.queue.content == []
    ensures Possible(s, run) && s' == After(s, run) == s
  {
    hide After, Possible, OpenNext, CloseNext, ReaderNext, WaitNext, Step;
    run, s' := Solo(s, Begin(i, CallTake));
    run, s' := Then(s, run, s', Proceed(i));
    assert With(s.(dataMutex := Some(ByClient(i))), s', i, InTake(TakeCheck));
    run, s' := Then(s, run, s', Proceed(i));
    run, s' := Then(s, run, s', Proceed(i));
    assert s'.clients == s.clients;
  }

  /** With the flag down, a waiter that wants `data_mutex_` runs alone to its verdict. */
  lemma SoloVerdict(s: State, i: nat, mask: KindMask) returns (run: seq<Action>, s': State)
    requires s.crash == None && s.dataMutex == None && !s.running
    requires i < |s.clients| && s.clients[i] == InWait(WaitWantsData(mask))
    ensures Possible(s, run) && s' == After(s, run)
    ensures With(s.(dataMutex := Some(ByClient(i))), s', i,
                 InWait(WaitDone(mask, if mask != {} && s.received != {} then OK else ERROR, false)))
  {
    hide Possible, After, OpenNext, TakeNext, CloseNext, ReaderNext;
    run, s' := Solo(s, Proceed(i));
    assert With(s.(dataMutex := Some(ByClient(i))), s', i, InWait(WaitTest(mask, false)));
    run, s' := Then(s, run, s', Proceed(i));
    assert With(s.(dataMutex := Some(ByClient(i))), s', i, InWait(WaitVerdict(mask, false, false)));
    run, s' := Then(s, run, s', Proceed(i));
  }

  /** A client sees the port open, a read fails, and the client runs to its verdict. */
  lemma StoppedWait(s: State, mask: KindMask) returns (run: seq<Action>, s': State)
    requires s.crash == None && s.portOpen && s.running && s.reader == AtLoop
    requires s.mutex == None && s.dataMutex == None && s.clients == [Idle]
    ensures Possible(s, run) && s' == After(s, run)
    ensures s'.clients == [InWait(WaitDone(mask, if mask != {} && s.received != {} then OK else ERROR, false))]
    ensures s'.queue == s.queue && s'.past.closed == s.past.closed
    ensures s'.past == s.past.(log := s.past.log + [Failed], faults := s.past.faults + {ReadError},
                               setbacks := s.past.setbacks + 1)
  {
    hide Possible, After, Next, Enabled;
    var r1, s1 := SoloIsOpen(s, 0, mask);
    var r2, s2 := SoloReadError(s1);
    Concat(s, r1, r2);
    var r3, s3 := SoloVerdict(s2, 0, mask);
    Concat(s, r1 + r2, r3);
    run, s' := r1 + r2 + r3, s3;
  }

  /** `wait_for_data` on a closed port is refused and changes nothing. */
  lemma SoloWaitRefused(s: State, i: nat, mask: KindMask) returns (run: seq<Action>, s': State)
    requires s.crash == None && s.mutex == None && !s.portOpen && i < |s.clients| && s.clients[i] == Idle
    ensures Possible(s, run) && s' == After(s, run) == s
  {
    hide Possible, After, OpenNext, TakeNext, CloseNext, ReaderNext;
    run, s' := Solo(s, Begin(i, CallWait(mask)));
    run, s' := Then(s, run, s', Proceed(i));
    assert With(s.(mutex := Some(i)), s', i, InWait(WaitCheck(mask)));
    run, s' := Then(s, run, s', Proceed(i));
    run, s' := Then(s, run, s', Proceed(i));
    assert s'.clients == s.clients;
  }

  /** From power-up: the device is silent, the deadline passes, and the waiter answers TIMEOUT. */
  lemma WaitTimesOut(mask: KindMask) returns (run: seq<Action>)
    ensures Possible(Initial(1), run)
    ensures var s := After(Initial(1), run);
            s.clients == [InWait(WaitDone(mask, TIMEOUT, true))] && s.running && s.past.log == []
  {
    hide Possible, After, Next, Enabled;
    var opening, s1 := SoloOpen(Initial(1), 0, false);
    var waiting, s2 := SoloWait(s1, 0, mask);
    Concat(Initial(1), opening, waiting);
    var expiring, s3 := SoloExpire(s2, mask);
    Concat(Initial(1), opening + waiting, expiring);
    run := opening + waiting + expiring;
  }

  lemma SoloExpire(s: State, mask: KindMask) returns (run: seq<Action>, s': State)
    requires s.crash == None && s.running && s.received == {} && s.clients == [InWait(AboutToBlock(mask))]
    ensures Possible(s, run) && s' == After(s, run)
    ensures s'.clients == [InWait(WaitDone(mask, TIMEOUT, true))] && s'.running && s'.past.log == s.past.log
  {
    hide Possible, After, OpenNext, TakeNext, CloseNext, ReaderNext;
    run, s' := Solo(s, Proceed(0));
    assert With(s.(dataMutex := None), s', 0, InWait(Blocked(mask)));
    run, s' := Then(s, run, s', Wake(0, true));
    assert With(s.(dataMutex := None), s', 0, InWait(Woken(mask, true)));
    var rest;
    rest, s' := SoloTimeout(s', mask);
    Concat(s, run, rest);
    run := run + rest;
  }

  lemma SoloTimeout(s: State, mask: KindMask) returns (run: seq<Action>, s': State)
    requires s.crash == None && s.running && s.received == {} && s.dataMutex == None
    requires s.clients == [InWait(Woken(mask, true))]
    ensures Possible(s, run) && s' == After(s, run)
    ensures s'.clients == [InWait(WaitDone(mask, TIMEOUT, true))] && s'.running && s'.past.log == s.past.log
  {
    hide Possible, After, OpenNext, TakeNext, CloseNext, ReaderNext;
    run, s' := Solo(s, Proceed(0));
    assert With(s.(dataMutex := Some(ByClient(0))), s', 0, InWait(WaitTest(mask, true)));
    run, s' := Then(s, run, s', Proceed(0));
    assert With(s.(dataMutex := Some(ByClient(0))), s', 0, InWait(WaitVerdict(mask, true, true)));
    run, s' := Then(s, run, s', Proceed(0));
  }
}
