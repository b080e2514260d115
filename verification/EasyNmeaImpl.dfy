/** `EasyNmeaImpl` run by one thread at a time: its methods as the source writes them, specified by
    functions that the concurrent protocol's own steps compute as well. */
module EasyNmeaImpls {
  import opened Coder
  import opened FixedSizeQueues
  import opened Framing
  import opened Protocol
  import opened ProtocolInvariants
  import opened ProtocolRuns
  import opened Records
  import opened SerialInterfaces
  import opened Witnesses
  import opened Wrappers

  /** The queue after pushing samples one by one. */
  function PushAll(c: seq<GpggaData>, samples: seq<GpggaData>): seq<GpggaData> {
    if samples == [] then c else
      PushOn(PushAll(c, samples[..|samples| - 1]), CAPACITY, samples[|samples| - 1])
  }

  /** The mask that belongs to a queue. */
  function MaskOf(c: seq<GpggaData>): KindMask { if c == [] then {} else {GPGGA_BIT} }

  /** Pushing keeps exactly the last ten. */
  lemma {:induction false} PushAllKeepsLast(c: seq<GpggaData>, samples: seq<GpggaData>)
    requires |c| <= CAPACITY
    ensures var all := c + samples;
            PushAll(c, samples) == if |all| <= CAPACITY then all else all[|all| - CAPACITY..]
  {
    if samples == [] {
      assert c + samples == c;
    } else {
      var most, last := samples[..|samples| - 1], samples[|samples| - 1];
      PushAllKeepsLast(c, most);
      assert samples == most + [last];
      assert c + samples == (c + most) + [last];
    }
  }

  lemma PushNone(c: seq<GpggaData>)
    ensures PushAll(c, []) == c
  {
  }

  lemma PushOne(c: seq<GpggaData>, sample: GpggaData)
    ensures PushAll(c, [sample]) == PushOn(c, CAPACITY, sample)
  {
    assert [sample][..0] == [];
  }

  /** The stream, what was consumed of it, the queue, and how often `cv_` has been notified. */
  datatype Snapshot = Snapshot(
    log: seq<PortEvent>, incoming: seq<PortEvent>, content: seq<GpggaData>, notified: nat)

  /** What the read routine makes of what it has consumed: the same events, moved from the stream to
      the log; the completed lines kept in order; and a queue that has received exactly the samples
      decoded from the new lines, each with a notification. */
  ghost predicate Processed(p: Snapshot, p': Snapshot) {
    var before, after := Framed(p.log).lines, Framed(p'.log).lines;
    && p.log <= p'.log && p'.log + p'.incoming == p.log + p.incoming
    && before <= after
    && var samples := Samples(after[|before|..]);
       p'.content == PushAll(p.content, samples) && p'.notified == p.notified + |samples|
  }

  /** The same, and one more notification for the end of the routine. */
  ghost predicate ProcessedAndStopped(p: Snapshot, p': Snapshot) {
    p'.notified >= 1 && Processed(p, p'.(notified := p'.notified - 1))
  }

  /** One of the lines completed between `log` and `log'` makes a conversion throw. */
  ghost predicate Throws(log: seq<PortEvent>, log': seq<PortEvent>) {
    var before, after := Framed(log).lines, Framed(log').lines;
    exists k | |before| <= k < |after| :: Decoding(after[k]) == Terminates
  }

  ghost predicate LastLineThrows(log: seq<PortEvent>) {
    var lines := Framed(log).lines;
    lines != [] && Decoding(lines[|lines| - 1]) == Terminates
  }

  lemma OneLineThrows(log: seq<PortEvent>, log': seq<PortEvent>, line: string)
    requires Framed(log').lines == Framed(log).lines + [line]
    ensures Throws(log, log') <==> Decoding(line) == Terminates
    ensures LastLineThrows(log') <==> Decoding(line) == Terminates
  {
    hide Framed, Decoding;
    assert Framed(log').lines[|Framed(log).lines|] == line;
  }

  lemma NoLineThrows(log: seq<PortEvent>, log': seq<PortEvent>)
    requires Framed(log').lines == Framed(log).lines
    ensures !Throws(log, log')
  {
    hide Framed, Decoding;
  }

  lemma ThrowsTwice(log0: seq<PortEvent>, log1: seq<PortEvent>, log2: seq<PortEvent>)
    requires Framed(log0).lines <= Framed(log1).lines <= Framed(log2).lines
    ensures Throws(log0, log2) <==> Throws(log0, log1) || Throws(log1, log2)
  {
    hide Framed, Decoding;
    var l1, l2 := Framed(log1).lines, Framed(log2).lines;
    forall k | 0 <= k < |l1| ensures l1[k] == l2[k] {}
  }

  lemma ProcessedLines(p: Snapshot, p': Snapshot)
    requires Processed(p, p')
    ensures Framed(p.log).lines <= Framed(p'.log).lines
  {
  }

  /** What a running routine has done: besides its processing, what it consumed, the port it leaves, and
      the flag, which it clears exactly when it found the port closed or a read ended with an error. */
  ghost predicate Advanced(p: Snapshot, wasOpen: bool, p': Snapshot, isOpen: bool, running: bool, onError: CloseResult) {
    && (if running then Processed(p, p') else ProcessedAndStopped(p, p'))
    && OnlyLastFails(p.log, p'.log)
    && isOpen == OpenAfter(wasOpen, p.log, p'.log, onError)
    && (running <==> wasOpen && !EndsInError(p.log, p'.log))
  }

  lemma AdvancedTwice(p: Snapshot, open0: bool, q: Snapshot, open1: bool, r: Snapshot, open2: bool, running: bool,
                      onError: CloseResult)
    requires Advanced(p, open0, q, open1, true, onError) && Advanced(q, open1, r, open2, running, onError)
    ensures Advanced(p, open0, r, open2, running, onError)
  {
    ProcessedTwice(p, q, if running then r else r.(notified := r.notified - 1));
    hide Processed;
  }

  lemma AdvancedThrows(log: seq<PortEvent>, p: Snapshot, open1: bool, p': Snapshot, open2: bool, running: bool,
                       onError: CloseResult)
    requires Framed(log).lines <= Framed(p.log).lines && Advanced(p, open1, p', open2, running, onError)
    ensures Framed(p.log).lines <= Framed(p'.log).lines
    ensures Throws(log, p'.log) <==> Throws(log, p.log) || Throws(p.log, p'.log)
  {
    ProcessedLines(p, if running then p' else p'.(notified := p'.notified - 1));
    ThrowsTwice(log, p.log, p'.log);
    hide Framed, Throws, Processed;
  }

  /** Without an error in the stream the routine goes on until everything delivered is consumed. */
  lemma BytesDoNotStop(p: Snapshot, p': Snapshot, isOpen: bool, running: bool, onError: CloseResult)
    requires Advanced(p, true, p', isOpen, running, onError)
    requires OnlyBytes(p.incoming)
    ensures running
  {
    hide Framed, Samples, PushAll;
    ConsumedFromStream(p, p');
  }

  ghost predicate OnlyBytes(events: seq<PortEvent>) { forall k | 0 <= k < |events| :: events[k].Byte? }

  lemma ConsumedFromStream(p: Snapshot, p': Snapshot)
    requires p.log <= p'.log && p'.log + p'.incoming == p.log + p.incoming
    ensures |p'.log| <= |p.log| + |p.incoming|
    ensures forall k | |p.log| <= k < |p'.log| :: p'.log[k] == p.incoming[k - |p.log|]
  {
    assert |p'.log + p'.incoming| == |p.log + p.incoming|;
    forall k | |p.log| <= k < |p'.log| ensures p'.log[k] == p.incoming[k - |p.log|] {
      assert (p'.log + p'.incoming)[k] == p'.log[k] && (p.log + p.incoming)[k] == p.incoming[k - |p.log|];
    }
  }

  lemma NoLineProcessed(p: Snapshot, p': Snapshot)
    requires p.log <= p'.log && p'.log + p'.incoming == p.log + p.incoming
    requires Framed(p'.log).lines == Framed(p.log).lines && p'.content == p.content && p'.notified == p.notified
    ensures Processed(p, p')
  {
    hide Framed;
    assert Framed(p'.log).lines[|Framed(p.log).lines|..] == [];
  }

  lemma LineProcessed(p: Snapshot, p': Snapshot, line: string)
    requires p.log <= p'.log && p'.log + p'.incoming == p.log + p.incoming
    requires Framed(p'.log).lines == Framed(p.log).lines + [line]
    requires p'.content == PushAll(p.content, SampleOf(line)) && p'.notified == p.notified + |SampleOf(line)|
    ensures Processed(p, p')
  {
    SamplesSnoc([], line);
    hide Framed, SampleOf, PushAll;
    assert Framed(p'.log).lines[|Framed(p.log).lines|..] == [line];
    assert [] + [line] == [line] && Samples([]) + SampleOf(line) == SampleOf(line);
  }

  lemma {:induction false} SamplesAppend(a: seq<string>, b: seq<string>)
    ensures Samples(a + b) == Samples(a) + Samples(b)
    decreases |b|
  {
    hide SampleOf;
    if b == [] {
      assert a + b == a;
    } else {
      var n := |b| - 1;
      SamplesAppend(a, b[..n]);
      assert (a + b)[..|a| + n] == a + b[..n];
    }
  }

  lemma {:induction false} PushAllTwice(c: seq<GpggaData>, a: seq<GpggaData>, b: seq<GpggaData>)
    ensures PushAll(c, a + b) == PushAll(PushAll(c, a), b)
    decreases |b|
  {
    if b == [] {
      assert a + b == a;
    } else {
      var n := |b| - 1;
      PushAllTwice(c, a, b[..n]);
      assert (a + b)[..|a| + n] == a + b[..n];
    }
  }

  lemma ProcessedTwice(p: Snapshot, q: Snapshot, r: Snapshot)
    requires Processed(p, q) && Processed(q, r)
    ensures Processed(p, r)
  {
    hide Framed, Samples, PushAll;
    var l0, l1, l2 := Framed(p.log).lines, Framed(q.log).lines, Framed(r.log).lines;
    assert l2[|l0|..] == l1[|l0|..] + l2[|l1|..];
    SamplesAppend(l1[|l0|..], l2[|l1|..]);
    PushAllTwice(p.content, Samples(l1[|l0|..]), Samples(l2[|l1|..]));
  }

  class EasyNmeaImpl {
    const serial: SerialInterface
    const queue: FixedSizeQueue<GpggaData>
    var received: KindMask
    var routineRunning: bool
    var readThread: ThreadHandle
    /** How often `cv_` has been notified. */
    var notified: nat
    /** The process went down. */
    var terminated: bool

    ghost predicate Valid()
      reads this, serial, queue
    {
      queue.Valid() && queue.maxSize == CAPACITY && received == MaskOf(queue.c)
    }

    ghost function Now(): Snapshot
      reads this, serial, queue
    {
      Snapshot(serial.log, serial.incoming, queue.c, notified)
    }

    constructor (serial: SerialInterface)
      ensures notified == 0 && Valid() && queue.c == [] && !routineRunning && readThread == NoThread && !terminated
      ensures this.serial == serial && fresh(queue)
    {
      this.serial := serial;
      this.queue := new FixedSizeQueue(CAPACITY);
      received := {};
      routineRunning := false;
      readThread := NoThread;
      notified := 0;
      terminated := false;
    }

    method TakeNext() returns (code: ReturnCode, sample: Option<GpggaData>)
      requires Valid()
      modifies this`received, queue
      ensures Valid()
      ensures old(queue.c) == [] ==> code == NO_DATA && sample == None && queue.c == []
      ensures old(queue.c) != [] ==> code == OK && sample == Some(old(queue.c)[0]) && queue.c == old(queue.c)[1..]
    {
      if queue.c != [] {
        sample := Some(queue.c[0]);
        queue.Pop();
        if queue.c == [] {
          received := received - {GPGGA_BIT};
        }
        return OK, sample;
      }
      return NO_DATA, None;
    }

    method ProcessLine(line: string) returns (processed: bool)
      requires Valid() && !terminated
      modifies this`received, this`terminated, this`notified, queue
      ensures Valid()
      ensures processed <==> Decoding(line).Gpgga?
      ensures terminated <==> Decoding(line) == Terminates
      ensures queue.c == PushAll(old(queue.c), SampleOf(line))
      ensures notified == old(notified) + |SampleOf(line)|
    {
      hide Decoding;
      var data := Decode(line);
      hide PushAll;
      match data {
        case Gpgga(sample) =>
          PushOne(queue.c, sample);
          queue.Push(sample);
          received := received + {GPGGA_BIT};
          notified := notified + 1;
          return true;
        case Invalid =>
          PushNone(queue.c);
          return false;
        case Terminates =>
          PushNone(queue.c);
          terminated := true;
          return false;
      }
    }

    /** Reads and processes lines until the flag is cleared. `blocked`: everything delivered so far is
        processed and a read is pending. */
    method ReadRoutine(onError: CloseResult) returns (blocked: bool)
      requires Valid() && !terminated && serial.BetweenLines()
      modifies this`received, this`terminated, this`notified, this`routineRunning, queue, serial
      ensures Valid()
      ensures !old(routineRunning) ==> !routineRunning && !blocked && !terminated
                                       && Now() == old(Now()) && serial.isOpen == old(serial.isOpen)
      ensures old(routineRunning) ==>
                Advanced(old(Now()), old(serial.isOpen), Now(), serial.isOpen, routineRunning, onError)
      ensures terminated <==> Throws(old(serial.log), serial.log)
      ensures terminated ==> routineRunning && LastLineThrows(serial.log)
      ensures blocked <==> routineRunning && !terminated
      ensures blocked ==> serial.incoming == []
      ensures old(routineRunning && serial.isOpen && OnlyBytes(serial.incoming)) ==> terminated || blocked
    {
      NoLineThrows(serial.log, serial.log);
      hide Advanced, Throws, LastLineThrows, Framed;
      blocked := false;
      ghost var stepped := false;
      while routineRunning
        invariant Valid() && serial.BetweenLines() && !terminated && !blocked
        invariant stepped ==> old(routineRunning)
        invariant if stepped then
                    Advanced(old(Now()), old(serial.isOpen), Now(), serial.isOpen, routineRunning, onError)
                  else
                    Now() == old(Now()) && serial.isOpen == old(serial.isOpen) && routineRunning == old(routineRunning)
        invariant Framed(old(serial.log)).lines <= Framed(serial.log).lines
        invariant !Throws(old(serial.log), serial.log)
        decreases |serial.incoming|, routineRunning
      {
        ghost var before, wasOpen := Now(), serial.isOpen;
        var outcome := RoutineStep(onError);
        AdvancedThrows(old(serial.log), before, wasOpen, Now(), serial.isOpen, routineRunning, onError);
        if stepped {
          AdvancedTwice(old(Now()), old(serial.isOpen), before, wasOpen, Now(), serial.isOpen, routineRunning, onError);
        }
        stepped := true;
        if terminated {
          break;
        } else if outcome == StillReading {
          blocked := true;
          break;
        }
      }
      if old(routineRunning && serial.isOpen && OnlyBytes(serial.incoming)) {
        BytesDoNotStop(old(Now()), Now(), serial.isOpen, routineRunning, onError);
      }
    }

    /** The body of the routine's loop: read a line and process it, or clear the flag. */
    method RoutineStep(onError: CloseResult) returns (outcome: ReadOutcome)
      requires Valid() && !terminated && serial.BetweenLines()
      modifies this`received, this`terminated, this`notified, this`routineRunning, queue, serial
      ensures Valid()
      ensures routineRunning == (outcome != ReadFailed && old(routineRunning))
      ensures Advanced(old(Now()), old(serial.isOpen), Now(), serial.isOpen, outcome != ReadFailed, onError)
      ensures outcome == LineRead ==> |serial.incoming| < |old(serial.incoming)|
      ensures terminated <==> Throws(old(serial.log), serial.log)
      ensures terminated ==> LastLineThrows(serial.log)
      ensures outcome != StillReading ==> serial.BetweenLines()
      ensures outcome == StillReading ==> serial.incoming == []
      ensures terminated ==> outcome == LineRead
    {
      hide Decoding, SampleOf, Framed, PushAll, PushOn, MaskOf, Processed, Throws, LastLineThrows;
      ghost var before := Now();
      var line;
      outcome, line := serial.ReadLine("", onError);
      if outcome == LineRead {
        assert serial.log != before.log && |serial.log + serial.incoming| == |before.log + before.incoming|;
        var _ := ProcessLine(line);
        LineProcessed(before, Now(), line);
        OneLineThrows(before.log, serial.log, line);
      } else {
        NoLineProcessed(before, Now());
        NoLineThrows(before.log, serial.log);
        if outcome == ReadFailed {
          routineRunning := false;
          notified := notified + 1;
        }
      }
    }

    /** `open`, with `mutex_` held throughout. Overwriting a joinable thread ends the process. */
    method Open(portFails: bool, optionFails: bool) returns (code: ReturnCode)
      requires !terminated
      modifies this`routineRunning, this`readThread, this`terminated, serial`isOpen
      ensures code == ILLEGAL_OPERATION <==> old(serial.isOpen)
      ensures code == ERROR <==> !old(serial.isOpen) && (portFails || optionFails)
      ensures serial.isOpen <==> old(serial.isOpen) || !portFails
      ensures code == OK ==> routineRunning && (terminated <==> old(readThread) == Joinable) && readThread == Joinable
      ensures code != OK ==> routineRunning == old(routineRunning) && readThread == old(readThread) && !terminated
      ensures code in {OK, ERROR, ILLEGAL_OPERATION}
    {
      if !serial.isOpen {
        var ok := serial.Open(portFails, optionFails);
        if ok {
          routineRunning := true;
          terminated := readThread == Joinable;
          readThread := Joinable;
          return OK;
        } else {
          return ERROR;
        }
      }
      return ILLEGAL_OPERATION;
    }

    /** `close`. Joining a null thread ends the process. */
    method Close(result: CloseResult) returns (code: ReturnCode)
      requires !terminated
      modifies this`routineRunning, this`readThread, this`terminated, this`notified, serial`isOpen
      ensures code == ILLEGAL_OPERATION <==> !old(serial.isOpen)
      ensures notified == old(notified) + if old(serial.isOpen) && !terminated then 1 else 0
      ensures code == OK <==> old(serial.isOpen) && result == Closed
      ensures code in {OK, ERROR, ILLEGAL_OPERATION}
      ensures serial.isOpen <==> old(serial.isOpen) && result == ErrorStillOpen
      ensures old(serial.isOpen) ==>
                !routineRunning && readThread == NoThread && (terminated <==> old(readThread) == NoThread)
      ensures !old(serial.isOpen) ==>
                routineRunning == old(routineRunning) && readThread == old(readThread) && !terminated
    {
      code := ILLEGAL_OPERATION;
      if serial.isOpen {
        routineRunning := false;
        var ok := serial.Close(result);
        code := if ok then OK else ERROR;
        if readThread == NoThread {
          terminated := true;
          return;
        }
        readThread := NoThread;
        notified := notified + 1;
      }
    }
  }

  // ---------- The protocol's critical sections do the same ----------

  /** Between its acquisition and its release of `data_mutex_`, a taker does what `TakeNext` does; `mid`
      is the state in which it returns. */
  lemma TakeSectionIsTakeNext(s: State, i: nat)
    returns (run: seq<Action>, mid: State, taken: Option<GpggaData>, e: State)
    requires i < |s.clients| && s.crash == None && s.clients[i] == InTake(TakeCheck)
    requires s.received == MaskOf(s.queue.content)
    ensures Possible(s, run) && mid == After(s, run) && mid.dataMutex == s.dataMutex
    ensures i < |mid.clients| && mid.clients[i] == InTake(TakeRelease(taken))
    ensures taken == if s.queue.content == [] then None else Some(s.queue.content[0])
    ensures Enabled(mid, Proceed(i)) && e == Next(mid, Proceed(i))
    ensures With(e.(clients := s.clients), e, i, Idle) && e.dataMutex == None
    ensures e.received == MaskOf(e.queue.content)
    ensures e.queue.content == if s.queue.content == [] then [] else s.queue.content[1..]
    ensures e.past.delivered == s.past.delivered + if s.queue.content == [] then [] else [s.queue.content[0]]
  {
    hide Possible, After, OpenNext, CloseNext, WaitNext, ReaderNext;
    var empty := s.queue.content == [];
    taken := if empty then None else Some(s.queue.content[0]);
    run, mid := Solo(s, Proceed(i));
    if !empty {
      run, mid := Then(s, run, mid, Proceed(i));
    }
    e := Next(mid, Proceed(i));
    assert e.clients == s.clients[i := Idle];
  }

  /** Between its acquisition and its release, the reader does what `ProcessLine` does with a sample. */
  lemma PushSectionIsProcessLine(s: State, sample: GpggaData) returns (run: seq<Action>, e: State)
    requires s.crash == None && s.reader == AtPush(sample) && s.received == MaskOf(s.queue.content)
    ensures Possible(s, run) && e == After(s, run)
    ensures e.reader == AtNotify && e.dataMutex == None && e.clients == s.clients
    ensures e.received == MaskOf(e.queue.content)
    ensures e.queue.content == PushAll(s.queue.content, [sample])
  {
    hide Possible, After, OpenNext, CloseNext, WaitNext, TakeNext, Decoding;
    var step := ReaderStep(Aborted, Closed);
    run, e := Solo(s, step);
    run, e := Then(s, run, e, step);
    run, e := Then(s, run, e, step);
    PushOne(s.queue.content, sample);
  }

  /** Under `mutex_`, a client in `open` does what `Open` does. */
  lemma OpenSectionIsOpen(s: State, i: nat, portFails: bool, optionFails: bool)
    returns (run: seq<Action>, e: State, code: ReturnCode)
    requires i < |s.clients| && s.crash == None && s.clients[i] == InOpen(OpenCheck)
    ensures Possible(s, run) && e == After(s, run)
    ensures code == ILLEGAL_OPERATION <==> s.portOpen
    ensures code == ERROR <==> !s.portOpen && (portFails || optionFails)
    ensures e.portOpen <==> s.portOpen || !portFails
    ensures code == OK ==>
              e.running && e.thread == Joinable && (e.crash == Some(ThreadOverwritten) <==> s.thread == Joinable)
    ensures code != OK ==> e.running == s.running && e.thread == s.thread
    ensures code != OK || s.thread != Joinable ==>
              e.crash == None && i < |e.clients| && e.clients[i] == InOpen(OpenRelease(code))
  {
    hide Possible, After, CloseNext, TakeNext, WaitNext, ReaderNext;
    run, e := Solo(s, Proceed(i));
    code := ILLEGAL_OPERATION;
    if !s.portOpen {
      code := if portFails || optionFails then ERROR else OK;
      var rest;
      rest, e := OpenSerial(e, i, portFails, optionFails);
      Concat(s, run, rest);
      run := run + rest;
      if code == OK {
        run, e := Then(s, run, e, Proceed(i));
      }
    }
  }

  /** The steps inside `SerialInterface::open`, and the store of the flag if it succeeds. */
  lemma OpenSerial(s: State, i: nat, portFails: bool, optionFails: bool) returns (run: seq<Action>, e: State)
    requires i < |s.clients| && s.crash == None && s.clients[i] == InOpen(OpenPort) && !s.portOpen
    ensures Possible(s, run) && e == After(s, run)
    ensures e.crash == None && e.thread == s.thread && (e.portOpen <==> !portFails) && i < |e.clients|
    ensures if portFails || optionFails then e.clients[i] == InOpen(OpenRelease(ERROR)) && e.running == s.running
            else e.clients[i] == InOpen(OpenSpawn) && e.running
  {
    hide Possible, After, CloseNext, TakeNext, WaitNext, ReaderNext;
    run, e := Solo(s, Continue(i, portFails, Closed));
    if !portFails {
      run, e := Then(s, run, e, Continue(i, optionFails, Closed));
      if !optionFails {
        run, e := Then(s, run, e, Proceed(i));
      }
    }
  }

  lemma JoinAndReset(s: State, i: nat, code: ReturnCode) returns (run: seq<Action>, e: State)
    requires i < |s.clients| && s.crash == None && s.clients[i] == InClose(CloseJoin(code))
    requires s.thread == NoThread || (s.thread == Joinable && s.reader == Returned)
    ensures Possible(s, run) && e == After(s, run)
    ensures e.portOpen == s.portOpen && e.running == s.running && e.thread == NoThread
    ensures if s.thread == NoThread then e.crash == Some(JoinOfNothing)
            else e.crash == None && i < |e.clients| && e.clients[i] == InClose(CloseRelease(code, true))
  {
    hide Possible, After, OpenNext, TakeNext, WaitNext, ReaderNext, NotifyAll;
    run, e := Solo(s, Proceed(i));
    if e.crash == None {
      run, e := Then(s, run, e, Proceed(i));
    }
  }

  /** Under `mutex_`, once the read thread has returned, a client in `close` does what `Close` does; then
      it lets go of `mutex_`, to notify with its answer if it had found the port open. */
  lemma CloseSectionIsClose(s: State, i: nat, result: CloseResult)
    returns (run: seq<Action>, e: State, code: ReturnCode)
    requires i < |s.clients| && s.crash == None && s.clients[i] == InClose(CloseCheck)
    requires s.thread == NoThread || (s.thread == Joinable && s.reader == Returned)
    ensures Possible(s, run) && e == After(s, run)
    ensures code == if !s.portOpen then ILLEGAL_OPERATION else if result == Closed then OK else ERROR
    ensures e.portOpen <==> s.portOpen && result == ErrorStillOpen
    ensures s.portOpen ==>
              !e.running && e.thread == NoThread && (e.crash == Some(JoinOfNothing) <==> s.thread == NoThread)
    ensures !s.portOpen ==> e.running == s.running && e.thread == s.thread && e.crash == None
    ensures e.crash == None ==>
              && i < |e.clients| && e.clients[i] == InClose(CloseRelease(code, s.portOpen)) && Enabled(e, Proceed(i))
              && var r := Next(e, Proceed(i));
                 r.mutex == None && i < |r.clients|
                 && r.clients[i] == if s.portOpen then InClose(CloseNotify(code)) else Idle
  {
    hide Possible, After, OpenNext, TakeNext, WaitNext, ReaderNext, NotifyAll;
    if s.portOpen {
      assert With(s, s, i, InClose(CloseCheck));
      run, e := CloseUpToJoin(s, s, i, result);
      code := if result == Closed then OK else ERROR;
      var rest;
      rest, e := JoinAndReset(e, i, code);
      Concat(s, run, rest);
      run := run + rest;
    } else {
      run, e := Solo(s, Proceed(i));
      code := ILLEGAL_OPERATION;
    }
  }
}
