/** Every reachable state is safe. */
module ProtocolRuns {
  import opened Coder
  import opened FixedSizeQueues
  import opened Framing
  import opened Protocol
  import opened ProtocolInvariants
  import opened Records
  import opened SerialInterfaces
  import opened Wrappers

  // ---------- Deliveries ----------

  lemma SamplesSnoc(lines: seq<string>, line: string)
    ensures Samples(lines + [line]) == Samples(lines) + SampleOf(line)
  {
    hide SampleOf;
    assert (lines + [line])[..|lines|] == lines;
  }

  lemma {:induction false} TakenOfLonger(pushes: seq<GpggaData>, more: seq<GpggaData>, exits: seq<Exit>)
    requires |exits| <= |pushes|
    ensures Taken(pushes + more, exits) == Taken(pushes, exits)
  {
    if exits == [] {
    } else {
      TakenOfLonger(pushes, more, exits[..|exits| - 1]);
    }
  }

  lemma TakenSnoc(pushes: seq<GpggaData>, exits: seq<Exit>, e: Exit)
    requires |exits| < |pushes|
    ensures Taken(pushes, exits + [e]) == Taken(pushes, exits) + if e.Popped? then [pushes[|exits|]] else []
  {
    assert (exits + [e])[..|exits|] == exits;
  }

  lemma ReadKeepsDeliveries(s: State, line: string, event: PortEvent)
    requires Deliveries(s) && s.reader == Reading(line)
    ensures Deliveries(ReadOne(s, line, event))
  {
    FramedSnoc(s.past.log, event);
    SamplesSnoc(Framed(s.past.log).lines, line);
    hide Framed, Samples, SampleOf, Taken;
  }

  lemma PushKeepsDeliveries(s: State, sample: GpggaData)
    requires Deliveries(s) && Accounted(s.queue, CAPACITY) && s.reader == AtPush(sample)
    ensures Deliveries(s.(queue := Step(s.queue, CAPACITY, Push(sample)), reader := AtSet))
  {
    var q := s.queue;
    TakenOfLonger(q.pushes, [sample], q.exits);
    if |q.content| >= CAPACITY {
      TakenSnoc(q.pushes + [sample], q.exits, Dropped(|q.pushes|));
    }
    hide Framed, Samples, Taken, Accounted;
  }

  lemma PopKeepsDeliveries(s: State)
    requires Deliveries(s) && Accounted(s.queue, CAPACITY) && s.queue.content != []
    ensures var s' := s.(queue := Step(s.queue, CAPACITY, Pop),
                         past := s.past.(delivered := s.past.delivered + [s.queue.content[0]]));
            Deliveries(s')
  {
    TakenSnoc(s.queue.pushes, s.queue.exits, Popped(|s.queue.pushes|));
    hide Framed, Samples, Taken;
  }

  lemma DecodeKeepsDeliveries(s: State, line: string, event: PortEvent, result: CloseResult)
    requires Deliveries(s) && s.reader == AtDecode(line)
    ensures Deliveries(ReaderNext(s, event, result))
  {
    hide Decoding, Framed, Samples, Taken;
  }

  /** Holding no sample and no part of a line. */
  predicate PlainReader(r: Reader) { !r.Reading? && !r.AtDecode? && !r.WantsData? && !r.AtPush? }

  /** What `Deliveries` looks at. */
  predicate SameDeliveries(s: State, s': State) {
    && s'.queue == s.queue && s'.past.log == s.past.log && s'.past.delivered == s.past.delivered
    && (s'.reader == s.reader || (PlainReader(s.reader) && PlainReader(s'.reader)))
  }

  lemma SameKeepsDeliveries(s: State, s': State)
    requires Deliveries(s) && SameDeliveries(s, s')
    ensures Deliveries(s')
  {
    hide Framed, Samples, SampleOf, Taken;
  }

  lemma ReaderKeepsDeliveries(s: State, event: PortEvent, result: CloseResult)
    requires Deliveries(s) && Accounted(s.queue, CAPACITY) && ReaderEnabled(s, event)
    ensures Deliveries(ReaderNext(s, event, result))
  {
    hide Deliveries, Accounted, ReadOne, Decoding, Step, NotifyAll;
    if s.reader.Reading? {
      ReadKeepsDeliveries(s, s.reader.line, event);
    } else if s.reader.AtPush? {
      PushKeepsDeliveries(s, s.reader.sample);
    } else if s.reader.AtDecode? {
      DecodeKeepsDeliveries(s, s.reader.line, event, result);
    } else if s.reader.AtReadLine? || s.reader.WantsData? {
      ReceiveKeepsDeliveries(s, event, result);
    } else {
      SameKeepsDeliveries(s, ReaderNext(s, event, result));
    }
  }

  lemma ReceiveKeepsDeliveries(s: State, event: PortEvent, result: CloseResult)
    requires Deliveries(s) && ReaderEnabled(s, event) && (s.reader.AtReadLine? || s.reader.WantsData?)
    ensures Deliveries(ReaderNext(s, event, result))
  {
    hide Framed, Samples, SampleOf, Taken;
  }

  lemma OpenKeepsDeliveries(s: State, i: nat, o: OpenPoint, fails: bool)
    requires i < |s.clients| && Deliveries(s) && (s.thread != Joinable ==> s.reader == Absent)
    ensures Deliveries(OpenNext(s, i, o, fails))
  {
    hide Deliveries;
    SameKeepsDeliveries(s, OpenNext(s, i, o, fails));
  }

  lemma CloseKeepsDeliveries(s: State, i: nat, c: ClosePoint, result: CloseResult)
    requires i < |s.clients| && s.clients[i] == InClose(c) && ContinueEnabled(s, i) && Deliveries(s)
    requires s.thread != Joinable ==> s.reader == Absent
    ensures Deliveries(CloseNext(s, i, c, result))
  {
    hide Deliveries, NotifyAll;
    SameKeepsDeliveries(s, CloseNext(s, i, c, result));
  }

  lemma WaitKeepsDeliveries(s: State, i: nat, w: WaitPoint, late: bool)
    requires i < |s.clients| && !w.Blocked? && Deliveries(s)
    ensures Deliveries(WaitNext(s, i, w, late))
  {
    hide Deliveries;
    SameKeepsDeliveries(s, WaitNext(s, i, w, late));
  }

  lemma TakeKeepsDeliveries(s: State, i: nat, t: TakePoint)
    requires i < |s.clients| && Deliveries(s) && Accounted(s.queue, CAPACITY)
    ensures Deliveries(TakeNext(s, i, t))
  {
    hide Deliveries, Accounted, Step;
    var s' := TakeNext(s, i, t);
    if t.TakeCheck? && s.queue.content != [] {
      PopKeepsDeliveries(s);
      var popped := s.(queue := Step(s.queue, CAPACITY, Pop),
                       past := s.past.(delivered := s.past.delivered + [s.queue.content[0]]));
      SameKeepsDeliveries(popped, s');
    } else {
      SameKeepsDeliveries(s, s');
    }
  }

  // ---------- Crashes ----------

  lemma DecodeCrashes(s: State, line: string, event: PortEvent, result: CloseResult)
    requires s.crash == None && Deliveries(s) && s.reader == AtDecode(line)
    ensures Crashes(ReaderNext(s, event, result))
  {
    hide Decoding, Framed, Samples, SampleOf, Taken, Step, NotifyAll, ReadOne;
    if Decoding(line) == Terminates {
      assert line in Framed(s.past.log).lines;
    }
  }

  lemma ReaderCrashes(s: State, event: PortEvent, result: CloseResult)
    requires s.crash == None && Deliveries(s) && ReaderEnabled(s, event)
    ensures Crashes(ReaderNext(s, event, result))
  {
    hide Deliveries, ReaderNext;
    if s.reader.AtDecode? {
      DecodeCrashes(s, s.reader.line, event, result);
    } else {
      ReaderAlive(s, event, result);
    }
  }

  lemma OpenCrashes(s: State, i: nat, o: OpenPoint, fails: bool)
    requires s.crash == None && i < |s.clients| && s.clients[i] == InOpen(o)
    requires !o.OpenWants? ==> OwnerView(s, s.clients[i])
    ensures Crashes(OpenNext(s, i, o, fails))
  {
  }

  lemma CloseCrashes(s: State, i: nat, c: ClosePoint, result: CloseResult)
    requires s.crash == None && i < |s.clients| && s.clients[i] == InClose(c)
    requires !c.CloseWants? && !c.CloseNotify? ==> OwnerView(s, s.clients[i])
    ensures Crashes(CloseNext(s, i, c, result))
  {
  }

  lemma OthersCrashes(s: State, i: nat, late: bool)
    requires s.crash == None && i < |s.clients|
    ensures s.clients[i].InTake? ==> Crashes(TakeNext(s, i, s.clients[i].t))
    ensures s.clients[i].InWait? && !s.clients[i].w.Blocked? ==> Crashes(WaitNext(s, i, s.clients[i].w, late))
  {
    hide Step;
  }

  lemma NextCrashes(s: State, a: Action)
    requires Locks(s) && Control(s) && Deliveries(s) && Enabled(s, a)
    ensures Crashes(Next(s, a))
  {
    hide Deliveries, Locks, Control, OwnerView, ReaderNext, OpenNext, CloseNext, TakeNext, WaitNext;
    match a
    case ReaderStep(event, result) => ReaderCrashes(s, event, result);
    case Begin(_, _) =>
    case Wake(_, _) =>
    case Continue(i, fails, result) =>
      OwnLocks(s, i);
      if HoldsMutex(s.clients[i]) {
        OwnerSees(s, i);
      }
      match s.clients[i] {
        case InOpen(o) => OpenCrashes(s, i, o, fails);
        case InClose(c) => CloseCrashes(s, i, c, result);
        case _ => OthersCrashes(s, i, fails);
      }
  }

  // ---------- All steps, all runs ----------

  lemma NextKeeps(s: State, a: Action)
    requires Locks(s) && Control(s) && DataSide(s) && Enabled(s, a)
    ensures var s' := Next(s, a); Locks(s') && Control(s') && DataSide(s')
  {
    hide Locks, Control, DataSide;
    match a
    case ReaderStep(event, result) => ReaderKeeps(s, event, result);
    case Begin(i, call) => BeginKeeps(s, i, call);
    case Wake(i, expired) => WakeKeeps(s, i, expired);
    case Continue(i, fails, result) =>
      match s.clients[i] {
        case InOpen(o) => OpenKeeps(s, i, o, fails);
        case InClose(c) => CloseKeeps(s, i, c, result);
        case InTake(t) => TakeKeeps(s, i, t);
        case InWait(w) => WaitKeeps(s, i, w, fails);
      }
  }

  lemma NextDeliveries(s: State, a: Action)
    requires Deliveries(s) && Accounted(s.queue, CAPACITY) && (s.thread != Joinable ==> s.reader == Absent)
    requires Enabled(s, a)
    ensures Deliveries(Next(s, a))
  {
    hide Deliveries, Accounted, ReaderNext, OpenNext, CloseNext, TakeNext, WaitNext;
    match a
    case ReaderStep(event, result) => ReaderKeepsDeliveries(s, event, result);
    case Begin(i, call) => SameKeepsDeliveries(s, Next(s, a));
    case Wake(i, expired) => SameKeepsDeliveries(s, Next(s, a));
    case Continue(i, fails, result) =>
      match s.clients[i] {
        case InOpen(o) => OpenKeepsDeliveries(s, i, o, fails);
        case InClose(c) => CloseKeepsDeliveries(s, i, c, result);
        case InTake(t) => TakeKeepsDeliveries(s, i, t);
        case InWait(w) => WaitKeepsDeliveries(s, i, w, fails);
      }
  }

  lemma NextSafe(s: State, a: Action)
    requires Safe(s) && Enabled(s, a)
    ensures Safe(Next(s, a))
  {
    assert s.thread != Joinable ==> s.reader == Absent;
    assert Accounted(s.queue, CAPACITY);
    hide Locks, Control, DataSide, Deliveries, Crashes, Accounted, Next, Enabled;
    NextKeeps(s, a);
    NextDeliveries(s, a);
    NextCrashes(s, a);
  }

  /** Over every interleaving of any number of clients with the reader, every byte stream and every
      answer of the operating system. */
  lemma {:induction false} RunSafe(s: State, run: seq<Action>)
    requires Safe(s) && Possible(s, run)
    ensures Safe(After(s, run))
    decreases |run|
  {
    hide Safe, Next, Enabled;
    if run == [] {
    } else {
      NextSafe(s, run[0]);
      RunSafe(Next(s, run[0]), run[1..]);
    }
  }

  // ---------- Putting runs together ----------

  lemma {:induction false} Extend(s: State, run: seq<Action>, a: Action)
    requires Possible(s, run) && Enabled(After(s, run), a)
    ensures Possible(s, run + [a]) && After(s, run + [a]) == Next(After(s, run), a)
    decreases |run|
  {
    hide Next, Enabled;
    if run == [] {
      assert run + [a] == [a] && [a][1..] == [];
    } else {
      Extend(Next(s, run[0]), run[1..], a);
      assert (run + [a])[1..] == run[1..] + [a];
    }
  }

  lemma {:induction false} Concat(s: State, first: seq<Action>, second: seq<Action>)
    requires Possible(s, first) && Possible(After(s, first), second)
    ensures Possible(s, first + second) && After(s, first + second) == After(After(s, first), second)
    decreases |first|
  {
    hide Next, Enabled;
    if first == [] {
      assert first + second == second;
    } else {
      Concat(Next(s, first[0]), first[1..], second);
      assert (first + second)[1..] == first[1..] + second;
    }
  }

  /** A step of `i` for which the environment does what it should. */
  function Proceed(i: nat): Action { Continue(i, false, Closed) }

  lemma Solo(s: State, a: Action) returns (run: seq<Action>, s': State)
    requires Enabled(s, a)
    ensures run == [a] && Possible(s, run) && s' == After(s, run) == Next(s, a)
  {
    Extend(s, [], a);
    run, s' := [a], Next(s, a);
  }

  lemma Then(s: State, before: seq<Action>, mid: State, a: Action) returns (run: seq<Action>, s': State)
    requires Possible(s, before) && mid == After(s, before) && Enabled(mid, a)
    ensures Possible(s, run) && s' == After(s, run) == Next(mid, a)
  {
    Extend(s, before, a);
    run, s' := before + [a], Next(mid, a);
  }

  /** `s'` is `s` with client `i` at `c`. */
  predicate With(s: State, s': State, i: nat, c: Client) {
    && |s'.clients| == |s.clients| && i < |s.clients| && s'.clients[i] == c
    && s'.clients == s.clients[i := c]
    && s' == s.(clients := s'.clients)
  }
}
