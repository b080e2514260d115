/** What each call gives its caller, over every schedule: the samples `take_next` hands out, when
    `wait_for_data` ends, the answers of `open` and `close`, and whom the reader wakes. */
module Calls {
  import opened Coder
  import opened FixedSizeQueues
  import opened Framing
  import opened Protocol
  import opened ProtocolInvariants
  import opened ProtocolRuns
  import opened Records
  import opened SerialInterfaces
  import opened Shutdown
  import opened Theorems
  import opened Wrappers

  // ---------- take_next: what is in the caller's hands ----------

  /** A taker about to return a sample holds the one delivered last; one about to return nothing has
      found the queue empty. */
  predicate HandIs(s: State, c: Client) {
    match c
    case InTake(TakeClear(x)) => s.past.delivered != [] && s.past.delivered[|s.past.delivered| - 1] == x
    case InTake(TakeRelease(Some(x))) => s.past.delivered != [] && s.past.delivered[|s.past.delivered| - 1] == x
    case InTake(TakeRelease(None)) => s.queue.content == []
    case _ => true
  }

  ghost predicate Handed(s: State) { forall i | 0 <= i < |s.clients| :: HandIs(s, s.clients[i]) }

  /** The sample a taker has popped and not yet returned. */
  function InHand(s: State): seq<GpggaData> {
    match s.dataMutex
    case Some(ByClient(i)) => if i < |s.clients| then HeldBy(s.clients[i]) else []
    case _ => []
  }

  function HeldBy(c: Client): seq<GpggaData> {
    match c
    case InTake(TakeClear(x)) => [x]
    case InTake(TakeRelease(Some(x))) => [x]
    case _ => []
  }

  /** The sample a step returns to a caller of `take_next`. */
  function ReturnedBy(s: State, a: Action): seq<GpggaData> {
    if a.Continue? && a.i < |s.clients| && s.clients[a.i].InTake? && s.clients[a.i].t.TakeRelease? then
      match s.clients[a.i].t.taken case Some(x) => [x] case None => []
    else []
  }

  /** The samples a run returns to callers, in order. */
  function HandedOut(s: State, run: seq<Action>): seq<GpggaData>
    requires Possible(s, run)
    decreases |run|
  {
    if run == [] then [] else ReturnedBy(s, run[0]) + HandedOut(Next(s, run[0]), run[1..])
  }

  /** Deliveries grow by what is returned and what is in hand. */
  predicate HandedOn(s: State, s': State, returned: seq<GpggaData>) {
    var d, d' := s.past.delivered, s'.past.delivered;
    && |InHand(s)| <= |d| && |InHand(s')| <= |d'|
    && d'[..|d'| - |InHand(s')|] == d[..|d| - |InHand(s)|] + returned
  }

  lemma ReaderLeavesHands(s: State, event: PortEvent, result: CloseResult)
    requires Locks(s) && Handed(s) && ReaderEnabled(s, event)
    ensures var s' := ReaderNext(s, event, result); Handed(s') && HandedOn(s, s', [])
  {
    ReaderOnlyWakes(s, event, result);
    ReaderLeavesDeliveries(s, event, result);
    var s' := ReaderNext(s, event, result);
    hide ReaderNext;
    forall i | 0 <= i < |s'.clients| ensures HandIs(s', s'.clients[i]) {
      assert HandIs(s, s.clients[i]);
    }
    HandBound(s);
  }

  lemma ReaderLeavesDeliveries(s: State, event: PortEvent, result: CloseResult)
    requires Locks(s) && ReaderEnabled(s, event)
    ensures var s' := ReaderNext(s, event, result);
            && s'.past.delivered == s.past.delivered
            && (s'.queue == s.queue || s.dataMutex == Some(ByReader))
            && (s'.dataMutex == s.dataMutex || s'.dataMutex == Some(ByReader)
                || (s.dataMutex == Some(ByReader) && s'.dataMutex == None))
            && (s'.dataMutex == Some(ByReader) ==> s.dataMutex == Some(ByReader) || s.dataMutex == None)
  {
    ReaderOwnsData(s);
    hide Locks, ReaderNext, ReadOne;
    ReaderLeavesDelivered(s, event, result);
    ReaderHandover(s, event, result);
  }

  lemma ReaderLeavesDelivered(s: State, event: PortEvent, result: CloseResult)
    requires ReaderEnabled(s, event)
    ensures var s' := ReaderNext(s, event, result);
            s'.past.delivered == s.past.delivered && (s'.queue == s.queue || s.reader.AtPush?)
  {
    hide Decoding, Step, NotifyAll, ReadOne;
    if s.reader.Reading? {
      ReadLeavesDeliveries(s, s.reader.line, event);
    }
  }

  lemma ReaderHandover(s: State, event: PortEvent, result: CloseResult)
    requires ReaderEnabled(s, event)
    ensures var s' := ReaderNext(s, event, result);
            if s.reader.WantsData? then s'.dataMutex == Some(ByReader)
            else if s.reader.AtUnlock? then s'.dataMutex == None
            else s'.dataMutex == s.dataMutex
  {
    hide Decoding, Step, NotifyAll, ReadOne;
    if s.reader.Reading? {
      ReadLeavesDeliveries(s, s.reader.line, event);
    }
  }

  lemma ReaderOwnsData(s: State)
    requires Locks(s)
    ensures ReaderHoldsData(s.reader) <==> s.dataMutex == Some(ByReader)
  {
  }

  lemma ReadLeavesDeliveries(s: State, line: string, event: PortEvent)
    ensures var s' := ReadOne(s, line, event);
            s'.past.delivered == s.past.delivered && s'.queue == s.queue && s'.dataMutex == s.dataMutex
  {
  }

  lemma HandBound(s: State)
    requires Handed(s)
    ensures |InHand(s)| <= |s.past.delivered|
    ensures InHand(s) != [] ==> InHand(s) == [s.past.delivered[|s.past.delivered| - 1]]
  {
    if s.dataMutex.Some? && s.dataMutex.value.ByClient? && s.dataMutex.value.i < |s.clients| {
      assert HandIs(s, s.clients[s.dataMutex.value.i]);
    }
  }

  /** What a call leaves alone outside its data section. */
  predicate Handless(s: State, s': State, k: nat) {
    && s'.queue == s.queue && s'.past.delivered == s.past.delivered
    && k < |s.clients| == |s'.clients|
    && HeldBy(s.clients[k]) == [] == HeldBy(s'.clients[k]) && HandIs(s', s'.clients[k])
    && Handover(s.dataMutex, s'.dataMutex, ByClient(k))
  }

  lemma CallIsHandless(s: State, k: nat, fails: bool, result: CloseResult)
    requires k < |s.clients| && ContinueEnabled(s, k)
    requires HoldsData(s.clients[k]) <==> s.dataMutex == Some(ByClient(k))
    ensures var c := s.clients[k];
            && (c.InOpen? ==> Handless(s, OpenNext(s, k, c.o, fails), k))
            && (c.InClose? ==> Handless(s, CloseNext(s, k, c.c, result), k))
            && (c.InWait? ==> Handless(s, WaitNext(s, k, c.w, fails), k))
  {
    hide OpenNext, CloseNext, WaitNext, Handless;
    match s.clients[k]
    case Idle =>
    case InOpen(o) => OpenIsHandless(s, k, o, fails);
    case InClose(c) => CloseIsHandless(s, k, c, result);
    case InTake(_) =>
    case InWait(w) => WaitIsHandless(s, k, w, fails);
  }

  lemma OpenIsHandless(s: State, k: nat, o: OpenPoint, fails: bool)
    requires k < |s.clients| && s.clients[k] == InOpen(o)
    ensures Handless(s, OpenNext(s, k, o, fails), k)
  {
  }

  lemma WaitIsHandless(s: State, k: nat, w: WaitPoint, late: bool)
    requires k < |s.clients| && s.clients[k] == InWait(w) && ContinueEnabled(s, k)
    requires HoldsData(s.clients[k]) <==> s.dataMutex == Some(ByClient(k))
    ensures Handless(s, WaitNext(s, k, w, late), k)
  {
    WaitFrame(s, k, w, late);
    WaitKeepsDelivered(s, k, w, late);
    WaitHandover(s, k, w, late);
    hide WaitNext;
  }

  lemma WaitKeepsDelivered(s: State, k: nat, w: WaitPoint, late: bool)
    requires k < |s.clients| && !w.Blocked?
    ensures WaitNext(s, k, w, late).past == s.past
  {
  }

  lemma WaitHandover(s: State, k: nat, w: WaitPoint, late: bool)
    requires k < |s.clients| && s.clients[k] == InWait(w) && ContinueEnabled(s, k)
    requires HoldsData(s.clients[k]) <==> s.dataMutex == Some(ByClient(k))
    ensures var s' := WaitNext(s, k, w, late);
            |s'.clients| == |s.clients| && Handover(s.dataMutex, s'.dataMutex, ByClient(k))
            && (s'.clients[k].InWait? || s'.clients[k] == Idle)
  {
  }

  lemma CloseIsHandless(s: State, k: nat, c: ClosePoint, result: CloseResult)
    requires k < |s.clients| && s.clients[k] == InClose(c)
    ensures Handless(s, CloseNext(s, k, c, result), k)
  {
  }

  lemma HandlessKeepsHands(s: State, s': State, k: nat)
    requires Locks(s) && Handed(s) && Handless(s, s', k) && OnlyTouches(s, s', k)
    ensures Handed(s') && HandedOn(s, s', [])
  {
    forall i | 0 <= i < |s'.clients| ensures HandIs(s', s'.clients[i]) {
      assert HandIs(s, s.clients[i]);
    }
    HandBound(s);
    hide Locks;
  }

  lemma TakeHands(s: State, k: nat, t: TakePoint)
    requires Locks(s) && Handed(s) && k < |s.clients| && s.clients[k] == InTake(t) && ContinueEnabled(s, k)
    ensures var s' := TakeNext(s, k, t); Handed(s') && HandedOn(s, s', ReturnedBy(s, Continue(k, false, Closed)))
  {
    var s' := TakeNext(s, k, t);
    OwnLocks(s, k);
    hide Step, TakeNext;
    TakeTouchesItself(s, k, t);
    TakeStepHands(s, k, t) by { assert HandIs(s, s.clients[k]); }
    forall i | 0 <= i < |s'.clients| ensures HandIs(s', s'.clients[i]) {
      if i != k {
        assert HandIs(s, s.clients[i]);
        OwnLocks(s, i);
      }
    }
    HandBound(s);
    hide HandedOn, Locks;
  }

  lemma TakeStepHands(s: State, k: nat, t: TakePoint)
    requires k < |s.clients| && s.clients[k] == InTake(t) && ContinueEnabled(s, k) && HandIs(s, s.clients[k])
    requires !t.TakeWants? <==> s.dataMutex == Some(ByClient(k))
    ensures HandStep(s, TakeNext(s, k, t), k, ReturnedBy(s, Continue(k, false, Closed)))
    ensures var s' := TakeNext(s, k, t);
            t.TakeWants? ==> s'.queue == s.queue && s'.past.delivered == s.past.delivered
  {
    hide HandStep, Step, HandIs;
    if t.TakeWants? {
      WantsHands(s, k);
    } else if t.TakeCheck? {
      CheckHands(s, k);
    } else if t.TakeClear? {
      ClearHands(s, k, t.sample);
    } else {
      ReleaseHands(s, k, t.taken);
    }
  }

  predicate HandStep(s: State, s': State, k: nat, returned: seq<GpggaData>) {
    k < |s'.clients| && HandIs(s', s'.clients[k]) && HandedOn(s, s', returned)
  }

  lemma WantsHands(s: State, k: nat)
    requires k < |s.clients| && s.clients[k] == InTake(TakeWants) && s.dataMutex == None
    ensures HandStep(s, TakeNext(s, k, TakeWants), k, [])
  {
    var s' := TakeNext(s, k, TakeWants);
    InHandOf(s, k);
    InHandOf(s', k);
    hide HandedOn;
    HandsMove(s, s', []);
  }

  lemma CheckHands(s: State, k: nat)
    requires k < |s.clients| && s.clients[k] == InTake(TakeCheck) && s.dataMutex == Some(ByClient(k))
    ensures HandStep(s, TakeNext(s, k, TakeCheck), k, [])
  {
    hide Step;
    var s' := TakeNext(s, k, TakeCheck);
    InHandOf(s, k);
    InHandOf(s', k);
    hide HandedOn;
    HandsMove(s, s', []);
  }

  lemma ClearHands(s: State, k: nat, x: GpggaData)
    requires k < |s.clients| && s.clients[k] == InTake(TakeClear(x)) && s.dataMutex == Some(ByClient(k))
    requires HandIs(s, s.clients[k])
    ensures HandStep(s, TakeNext(s, k, TakeClear(x)), k, [])
  {
    var s' := TakeNext(s, k, TakeClear(x));
    InHandOf(s, k);
    InHandOf(s', k);
    hide HandedOn;
    HandsMove(s, s', []);
  }

  lemma ReleaseHands(s: State, k: nat, taken: Option<GpggaData>)
    requires k < |s.clients| && s.clients[k] == InTake(TakeRelease(taken)) && s.dataMutex == Some(ByClient(k))
    requires HandIs(s, s.clients[k])
    ensures HandStep(s, TakeNext(s, k, TakeRelease(taken)), k, if taken.Some? then [taken.value] else [])
  {
    var s' := TakeNext(s, k, TakeRelease(taken));
    InHandOf(s, k);
    InHandOf(s', k);
    hide HandedOn;
    HandsMove(s, s', if taken.Some? then [taken.value] else []);
  }

  lemma InHandOf(s: State, k: nat)
    requires k < |s.clients| && (s.dataMutex == None || s.dataMutex == Some(ByClient(k)))
    ensures InHand(s) == if s.dataMutex == None then [] else HeldBy(s.clients[k])
  {
  }

  /** A sample is kept, popped, or returned. */
  lemma HandsMove(s: State, s': State, returned: seq<GpggaData>)
    requires |InHand(s)| <= |s.past.delivered|
    requires var d, d', h, h' := s.past.delivered, s'.past.delivered, InHand(s), InHand(s');
             || (d' == d && h' == h && returned == [])
             || (h == [] && |h'| == 1 && d' == d + h' && returned == [])
             || (h' == [] && |h| == 1 && d != [] && h == [d[|d| - 1]] && d' == d && returned == h)
    ensures HandedOn(s, s', returned)
  {
    var d := s.past.delivered;
    assert d[..|d|] == d;
    if |d| > 0 { assert d == d[..|d| - 1] + [d[|d| - 1]]; }
  }

  /** What a step of `take_next` changes, its bit aside. */
  lemma TakeEffect(s: State, k: nat, t: TakePoint)
    requires k < |s.clients|
    ensures var s' := TakeNext(s, k, t);
            && |s'.clients| == |s.clients|
            && match t
               case TakeWants =>
                 s'.clients[k] == InTake(TakeCheck) && s'.dataMutex == Some(ByClient(k))
                 && s'.queue == s.queue && s'.past.delivered == s.past.delivered
               case TakeCheck =>
                 s'.dataMutex == s.dataMutex
                 && if s.queue.content == [] then
                      s'.clients[k] == InTake(TakeRelease(None)) && s'.queue == s.queue
                      && s'.past.delivered == s.past.delivered
                    else
                      s'.clients[k] == InTake(TakeClear(s.queue.content[0]))
                      && s'.past.delivered == s.past.delivered + [s.queue.content[0]]
               case TakeClear(x) =>
                 s'.clients[k] == InTake(TakeRelease(Some(x))) && s'.dataMutex == s.dataMutex
                 && s'.past.delivered == s.past.delivered
               case TakeRelease(_) =>
                 s'.clients[k] == Idle && s'.dataMutex == None && s'.past.delivered == s.past.delivered
  {
    hide Step;
  }

  lemma StepHands(s: State, a: Action)
    requires Locks(s) && Handed(s) && Enabled(s, a)
    ensures Handed(Next(s, a)) && HandedOn(s, Next(s, a), ReturnedBy(s, a))
  {
    hide Locks, HandedOn, Handless, OnlyTouches, Handed, ReaderNext, OpenNext, CloseNext, TakeNext, WaitNext;
    match a
    case ReaderStep(event, result) =>
      ReaderLeavesHands(s, event, result);
    case Begin(i, call) => AsideHands(s, Next(s, a), i);
    case Wake(i, _) => AsideHands(s, Next(s, a), i);
    case Continue(k, fails, result) =>
      if s.clients[k].InTake? {
        TakeHands(s, k, s.clients[k].t);
      } else {
        CallHands(s, k, fails, result);
      }
  }

  lemma CallHands(s: State, k: nat, fails: bool, result: CloseResult)
    requires Locks(s) && Handed(s) && Enabled(s, Continue(k, fails, result)) && !s.clients[k].InTake?
    ensures var s' := Next(s, Continue(k, fails, result)); Handed(s') && HandedOn(s, s', [])
  {
    hide Locks, HandedOn, Handless, OnlyTouches, Handed, OpenNext, CloseNext, WaitNext;
    OwnLocks(s, k);
    CallTouchesItself(s, k, fails, result);
    CallIsHandless(s, k, fails, result);
    HandlessKeepsHands(s, Next(s, Continue(k, fails, result)), k);
  }

  lemma AsideHands(s: State, s': State, i: nat)
    requires Handed(s) && i < |s.clients| == |s'.clients| && s' == s.(clients := s.clients[i := s'.clients[i]])
    requires !HoldsData(s.clients[i]) && !HoldsData(s'.clients[i])
    ensures Handed(s') && HandedOn(s, s', [])
  {
    forall j | 0 <= j < |s'.clients| ensures HandIs(s', s'.clients[j]) {
      assert HandIs(s, s.clients[j]);
    }
    HandBound(s);
  }

  lemma {:induction false} RunHands(s: State, run: seq<Action>)
    requires Safe(s) && Handed(s) && Possible(s, run)
    ensures Handed(After(s, run)) && HandedOn(s, After(s, run), HandedOut(s, run))
    decreases |run|
  {
    hide Safe, Next, Enabled, ReturnedBy, Handed, InHand;
    if run == [] {
      HandBound(s);
    } else {
      var s' := Next(s, run[0]);
      SafeParts(s);
      StepHands(s, run[0]);
      NextSafe(s, run[0]);
      RunHands(s', run[1..]);
    }
  }

  /** Over every run from power-up: the samples returned to callers of `take_next`, together with the
      one a taker has popped and is about to return, are exactly the deliveries, in order. So they are,
      in order and at most once each, samples decoded from the completed lines. */
  lemma HandedToCallers(n: nat, run: seq<Action>)
    requires Possible(Initial(n), run)
    ensures var s := After(Initial(n), run);
            && HandedOut(Initial(n), run) + InHand(s) == s.past.delivered
            && |InHand(s)| <= 1 && (s.dataMutex == None ==> InHand(s) == [])
    ensures var s, out := After(Initial(n), run), HandedOut(Initial(n), run);
            var decoded, p := Samples(Framed(s.past.log).lines), TakenPositions(s.queue.exits);
            && |out| <= |p| && Increasing(p)
            && forall k :: 0 <= k < |out| ==> p[k] < |decoded| && out[k] == decoded[p[k]]
  {
    var s := After(Initial(n), run);
    var out := HandedOut(Initial(n), run);
    hide *;
    HandsFromPowerUp(n, run);
    EndToEnd(n, s) by { RunReaches(n, run); }
    assert forall k | 0 <= k < |out| :: out[k] == (out + InHand(s))[k];
  }

  lemma RunReaches(n: nat, run: seq<Action>)
    requires Possible(Initial(n), run)
    ensures Reachable(n, After(Initial(n), run))
  {
    hide Possible, After;
  }

  lemma HandsFromPowerUp(n: nat, run: seq<Action>)
    requires Possible(Initial(n), run)
    ensures var s := After(Initial(n), run);
            && HandedOut(Initial(n), run) + InHand(s) == s.past.delivered
            && |InHand(s)| <= 1 && (s.dataMutex == None ==> InHand(s) == [])
  {
    var s := After(Initial(n), run);
    InitialSafe(n);
    EmptyHands(n);
    hide *;
    RunHands(Initial(n), run);
    HandsAtEnd(Initial(n), s, HandedOut(Initial(n), run));
  }

  lemma EmptyHands(n: nat)
    ensures Handed(Initial(n)) && InHand(Initial(n)) == [] && Initial(n).past.delivered == []
  {
  }

  lemma HandsAtEnd(s0: State, s: State, out: seq<GpggaData>)
    requires Handed(s) && HandedOn(s0, s, out) && InHand(s0) == [] == s0.past.delivered
    ensures out + InHand(s) == s.past.delivered && |InHand(s)| <= 1
    ensures s.dataMutex == None ==> InHand(s) == []
  {
    HandBound(s);
    hide Handed;
    var d := s.past.delivered;
    assert d == d[..|d| - |InHand(s)|] + d[|d| - |InHand(s)|..];
    assert out == d[..|d| - |InHand(s)|];
  }

  /** What a taker holds at each point of a reachable state. */
  lemma InTheHand(n: nat, s: State, i: nat)
    requires Reachable(n, s) && i < |s.clients| && s.clients[i].InTake?
    ensures HandIs(s, s.clients[i])
  {
    var run :| Possible(Initial(n), run) && s == After(Initial(n), run);
    InitialSafe(n);
    assert Handed(Initial(n));
    RunHands(Initial(n), run);
    hide Safe, After, Possible, HandedOut;
  }

  // ---------- wait_for_data: when it ends ----------

  /** Client `i` does not leave its call in the run. */
  ghost predicate InCall(s: State, run: seq<Action>, i: nat)
    requires Possible(s, run)
    decreases |run|
  {
    && i < |s.clients| && s.clients[i] != Idle
    && (run != [] ==> InCall(Next(s, run[0]), run[1..], i))
  }

  /** The deadline has passed, or the verdict is being given. */
  predicate Expiring(c: Client, mask: KindMask) {
    match c
    case InWait(Woken(m, expired)) => m == mask && expired
    case InWait(WaitTest(m, expired)) => m == mask && expired
    case InWait(WaitVerdict(m, _, _)) => m == mask
    case InWait(WaitDone(m, _, _)) => m == mask
    case _ => false
  }

  /** What the steps of others do to client `i`: nothing, or wake it. */
  lemma OthersOnlyWake(s: State, a: Action, i: nat)
    requires Enabled(s, a) && i < |s.clients|
    requires !((a.Continue? || a.Begin? || a.Wake?) && a.i == i)
    ensures var s' := Next(s, a);
            && i < |s'.clients|
            && (s'.clients[i] == s.clients[i]
                || (IsBlocked(s.clients[i]) && s'.clients[i] == InWait(Woken(s.clients[i].w.mask, false))))
  {
    match a
    case ReaderStep(event, result) =>
      ReaderOnlyWakes(s, event, result);
      hide ReaderNext;
    case Begin(_, _) =>
    case Wake(_, _) =>
    case Continue(k, fails, result) =>
      CallOnlyWakes(s, k, fails, result, i);
      hide ReaderNext, OpenNext, CloseNext, TakeNext, WaitNext;
  }

  predicate OnlyWakes(s: State, s': State, i: nat) {
    && i < |s.clients| == |s'.clients|
    && (s'.clients[i] == s.clients[i]
        || (IsBlocked(s.clients[i]) && s'.clients[i] == InWait(Woken(s.clients[i].w.mask, false))))
  }

  lemma CallOnlyWakes(s: State, k: nat, fails: bool, result: CloseResult, i: nat)
    requires k < |s.clients| && ContinueEnabled(s, k) && i < |s.clients| && i != k
    ensures var c := s.clients[k];
            && (c.InOpen? ==> OnlyWakes(s, OpenNext(s, k, c.o, fails), i))
            && (c.InClose? ==> OnlyWakes(s, CloseNext(s, k, c.c, result), i))
            && (c.InTake? ==> OnlyWakes(s, TakeNext(s, k, c.t), i))
            && (c.InWait? ==> OnlyWakes(s, WaitNext(s, k, c.w, fails), i))
  {
    if s.clients[k].InClose? {
      CloseOnlyWakes(s, k, s.clients[k].c, result, i);
    }
    hide CloseNext, Step, NotifyAll;
  }

  lemma CloseOnlyWakes(s: State, k: nat, c: ClosePoint, result: CloseResult, i: nat)
    requires k < |s.clients| && i < |s.clients| && i != k
    ensures OnlyWakes(s, CloseNext(s, k, c, result), i)
  {
  }

  /** Where a step takes a waiting client. */
  lemma WaitGoesOn(s: State, i: nat, w: WaitPoint, late: bool)
    requires i < |s.clients| && s.clients[i] == InWait(w) && !w.Blocked?
    ensures var s' := WaitNext(s, i, w, late);
            && i < |s'.clients|
            && (s'.clients[i] == Idle || (s'.clients[i].InWait? && s'.clients[i].w.mask == w.mask))
            && (Expiring(InWait(w), w.mask) ==> s'.clients[i] == Idle || Expiring(s'.clients[i], w.mask))
            && (w.Woken? && late ==> Expiring(s'.clients[i], w.mask))
            && (OnTime(InWait(w)) && !(w.Woken? && late) ==> OnTime(s'.clients[i]))
  {
  }

  lemma StepKeepsExpiring(s: State, a: Action, i: nat, mask: KindMask)
    requires Enabled(s, a) && i < |s.clients| && Expiring(s.clients[i], mask)
    ensures i < |Next(s, a).clients|
    ensures Next(s, a).clients[i] == Idle || Expiring(Next(s, a).clients[i], mask)
  {
    if a.Continue? && a.i == i {
      WaitGoesOn(s, i, s.clients[i].w, a.fails);
      hide WaitNext;
    } else {
      OthersOnlyWake(s, a, i);
      hide Next;
    }
  }

  /** Once its deadline has passed, a wait does not block again: until its call ends it is on its way to
      its verdict. */
  lemma {:induction false} ExpiredEnds(s: State, run: seq<Action>, i: nat, mask: KindMask)
    requires Possible(s, run) && InCall(s, run, i) && Expiring(s.clients[i], mask)
    ensures i < |After(s, run).clients| && Expiring(After(s, run).clients[i], mask)
    decreases |run|
  {
    hide Next, Enabled, Expiring;
    if run == [] {
    } else {
      StepKeepsExpiring(s, run[0], i, mask);
      ExpiredEnds(Next(s, run[0]), run[1..], i, mask);
    }
  }

  /** The deadline of `i` passes: it wakes by itself, or finds out on taking `data_mutex_` again. */
  predicate Expires(s: State, a: Action, i: nat) {
    || a == Wake(i, true)
    || (a.Continue? && a.i == i && a.fails && i < |s.clients| && s.clients[i].InWait? && s.clients[i].w.Woken?)
  }

  lemma ExpiryExpires(s: State, a: Action, i: nat)
    requires Enabled(s, a) && Expires(s, a, i)
    ensures i < |s.clients| == |Next(s, a).clients| && s.clients[i].InWait?
    ensures Expiring(Next(s, a).clients[i], s.clients[i].w.mask)
  {
    if a.Continue? {
      WaitGoesOn(s, i, s.clients[i].w, true);
      hide WaitNext;
    }
  }

  predicate OnTime(c: Client) {
    match c
    case InWait(Woken(_, expired)) => !expired
    case InWait(WaitTest(_, expired)) => !expired
    case InWait(WaitVerdict(_, timedOut, _)) => !timedOut
    case InWait(WaitDone(_, verdict, _)) => verdict != TIMEOUT
    case _ => true
  }

  ghost predicate NeverExpires(s: State, run: seq<Action>, i: nat)
    requires Possible(s, run)
    decreases |run|
  {
    run != [] ==> !Expires(s, run[0], i) && NeverExpires(Next(s, run[0]), run[1..], i)
  }

  lemma StepKeepsOnTime(s: State, a: Action, i: nat)
    requires Enabled(s, a) && i < |s.clients| && OnTime(s.clients[i]) && !Expires(s, a, i)
    ensures i < |Next(s, a).clients| && OnTime(Next(s, a).clients[i])
  {
    if a.Continue? && a.i == i {
      if s.clients[i].InWait? {
        WaitGoesOn(s, i, s.clients[i].w, a.fails);
      } else {
        OutsideWait(s, i, a.fails, a.result);
      }
      hide OpenNext, CloseNext, TakeNext, WaitNext;
    } else if (a.Begin? || a.Wake?) && a.i == i {
    } else {
      OthersOnlyWake(s, a, i);
      hide Next;
    }
  }

  lemma OutsideWait(s: State, i: nat, fails: bool, result: CloseResult)
    requires i < |s.clients|
    ensures var c := s.clients[i];
            && (c.InOpen? ==> NotWaiting(OpenNext(s, i, c.o, fails), i))
            && (c.InClose? ==> NotWaiting(CloseNext(s, i, c.c, result), i))
            && (c.InTake? ==> NotWaiting(TakeNext(s, i, c.t), i))
  {
    if s.clients[i].InClose? {
      CloseIsNoWait(s, i, s.clients[i].c, result);
    }
    hide Step, NotifyAll, CloseNext;
  }

  predicate NotWaiting(s: State, i: nat) { i < |s.clients| && !s.clients[i].InWait? }

  lemma CloseIsNoWait(s: State, i: nat, c: ClosePoint, result: CloseResult)
    requires i < |s.clients| && s.clients[i] == InClose(c)
    ensures NotWaiting(CloseNext(s, i, c, result), i)
  {
  }

  /** `wait_for_data` never answers TIMEOUT before its deadline has passed. */
  lemma {:induction false} TimeoutNeedsDeadline(s: State, run: seq<Action>, i: nat)
    requires Possible(s, run) && i < |s.clients| && OnTime(s.clients[i]) && NeverExpires(s, run, i)
    ensures i < |After(s, run).clients| && OnTime(After(s, run).clients[i])
    decreases |run|
  {
    hide Next, Enabled, OnTime, Expires;
    if run == [] {
    } else {
      StepKeepsOnTime(s, run[0], i);
      TimeoutNeedsDeadline(Next(s, run[0]), run[1..], i);
    }
  }

  lemma StepKeepsMask(s: State, a: Action, i: nat)
    requires Enabled(s, a) && i < |s.clients| && s.clients[i].InWait?
    ensures i < |Next(s, a).clients|
    ensures var c, c' := s.clients[i], Next(s, a).clients[i];
            c' == Idle || (c'.InWait? && c'.w.mask == c.w.mask)
  {
    if a.Continue? && a.i == i {
      WaitGoesOn(s, i, s.clients[i].w, a.fails);
      hide WaitNext;
    } else if a.Wake? && a.i == i {
    } else {
      OthersOnlyWake(s, a, i);
      hide Next;
    }
  }

  /** A wait keeps the mask it was called with. */
  lemma {:induction false} WaitKeepsItsMask(s: State, run: seq<Action>, i: nat)
    requires Possible(s, run) && InCall(s, run, i) && s.clients[i].InWait?
    ensures i < |After(s, run).clients| && After(s, run).clients[i].InWait?
    ensures After(s, run).clients[i].w.mask == s.clients[i].w.mask
    decreases |run|
  {
    hide Next, Enabled;
    if run == [] {
    } else {
      StepKeepsMask(s, run[0], i);
      WaitKeepsItsMask(Next(s, run[0]), run[1..], i);
    }
  }

  /** What the test of the waiting predicate leads to, in every reachable state. */
  lemma TestExactly(n: nat, s: State, i: nat, mask: KindMask, expired: bool)
    requires Reachable(n, s) && i < |s.clients| && s.clients[i] == InWait(WaitTest(mask, expired))
    ensures var c, wanted := WaitNext(s, i, WaitTest(mask, expired), false).clients[i],
                             GPGGA_BIT in mask && s.queue.content != [];
            && (c == InWait(AboutToBlock(mask)) <==> s.running && !wanted && !expired)
            && (c == InWait(WaitVerdict(mask, true, true)) <==> s.running && !wanted && expired)
            && (c == InWait(WaitVerdict(mask, false, s.running)) <==> !s.running || wanted)
  {
    ReachableSafe(n, s);
    assert Locks(s) && QueueAndMask(s);
    OwnLocks(s, i);
    hide Safe, Reachable, Locks;
  }

  // ---------- close: its answer ----------

  ghost predicate StaysInClose(s: State, run: seq<Action>, i: nat)
    requires Possible(s, run)
    decreases |run|
  {
    && i < |s.clients| && s.clients[i].InClose?
    && (run != [] ==> StaysInClose(Next(s, run[0]), run[1..], i))
  }

  predicate CloseStep(s: State, a: Action, i: nat, c: ClosePoint) {
    a.Continue? && a.i == i && i < |s.clients| && s.clients[i] == InClose(c)
  }

  /** In the run client `i` finds the port open when it tests it. */
  ghost predicate FoundOpen(s: State, run: seq<Action>, i: nat)
    requires Possible(s, run)
    decreases |run|
  {
    run != [] && ((CloseStep(s, run[0], i, CloseCheck) && s.portOpen) || FoundOpen(Next(s, run[0]), run[1..], i))
  }

  /** In the run client `i` comes to closing a port that is still open, and the operating system reports
      an error. */
  ghost predicate Refused(s: State, run: seq<Action>, i: nat)
    requires Possible(s, run)
    decreases |run|
  {
    run != [] &&
    ((CloseStep(s, run[0], i, ClosePort) && s.portOpen && run[0].result != Closed)
     || Refused(Next(s, run[0]), run[1..], i))
  }

  /** On the way out with this answer, after a port found open. */
  predicate ClosesWith(c: ClosePoint, code: ReturnCode) {
    c in {CloseJoin(code), CloseReset(code), CloseRelease(code, true), CloseNotify(code)}
  }

  predicate BeforeAnswer(c: ClosePoint) { c.CloseStore? || c.ClosePort? }

  lemma CloseStepGoesOn(s: State, a: Action, i: nat)
    requires Enabled(s, a) && i < |s.clients| && s.clients[i].InClose?
    requires i < |Next(s, a).clients| && Next(s, a).clients[i].InClose?
    ensures var c, c' := s.clients[i].c, Next(s, a).clients[i].c;
            && (!(a.Continue? && a.i == i) ==> c' == c)
            && (forall code :: ClosesWith(c, code) ==> ClosesWith(c', code))
            && (c == CloseRelease(ILLEGAL_OPERATION, false) ==> c' == c)
            && (c == CloseStore ==> BeforeAnswer(c'))
            && (CloseStep(s, a, i, ClosePort) ==> ClosesWith(c', if s.portOpen && a.result != Closed then ERROR else OK))
            && (c == CloseWants ==> c' == CloseWants || c' == CloseCheck)
            && (CloseStep(s, a, i, CloseCheck) ==>
                  c' == if s.portOpen then CloseStore else CloseRelease(ILLEGAL_OPERATION, false))
  {
    if a.Continue? && a.i == i {
      OwnCloseStep(s, i, s.clients[i].c, a.result);
      hide CloseNext;
    } else {
      OthersOnlyWake(s, a, i);
      hide Next;
    }
  }

  lemma OwnCloseStep(s: State, i: nat, c: ClosePoint, result: CloseResult)
    requires i < |s.clients| && s.clients[i] == InClose(c)
    ensures var s' := CloseNext(s, i, c, result);
            i < |s'.clients| && (s'.clients[i].InClose? ==>
            var c' := s'.clients[i].c;
            && (forall code :: ClosesWith(c, code) ==> ClosesWith(c', code))
            && (c == CloseRelease(ILLEGAL_OPERATION, false) ==> c' == c)
            && (c == CloseStore ==> BeforeAnswer(c'))
            && (c == ClosePort ==> ClosesWith(c', if s.portOpen && result != Closed then ERROR else OK))
            && (c == CloseWants ==> c' == CloseWants || c' == CloseCheck)
            && (c == CloseCheck ==> c' == if s.portOpen then CloseStore else CloseRelease(ILLEGAL_OPERATION, false)))
  {
  }

  lemma {:induction false} AnswerKept(s: State, run: seq<Action>, i: nat, code: ReturnCode)
    requires Possible(s, run) && StaysInClose(s, run, i) && ClosesWith(s.clients[i].c, code)
    ensures var e := After(s, run); i < |e.clients| && e.clients[i].InClose? && ClosesWith(e.clients[i].c, code)
    ensures !FoundOpen(s, run, i) && !Refused(s, run, i)
    decreases |run|
  {
    hide Next, Enabled;
    if run == [] {
    } else {
      CloseStepGoesOn(s, run[0], i);
      AnswerKept(Next(s, run[0]), run[1..], i, code);
    }
  }

  lemma {:induction false} RefusalKept(s: State, run: seq<Action>, i: nat)
    requires Possible(s, run) && StaysInClose(s, run, i)
    requires s.clients[i].c == CloseRelease(ILLEGAL_OPERATION, false)
    ensures var e := After(s, run); i < |e.clients| && e.clients[i] == InClose(CloseRelease(ILLEGAL_OPERATION, false))
    ensures !FoundOpen(s, run, i) && !Refused(s, run, i)
    decreases |run|
  {
    hide Next, Enabled;
    if run == [] {
    } else {
      CloseStepGoesOn(s, run[0], i);
      RefusalKept(Next(s, run[0]), run[1..], i);
    }
  }

  lemma {:induction false} AnswerAfterOpen(s: State, run: seq<Action>, i: nat)
    requires Possible(s, run) && StaysInClose(s, run, i) && BeforeAnswer(s.clients[i].c)
    ensures var e := After(s, run);
            && i < |e.clients| && e.clients[i].InClose?
            && if BeforeAnswer(e.clients[i].c) then !Refused(s, run, i)
               else ClosesWith(e.clients[i].c, if Refused(s, run, i) then ERROR else OK)
    ensures !FoundOpen(s, run, i)
    decreases |run|
  {
    hide Next, Enabled;
    if run == [] {
    } else {
      var s' := Next(s, run[0]);
      CloseStepGoesOn(s, run[0], i);
      if BeforeAnswer(s'.clients[i].c) {
        AnswerAfterOpen(s', run[1..], i);
      } else {
        AnswerKept(s', run[1..], i, if s.portOpen && run[0].result != Closed then ERROR else OK);
      }
    }
  }

  /** Over every schedule: `close` answers ILLEGAL_OPERATION if and only if it found the port closed,
      ERROR if and only if the port it found open was still open when it came to closing it and the
      operating system reported an error, and OK otherwise; and it notifies exactly when it had found
      the port open. */
  lemma {:induction false} CloseAnswers(s: State, run: seq<Action>, i: nat)
    requires Possible(s, run) && StaysInClose(s, run, i) && (s.clients[i].c.CloseWants? || s.clients[i].c.CloseCheck?)
    ensures var e := After(s, run); i < |e.clients| && e.clients[i].InClose?
    ensures var c := After(s, run).clients[i].c;
            if c.CloseWants? || c.CloseCheck? then !FoundOpen(s, run, i) && !Refused(s, run, i)
            else if BeforeAnswer(c) then FoundOpen(s, run, i) && !Refused(s, run, i)
            else if FoundOpen(s, run, i) then ClosesWith(c, if Refused(s, run, i) then ERROR else OK)
            else c == CloseRelease(ILLEGAL_OPERATION, false) && !Refused(s, run, i)
    decreases |run|
  {
    hide Next, Enabled;
    if run == [] {
    } else {
      var s' := Next(s, run[0]);
      CloseStepGoesOn(s, run[0], i);
      var c' := s'.clients[i].c;
      if c'.CloseWants? || c'.CloseCheck? {
        CloseAnswers(s', run[1..], i);
      } else if c'.CloseStore? {
        AnswerAfterOpen(s', run[1..], i);
      } else {
        RefusalKept(s', run[1..], i);
      }
    }
  }

  // ---------- open: its answer ----------

  ghost predicate StaysInOpen(s: State, run: seq<Action>, i: nat)
    requires Possible(s, run)
    decreases |run|
  {
    && i < |s.clients| && s.clients[i].InOpen?
    && (run != [] ==> StaysInOpen(Next(s, run[0]), run[1..], i))
  }

  predicate OpenStep(s: State, a: Action, i: nat, o: OpenPoint) {
    a.Continue? && a.i == i && i < |s.clients| && s.clients[i] == InOpen(o)
  }

  /** In the run client `i` finds the port closed when it tests it. */
  ghost predicate FoundClosed(s: State, run: seq<Action>, i: nat)
    requires Possible(s, run)
    decreases |run|
  {
    run != [] && ((OpenStep(s, run[0], i, OpenCheck) && !s.portOpen) || FoundClosed(Next(s, run[0]), run[1..], i))
  }

  /** In the run one of the system calls of client `i` fails. */
  ghost predicate OpenFails(s: State, run: seq<Action>, i: nat)
    requires Possible(s, run)
    decreases |run|
  {
    run != [] && (OpenFailure(s, run[0], i) || OpenFails(Next(s, run[0]), run[1..], i))
  }

  predicate OpenFailure(s: State, a: Action, i: nat) {
    (OpenStep(s, a, i, OpenPort) || OpenStep(s, a, i, OpenOption)) && a.fails
  }

  predicate TestsPort(o: OpenPoint) { o.OpenWants? || o.OpenCheck? }

  predicate Tries(o: OpenPoint) { o.OpenPort? || o.OpenOption? || o.OpenStore? || o.OpenSpawn? }

  lemma OpenStepGoesOn(s: State, a: Action, i: nat)
    requires Enabled(s, a) && i < |s.clients| && s.clients[i].InOpen?
    requires i < |Next(s, a).clients| && Next(s, a).clients[i].InOpen?
    ensures var o, o' := s.clients[i].o, Next(s, a).clients[i].o;
            && (!(a.Continue? && a.i == i) ==> o' == o)
            && (o.OpenRelease? ==> o' == o)
            && (o == OpenWants ==> TestsPort(o'))
            && (OpenStep(s, a, i, OpenCheck) ==> o' == if s.portOpen then OpenRelease(ILLEGAL_OPERATION) else OpenPort)
            && (Tries(o) && OpenFailure(s, a, i) ==> o' == OpenRelease(ERROR))
            && (Tries(o) && !OpenFailure(s, a, i) ==> Tries(o') || o' == OpenRelease(OK))
  {
    if a.Continue? && a.i == i {
      OwnOpenStep(s, i, s.clients[i].o, a.fails);
      hide OpenNext;
    } else {
      OthersOnlyWake(s, a, i);
      hide Next;
    }
  }

  lemma OwnOpenStep(s: State, i: nat, o: OpenPoint, fails: bool)
    requires i < |s.clients| && s.clients[i] == InOpen(o)
    ensures var s' := OpenNext(s, i, o, fails);
            i < |s'.clients| && (s'.clients[i].InOpen? ==>
            var o', failing := s'.clients[i].o, (o == OpenPort || o == OpenOption) && fails;
            && (o.OpenRelease? ==> o' == o)
            && (o == OpenWants ==> TestsPort(o'))
            && (o == OpenCheck ==> o' == if s.portOpen then OpenRelease(ILLEGAL_OPERATION) else OpenPort)
            && (Tries(o) && failing ==> o' == OpenRelease(ERROR))
            && (Tries(o) && !failing ==> Tries(o') || o' == OpenRelease(OK)))
  {
  }

  lemma {:induction false} OpenAnswerKept(s: State, run: seq<Action>, i: nat, code: ReturnCode)
    requires Possible(s, run) && StaysInOpen(s, run, i) && s.clients[i] == InOpen(OpenRelease(code))
    ensures var e := After(s, run); i < |e.clients| && e.clients[i] == InOpen(OpenRelease(code))
    ensures !FoundClosed(s, run, i) && !OpenFails(s, run, i)
    decreases |run|
  {
    hide Next, Enabled;
    if run == [] {
    } else {
      OpenStepGoesOn(s, run[0], i);
      OpenAnswerKept(Next(s, run[0]), run[1..], i, code);
    }
  }

  lemma {:induction false} OpenAnswerAfterTest(s: State, run: seq<Action>, i: nat)
    requires Possible(s, run) && StaysInOpen(s, run, i) && Tries(s.clients[i].o)
    ensures var e := After(s, run);
            && i < |e.clients| && e.clients[i].InOpen?
            && if Tries(e.clients[i].o) then !OpenFails(s, run, i)
               else e.clients[i].o == OpenRelease(if OpenFails(s, run, i) then ERROR else OK)
    ensures !FoundClosed(s, run, i)
    decreases |run|
  {
    hide Next, Enabled;
    if run == [] {
    } else {
      var s' := Next(s, run[0]);
      OpenStepGoesOn(s, run[0], i);
      if Tries(s'.clients[i].o) {
        OpenAnswerAfterTest(s', run[1..], i);
      } else {
        OpenAnswerKept(s', run[1..], i, s'.clients[i].o.code);
      }
    }
  }

  /** Over every schedule: `open` answers ILLEGAL_OPERATION if and only if it found the port open, ERROR
      if and only if it found it closed and opening it or setting the option failed, OK otherwise. */
  lemma {:induction false} OpenAnswers(s: State, run: seq<Action>, i: nat)
    requires Possible(s, run) && StaysInOpen(s, run, i) && TestsPort(s.clients[i].o)
    ensures var e := After(s, run); i < |e.clients| && e.clients[i].InOpen?
    ensures var o := After(s, run).clients[i].o;
            if TestsPort(o) then !FoundClosed(s, run, i) && !OpenFails(s, run, i)
            else if Tries(o) then FoundClosed(s, run, i) && !OpenFails(s, run, i)
            else o == OpenRelease(if !FoundClosed(s, run, i) then ILLEGAL_OPERATION
                                  else if OpenFails(s, run, i) then ERROR else OK)
    decreases |run|
  {
    hide Next, Enabled;
    if run == [] {
    } else {
      var s' := Next(s, run[0]);
      OpenStepGoesOn(s, run[0], i);
      var o' := s'.clients[i].o;
      if TestsPort(o') {
        OpenAnswers(s', run[1..], i);
      } else if o'.OpenPort? {
        OpenAnswerAfterTest(s', run[1..], i);
      } else {
        OpenAnswerKept(s', run[1..], i, ILLEGAL_OPERATION);
      }
    }
  }

  // ---------- Whom the reader wakes ----------

  /** The reader has queued a sample or ended its routine, and has not notified yet. */
  predicate OwesWakeup(r: Reader) { r.AtSet? || r.AtUnlock? || r.AtNotify? || r.Storing? || r.Notifying? }

  lemma StepKeepsOwing(s: State, a: Action, j: nat)
    requires Lifecycle(s) && Enabled(s, a) && OwesWakeup(s.reader) && j < |s.clients| && IsBlocked(s.clients[j])
    requires j < |Next(s, a).clients| && IsBlocked(Next(s, a).clients[j])
    ensures OwesWakeup(Next(s, a).reader)
  {
    match a
    case ReaderStep(event, result) => ReaderOwes(s, event, result);
    case Begin(_, _) =>
    case Wake(_, _) =>
    case Continue(k, fails, result) =>
      CallLeavesReader(s, k, fails, result);
      hide ReaderNext, OpenNext, CloseNext, TakeNext, WaitNext;
  }

  lemma ReaderOwes(s: State, event: PortEvent, result: CloseResult)
    requires ReaderEnabled(s, event) && OwesWakeup(s.reader)
    ensures var s' := ReaderNext(s, event, result);
            OwesWakeup(s'.reader) || forall j | 0 <= j < |s'.clients| :: !IsBlocked(s'.clients[j])
  {
    hide Step;
  }

  lemma CallLeavesReader(s: State, k: nat, fails: bool, result: CloseResult)
    requires k < |s.clients| && ContinueEnabled(s, k) && s.thread == Joinable && s.reader != Returned
    ensures var c := s.clients[k];
            && (c.InOpen? ==> OpenNext(s, k, c.o, fails).reader == s.reader)
            && (c.InClose? ==> CloseNext(s, k, c.c, result).reader == s.reader)
            && (c.InTake? ==> TakeNext(s, k, c.t).reader == s.reader)
            && (c.InWait? ==> WaitNext(s, k, c.w, fails).reader == s.reader)
  {
    hide Step, NotifyAll;
  }

  /** The reader does not go on over the head of a sleeper: a waiter asleep after it has queued a sample,
      or after a failed read, is woken before it reads again or returns. */
  lemma {:induction false} ReaderWakesSleepers(s: State, run: seq<Action>, j: nat)
    requires Safe(s) && Possible(s, run) && SleepsThrough(s, run, j) && OwesWakeup(s.reader)
    ensures OwesWakeup(After(s, run).reader)
    decreases |run|
  {
    hide Safe, Next, Enabled, OwesWakeup, IsBlocked;
    if run == [] {
    } else {
      SafeParts(s);
      StepKeepsOwing(s, run[0], j);
      NextSafe(s, run[0]);
      ReaderWakesSleepers(Next(s, run[0]), run[1..], j);
    }
  }
}
