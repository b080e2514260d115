/** What every step of the protocol keeps. */
module ProtocolInvariants {
  import opened Coder
  import opened FixedSizeQueues
  import opened Framing
  import opened Protocol
  import opened Records
  import opened SerialInterfaces
  import opened Wrappers

  // ---------- Locks ----------

  /** A mutex is owned by `i` exactly when `i` is between its acquisition and its release. */
  ghost predicate Locks(s: State) {
    && (s.mutex.Some? ==> s.mutex.value < |s.clients|)
    && (s.dataMutex.Some? && s.dataMutex.value.ByClient? ==> s.dataMutex.value.i < |s.clients|)
    && (ReaderHoldsData(s.reader) <==> s.dataMutex == Some(ByReader))
    && (forall i | 0 <= i < |s.clients| :: HoldsMutex(s.clients[i]) <==> s.mutex == Some(i))
    && (forall i | 0 <= i < |s.clients| :: HoldsData(s.clients[i]) <==> s.dataMutex == Some(ByClient(i)))
  }

  // ---------- Queue and received mask ----------

  predicate AtTakeClear(c: Client) { c.InTake? && c.t.TakeClear? }

  /** Inside a critical section, between the queue update and the update of its bit. */
  predicate Midway(s: State) {
    match s.dataMutex
    case None => false
    case Some(ByReader) => s.reader.AtSet?
    case Some(ByClient(i)) => i < |s.clients| && AtTakeClear(s.clients[i])
  }

  ghost predicate QueueAndMask(s: State) {
    && Accounted(s.queue, CAPACITY)
    && s.received <= {GPGGA_BIT}
    && (!Midway(s) ==> (GPGGA_BIT in s.received <==> s.queue.content != []))
    && (s.reader.AtSet? ==> s.queue.content != [])
    && (forall i | 0 <= i < |s.clients| :: AtTakeClear(s.clients[i]) ==> GPGGA_BIT in s.received)
  }

  // ---------- Waiting ----------

  /** A waiter for GPGGA is blocked with data queued only while the reader is on its way to notify. */
  ghost predicate NoLostWakeup(s: State) {
    forall i | 0 <= i < |s.clients| ::
      IsBlocked(s.clients[i]) && GPGGA_BIT in s.clients[i].w.mask && s.queue.content != []
      ==> s.reader.AtSet? || s.reader.AtUnlock? || s.reader.AtNotify?
  }

  /** The verdict as a function of the mask, the last value seen of the routine flag, and whether
      samples are queued. */
  function VerdictOf(mask: KindMask, sawRunning: bool, queued: bool): ReturnCode {
    if GPGGA_BIT in mask then (if queued then OK else if sawRunning then TIMEOUT else ERROR)
    else if sawRunning then TIMEOUT
    else if mask != {} && queued then OK
    else ERROR
  }

  predicate VerdictIs(c: Client, queued: bool) {
    match c
    case InWait(AboutToBlock(mask)) => !(GPGGA_BIT in mask && queued)
    case InWait(WaitVerdict(mask, timedOut, sawRunning)) => timedOut <==> sawRunning && !(GPGGA_BIT in mask && queued)
    case InWait(WaitDone(mask, verdict, sawRunning)) => verdict == VerdictOf(mask, sawRunning, queued)
    case _ => true
  }

  ghost predicate Verdicts(s: State) {
    forall i | 0 <= i < |s.clients| :: VerdictIs(s.clients[i], s.queue.content != [])
  }

  /** About to return OK from `wait_for_data` for GPGGA. */
  predicate Promising(c: Client) {
    c.InWait? && c.w.WaitDone? && c.w.verdict == OK && GPGGA_BIT in c.w.mask
  }

  // ---------- Deliveries ----------

  /** The samples decoded from a list of lines. */
  function Samples(lines: seq<string>): seq<GpggaData> {
    if lines == [] then [] else Samples(lines[..|lines| - 1]) + SampleOf(lines[|lines| - 1])
  }

  function SampleOf(line: string): seq<GpggaData> {
    match Decoding(line)
    case Gpgga(sample) => [sample]
    case _ => []
  }

  /** Samples of completed lines that the reader has not pushed yet. */
  function InFlight(r: Reader): seq<GpggaData> {
    match r
    case AtDecode(line) => SampleOf(line)
    case WantsData(sample) => [sample]
    case AtPush(sample) => [sample]
    case _ => []
  }

  /** The pushed samples that were popped, in order. */
  function Taken(pushes: seq<GpggaData>, exits: seq<Exit>): seq<GpggaData>
    requires |exits| <= |pushes|
  {
    if exits == [] then [] else
      var n := |exits| - 1;
      Taken(pushes, exits[..n]) + if exits[n].Popped? then [pushes[n]] else []
  }

  ghost predicate Deliveries(s: State) {
    && |s.queue.exits| <= |s.queue.pushes|
    && (if s.reader.Reading? then s.reader.line == Framed(s.past.log).partial else Framed(s.past.log).partial == "")
    && (s.reader.AtDecode? ==>
          var lines := Framed(s.past.log).lines; lines != [] && lines[|lines| - 1] == s.reader.line)
    && s.queue.pushes + InFlight(s.reader) == Samples(Framed(s.past.log).lines)
    && s.past.delivered == Taken(s.queue.pushes, s.queue.exits)
  }

  // ---------- Lifecycle ----------

  /** What the owner of `mutex_` knows about the reader at each point of `open` and `close`. */
  predicate OwnerKnows(s: State, c: Client) {
    match c
    case InOpen(o) => o.OpenSpawn? ==> !s.past.closed
    case InClose(c) =>
      && (c.ClosePort? || c.CloseJoin? || c.CloseReset? || (c.CloseRelease? && c.notify) ==> !s.running)
      && (c.CloseReset? ==> s.thread == Joined)
      && (c.CloseRelease? && c.notify ==> s.thread == NoThread)
      && (c.CloseJoin? && s.portOpen ==> CloseFailed in s.past.faults)
    case _ => true
  }

  /** The owner of `mutex_` satisfies `p`. */
  predicate OwnerIs(s: State, p: Client -> bool) {
    s.mutex.Some? && s.mutex.value < |s.clients| && p(s.clients[s.mutex.value])
  }

  predicate Resetting(c: Client) { c.InClose? && c.c.CloseReset? }

  predicate Joining(c: Client) { c.InClose? && c.c.CloseJoin? }

  predicate Opening(c: Client) { c.InOpen? && (c.o.OpenOption? || c.o.OpenStore? || c.o.OpenSpawn?) }

  ghost predicate Lifecycle(s: State) {
    && (s.reader != Absent <==> s.thread == Joinable)
    && (s.thread == Joined ==> OwnerIs(s, Resetting))
    && (ReadError in s.past.faults ==> s.thread == Joinable)
    && (s.past.closed ==> !s.running && s.thread == NoThread)
    && (forall i | 0 <= i < |s.clients| :: OwnerKnows(s, s.clients[i]))
  }

  /** Inside `close` the thread is there until it is joined, and the port stays closed after it was
      closed. */
  predicate NotStranded(s: State, c: Client) {
    match c
    case InOpen(o) => o.OpenPort? ==> !s.portOpen
    case InClose(c) =>
      && (c.CloseStore? || c.ClosePort? || c.CloseJoin? ==> s.thread == Joinable)
      && (c.CloseJoin? || c.CloseReset? || (c.CloseRelease? && c.notify) ==> !s.portOpen)
    case _ => true
  }

  /** While neither `set_option` nor closing has failed, an open port has its thread. */
  ghost predicate PortHasThread(s: State) {
    s.past.faults !! {OptionFailed, CloseFailed} ==>
      && (forall i | 0 <= i < |s.clients| :: NotStranded(s, s.clients[i]))
      && (s.portOpen && s.thread != Joinable ==> OwnerIs(s, Opening))
  }

  predicate FreshOpen(s: State, c: Client) {
    && ((c.InOpen? && c.o.OpenPort?) || Opening(c) ==> s.thread != Joinable)
    && (Opening(c) ==> s.portOpen)
  }

  /** Without a read error the reader outlives the port only inside `close`. */
  ghost predicate ThreadHasPort(s: State) {
    ReadError !in s.past.faults ==>
      && (s.reader.Closing? ==> !s.portOpen)
      && (s.thread == Joinable && !s.portOpen ==> OwnerIs(s, Joining))
      && (forall i | 0 <= i < |s.clients| :: FreshOpen(s, s.clients[i]))
  }

  /** An open port without a thread, or, inside `close`, the way into or out of that state. */
  predicate StrandedFor(s: State, c: Client) {
    match c
    case InOpen(o) => s.portOpen && s.thread == NoThread && (o.OpenWants? || o.OpenCheck? || o.OpenRelease?)
    case InClose(c) =>
      if c.CloseJoin? then s.thread == NoThread || (s.thread == Joinable && s.portOpen)
      else if c.CloseReset? then s.portOpen
      else s.portOpen && s.thread == NoThread
    case _ => s.portOpen && s.thread == NoThread
  }

  /** Without a read error, a failed `set_option` or a refused closing strands the port for good. */
  ghost predicate Stranding(s: State) {
    s.crash == None && ReadError !in s.past.faults && !(s.past.faults !! {OptionFailed, CloseFailed}) ==>
      StrandedFor(s, if s.mutex.Some? && s.mutex.value < |s.clients| then s.clients[s.mutex.value] else Idle)
  }

  ghost predicate Crashes(s: State) {
    match s.crash
    case None => true
    case Some(JoinOfNothing) => !(s.past.faults !! {OptionFailed, CloseFailed})
    case Some(ThreadOverwritten) => ReadError in s.past.faults
    case Some(ConversionThrew) => exists line | line in Framed(s.past.log).lines :: Decoding(line) == Terminates
  }

  /** The invariants about `mutex_`, the port and the read thread. */
  ghost predicate Control(s: State) { Lifecycle(s) && PortHasThread(s) && ThreadHasPort(s) && Stranding(s) }

  /** The invariants about `data_mutex_`, the queue and its clients. */
  ghost predicate DataSide(s: State) { QueueAndMask(s) && NoLostWakeup(s) && Verdicts(s) }

  ghost predicate Safe(s: State) {
    Locks(s) && Control(s) && DataSide(s) && Deliveries(s) && Crashes(s)
  }

  lemma InitialSafe(n: nat)
    ensures Safe(Initial(n))
  {
  }

  // ---------- Steps that touch one client ----------

  predicate OnlyClient(s: State, s': State, i: nat) {
    i < |s.clients| && |s'.clients| == |s.clients| && s'.clients == s.clients[i := s'.clients[i]]
  }

  /** The owner of a mutex changes only through `who` acquiring or releasing it. */
  predicate Handover<T(==)>(before: Option<T>, after: Option<T>, who: T) {
    after == before || (before == None && after == Some(who)) || (before == Some(who) && after == None)
  }

  lemma LocksStep(s: State, s': State, i: nat)
    requires Locks(s) && OnlyClient(s, s', i)
    requires Handover(s.mutex, s'.mutex, i) && (HoldsMutex(s'.clients[i]) <==> s'.mutex == Some(i))
    requires Handover(s.dataMutex, s'.dataMutex, ByClient(i))
    requires HoldsData(s'.clients[i]) <==> s'.dataMutex == Some(ByClient(i))
    requires ReaderHoldsData(s.reader) <==> ReaderHoldsData(s'.reader)
    ensures Locks(s')
  {
  }

  lemma OwnLocks(s: State, i: nat)
    requires Locks(s) && i < |s.clients|
    ensures HoldsMutex(s.clients[i]) <==> s.mutex == Some(i)
    ensures HoldsData(s.clients[i]) <==> s.dataMutex == Some(ByClient(i))
  {
  }

  predicate ControlPoint(c: Client) {
    match c
    case InOpen(o) => !o.OpenWants? && !o.OpenCheck? && !o.OpenRelease?
    case InClose(c) => !c.CloseWants? && !c.CloseCheck? && !c.CloseNotify?
    case _ => false
  }

  /** A client outside `open` and `close` does not disturb the port and the thread. */
  lemma ControlFrame(s: State, s': State, i: nat)
    requires Control(s) && OnlyClient(s, s', i)
    requires !ControlPoint(s.clients[i]) && !ControlPoint(s'.clients[i])
    requires Handover(s.mutex, s'.mutex, i)
    requires s'.portOpen == s.portOpen && s'.running == s.running && s'.thread == s.thread && s'.reader == s.reader
    requires s'.crash == s.crash && s'.past.closed == s.past.closed && s'.past.faults == s.past.faults
    ensures Control(s')
  {
  }

  predicate QuietReader(r: Reader) { !ReaderHoldsData(r) && !r.AtNotify? }

  /** A client outside the data sections does not disturb the queue and its clients. */
  lemma DataFrame(s: State, s': State, i: nat)
    requires DataSide(s) && OnlyClient(s, s', i)
    requires !HoldsData(s.clients[i]) && !HoldsData(s'.clients[i]) && !IsBlocked(s'.clients[i])
    requires s'.queue == s.queue && s'.received == s.received && s'.dataMutex == s.dataMutex
    requires s'.reader == s.reader || (QuietReader(s.reader) && QuietReader(s'.reader))
    ensures DataSide(s')
  {
    hide Accounted;
  }

  lemma NotifyKeeps(s: State)
    requires Locks(s) && Control(s) && DataSide(s)
    ensures var s' := NotifyNext(s);
            Locks(s') && Control(s') && DataSide(s')
    ensures forall i | 0 <= i < |s.clients| :: !IsBlocked(NotifyAll(s.clients)[i])
  {
    var s' := NotifyNext(s);
    forall i | 0 <= i < |s.clients| ensures Awoken(s.clients[i], s'.clients[i]) {}
    hide Accounted, NotifyAll;
    hide Locks, Control, DataSide;
    AwokenLocks(s, s');
    AwokenControl(s, s');
    AwokenData(s, s');
  }

  /** What a notification does to a client. */
  predicate Awoken(c: Client, c': Client) {
    if IsBlocked(c) then c' == InWait(Woken(c.w.mask, false)) else c' == c
  }

  ghost predicate AllAwoken(s: State, s': State) {
    && |s'.clients| == |s.clients| && s' == s.(clients := s'.clients)
    && forall i | 0 <= i < |s.clients| :: Awoken(s.clients[i], s'.clients[i])
  }

  lemma AwokenLocks(s: State, s': State)
    requires Locks(s) && AllAwoken(s, s')
    ensures Locks(s')
  {
  }

  lemma AwokenControl(s: State, s': State)
    requires Control(s) && AllAwoken(s, s')
    ensures Control(s')
  {
  }

  lemma AwokenData(s: State, s': State)
    requires DataSide(s) && AllAwoken(s, s')
    ensures DataSide(s')
  {
    hide Accounted;
  }

  lemma CrashKeeps(s: State, cause: Crash)
    requires Locks(s) && Control(s) && DataSide(s)
    ensures Locks(Fail(s, cause)) && Control(Fail(s, cause)) && DataSide(Fail(s, cause))
  {
    hide Accounted;
  }

  // ---------- The view of the owner of `mutex_` ----------

  /** `Control` seen by a thread that excludes everybody else from `open` and `close`. */
  predicate OwnerView(s: State, c: Client) {
    && (s.reader != Absent <==> s.thread == Joinable)
    && (s.thread == Joined ==> Resetting(c))
    && (ReadError in s.past.faults ==> s.thread == Joinable)
    && (s.past.closed ==> !s.running && s.thread == NoThread)
    && OwnerKnows(s, c)
    && (s.past.faults !! {OptionFailed, CloseFailed} ==>
          NotStranded(s, c) && (s.portOpen && s.thread != Joinable ==> Opening(c)))
    && (ReadError !in s.past.faults ==>
          FreshOpen(s, c) && (s.reader.Closing? ==> !s.portOpen)
          && (s.thread == Joinable && !s.portOpen ==> Joining(c)))
    && (s.crash == None && ReadError !in s.past.faults && !(s.past.faults !! {OptionFailed, CloseFailed}) ==>
          StrandedFor(s, c))
  }

  lemma OwnerSees(s: State, i: nat)
    requires Locks(s) && s.mutex == Some(i)
    ensures Control(s) <==> OwnerView(s, s.clients[i])
  {
    OthersOutside(s, i);
    forall j | 0 <= j < |s.clients| && j != i
      ensures OwnerKnows(s, s.clients[j]) && NotStranded(s, s.clients[j]) && FreshOpen(s, s.clients[j])
    {
      OutsideKnows(s, s.clients[j]);
    }
    hide Locks, OwnerKnows, NotStranded, FreshOpen;
  }

  lemma NobodySees(s: State)
    requires Locks(s) && s.mutex == None
    ensures Control(s) <==> OwnerView(s, Idle)
  {
    forall j | 0 <= j < |s.clients|
      ensures OwnerKnows(s, s.clients[j]) && NotStranded(s, s.clients[j]) && FreshOpen(s, s.clients[j])
    {
      OutsideKnows(s, s.clients[j]);
    }
    OutsideKnows(s, Idle);
    hide Locks, OwnerKnows, NotStranded, FreshOpen;
  }

  lemma OthersOutside(s: State, i: nat)
    requires Locks(s) && s.mutex == Some(i)
    ensures forall j | 0 <= j < |s.clients| && j != i :: !HoldsMutex(s.clients[j])
  {
  }

  lemma OutsideKnows(s: State, c: Client)
    requires !HoldsMutex(c)
    ensures OwnerKnows(s, c) && NotStranded(s, c) && FreshOpen(s, c)
  {
  }

  // ---------- Client steps ----------

  /** A step outside the data sections. */
  lemma TouchesOneClient(s: State, s': State, i: nat)
    requires Locks(s) && DataSide(s) && OnlyClient(s, s', i)
    requires Handover(s.mutex, s'.mutex, i) && (HoldsMutex(s'.clients[i]) <==> s'.mutex == Some(i))
    requires !HoldsData(s.clients[i]) && !HoldsData(s'.clients[i]) && !IsBlocked(s'.clients[i])
    requires s'.queue == s.queue && s'.received == s.received && s'.dataMutex == s.dataMutex
    requires s'.reader == s.reader || (QuietReader(s.reader) && QuietReader(s'.reader))
    ensures Locks(s') && DataSide(s')
  {
    OwnLocks(s, i);
    LocksStep(s, s', i);
    DataFrame(s, s', i);
  }

  lemma BeginKeeps(s: State, i: nat, call: Call)
    requires Locks(s) && Control(s) && DataSide(s)
    requires i < |s.clients| && s.clients[i] == Idle
    ensures var s' := BeginNext(s, i, call); Locks(s') && Control(s') && DataSide(s')
  {
    hide Locks, Control, DataSide;
    var s' := BeginNext(s, i, call);
    OwnLocks(s, i);
    TouchesOneClient(s, s', i);
    ControlFrame(s, s', i);
  }

  lemma WakeKeeps(s: State, i: nat, expired: bool)
    requires Locks(s) && Control(s) && DataSide(s)
    requires i < |s.clients| && IsBlocked(s.clients[i])
    ensures var s' := Go(s, i, InWait(Woken(s.clients[i].w.mask, expired))); Locks(s') && Control(s') && DataSide(s')
  {
    hide Locks, Control, DataSide;
    var s' := Go(s, i, InWait(Woken(s.clients[i].w.mask, expired)));
    OwnLocks(s, i);
    TouchesOneClient(s, s', i);
    ControlFrame(s, s', i);
  }

  lemma OpenKeeps(s: State, i: nat, o: OpenPoint, fails: bool)
    requires Locks(s) && Control(s) && DataSide(s)
    requires i < |s.clients| && s.clients[i] == InOpen(o) && ContinueEnabled(s, i)
    ensures var s' := OpenNext(s, i, o, fails); Locks(s') && Control(s') && DataSide(s')
  {
    hide Locks, Control, DataSide;
    var s' := OpenNext(s, i, o, fails);
    OwnLocks(s, i);
    if o.OpenWants? || o.OpenRelease? {
      TouchesOneClient(s, s', i);
      ControlFrame(s, s', i);
    } else {
      OwnerSees(s, i);
      OpenOwned(s, i, o, fails);
      if s'.crash != s.crash {
        CrashKeeps(s, ThreadOverwritten);
      } else {
        TouchesOneClient(s, s', i);
        OwnerSees(s', i);
      }
    }
  }

  lemma OpenOwned(s: State, i: nat, o: OpenPoint, fails: bool)
    requires i < |s.clients| && s.clients[i] == InOpen(o) && s.mutex == Some(i)
    requires !o.OpenWants? && !o.OpenRelease? && OwnerView(s, s.clients[i])
    ensures var s' := OpenNext(s, i, o, fails);
            if s'.crash != s.crash then s' == Fail(s, ThreadOverwritten) else
            && OwnerMoves(s, s', i) && s'.mutex == s.mutex && HoldsMutex(s'.clients[i]) && s'.clients[i].InOpen?
            && OwnerView(s', s'.clients[i])
  {
    OpenMoves(s, i, o, fails);
    hide OwnerMoves;
  }

  /** What a step of `open` or `close` leaves alone. */
  predicate OwnerMoves(s: State, s': State, i: nat) {
    && OnlyClient(s, s', i)
    && s'.queue == s.queue && s'.received == s.received && s'.dataMutex == s.dataMutex
    && (s'.reader == s.reader || (QuietReader(s.reader) && QuietReader(s'.reader)))
  }

  lemma OpenMoves(s: State, i: nat, o: OpenPoint, fails: bool)
    requires i < |s.clients| && !o.OpenRelease? && (s.thread != Joinable ==> s.reader == Absent)
    ensures OwnerMoves(s, OpenNext(s, i, o, fails), i)
  {
  }

  lemma CloseKeeps(s: State, i: nat, c: ClosePoint, result: CloseResult)
    requires Locks(s) && Control(s) && DataSide(s)
    requires i < |s.clients| && s.clients[i] == InClose(c) && ContinueEnabled(s, i)
    ensures var s' := CloseNext(s, i, c, result); Locks(s') && Control(s') && DataSide(s')
  {
    hide Locks, Control, DataSide;
    var s' := CloseNext(s, i, c, result);
    OwnLocks(s, i);
    if c.CloseWants? {
      TouchesOneClient(s, s', i);
      ControlFrame(s, s', i);
    } else if c.CloseNotify? {
      var quiet := Go(s, i, Idle);
      TouchesOneClient(s, quiet, i);
      ControlFrame(s, quiet, i);
      NotifyKeeps(quiet);
    } else {
      OwnerSees(s, i);
      CloseOwned(s, i, c, result);
      if s'.crash != s.crash {
        CrashKeeps(s, JoinOfNothing);
      } else {
        TouchesOneClient(s, s', i);
        if c.CloseRelease? { NobodySees(s'); } else { OwnerSees(s', i); }
      }
    }
  }

  lemma CloseOwned(s: State, i: nat, c: ClosePoint, result: CloseResult)
    requires i < |s.clients| && s.clients[i] == InClose(c) && s.mutex == Some(i) && ContinueEnabled(s, i)
    requires !c.CloseWants? && !c.CloseNotify? && OwnerView(s, s.clients[i])
    ensures var s' := CloseNext(s, i, c, result);
            if s'.crash != s.crash then s' == Fail(s, JoinOfNothing) else
            && OwnerMoves(s, s', i) && s'.mutex == (if c.CloseRelease? then None else s.mutex)
            && (HoldsMutex(s'.clients[i]) <==> !c.CloseRelease?) && (s'.clients[i].InClose? || s'.clients[i] == Idle)
            && OwnerView(s', if c.CloseRelease? then Idle else s'.clients[i])
  {
    CloseMoves(s, i, c, result);
    hide OwnerMoves, NotifyAll;
  }

  lemma CloseMoves(s: State, i: nat, c: ClosePoint, result: CloseResult)
    requires i < |s.clients| && s.clients[i] == InClose(c) && ContinueEnabled(s, i)
    requires !c.CloseNotify? && (s.thread != Joinable ==> s.reader == Absent)
    ensures OwnerMoves(s, CloseNext(s, i, c, result), i)
  {
  }

  // ---------- The owner of `data_mutex_` ----------

  lemma OthersOutsideData(s: State, i: nat)
    requires Locks(s) && s.dataMutex == Some(ByClient(i))
    ensures forall j | 0 <= j < |s.clients| && j != i :: !HoldsData(s.clients[j])
    ensures QuietReader(s.reader) || s.reader.AtNotify?
  {
  }

  /** What a client in a data section establishes; the others follow. */
  predicate DataPoint(s: State, c: Client) {
    && s.received <= {GPGGA_BIT}
    && (!AtTakeClear(c) ==> (GPGGA_BIT in s.received <==> s.queue.content != []))
    && (AtTakeClear(c) ==> GPGGA_BIT in s.received)
    && VerdictIs(c, s.queue.content != [])
  }

  lemma DataPointOf(s: State, i: nat)
    requires Locks(s) && DataSide(s) && i < |s.clients| && s.dataMutex == Some(ByClient(i))
    ensures DataPoint(s, s.clients[i]) && Accounted(s.queue, CAPACITY)
  {
    hide Accounted;
  }

  lemma DataStep(s: State, s': State, i: nat)
    requires Locks(s) && Locks(s') && DataSide(s) && OnlyClient(s, s', i) && s.dataMutex == Some(ByClient(i))
    requires s'.dataMutex == s.dataMutex || s'.dataMutex == None
    requires Accounted(s'.queue, CAPACITY) && DataPoint(s', s'.clients[i])
    requires s'.queue.content != [] ==> s.queue.content != []
    requires s'.dataMutex == None ==> !AtTakeClear(s'.clients[i])
    requires IsBlocked(s'.clients[i]) && GPGGA_BIT in s'.clients[i].w.mask ==> s'.queue.content == []
    requires s'.reader == s.reader
    ensures DataSide(s')
  {
    OthersOutsideData(s, i);
    hide Accounted, Locks;
  }

  lemma TakeKeeps(s: State, i: nat, t: TakePoint)
    requires Locks(s) && Control(s) && DataSide(s)
    requires i < |s.clients| && s.clients[i] == InTake(t) && ContinueEnabled(s, i)
    ensures var s' := TakeNext(s, i, t); Locks(s') && Control(s') && DataSide(s')
  {
    hide Locks, Control, DataSide, Accounted;
    var s' := TakeNext(s, i, t);
    OwnLocks(s, i);
    if !t.TakeWants? {
      DataPointOf(s, i);
    }
    TakeLocks(s, i, t);
    LocksStep(s, s', i);
    ControlFrame(s, s', i);
    if t.TakeWants? {
      EnterData(s, s', i);
    } else {
      TakeOwned(s, i, t);
      DataStep(s, s', i);
    }
  }

  lemma TakeLocks(s: State, i: nat, t: TakePoint)
    requires i < |s.clients| && s.clients[i] == InTake(t) && ContinueEnabled(s, i)
    requires HoldsData(s.clients[i]) <==> s.dataMutex == Some(ByClient(i))
    requires s.mutex != Some(i)
    ensures var s' := TakeNext(s, i, t);
            && OnlyClient(s, s', i) && s'.mutex == s.mutex && s'.reader == s.reader
            && Handover(s.dataMutex, s'.dataMutex, ByClient(i))
            && (HoldsData(s'.clients[i]) <==> s'.dataMutex == Some(ByClient(i)))
            && !HoldsMutex(s'.clients[i]) && (s'.clients[i].InTake? || s'.clients[i] == Idle)
            && s'.portOpen == s.portOpen && s'.running == s.running && s'.thread == s.thread
            && s'.past.closed == s.past.closed && s'.past.faults == s.past.faults && s'.crash == s.crash
  {
    hide Step;
  }

  lemma TakeOwned(s: State, i: nat, t: TakePoint)
    requires i < |s.clients| && s.clients[i] == InTake(t) && !t.TakeWants? && s.dataMutex == Some(ByClient(i))
    requires DataPoint(s, s.clients[i]) && Accounted(s.queue, CAPACITY)
    ensures var s' := TakeNext(s, i, t);
            && Accounted(s'.queue, CAPACITY) && DataPoint(s', s'.clients[i])
            && (s'.queue.content != [] ==> s.queue.content != [])
            && (s'.dataMutex == None ==> !AtTakeClear(s'.clients[i]))
            && !IsBlocked(s'.clients[i])
  {
    if s.queue.content != [] {
      StepAccounted(s.queue, CAPACITY, Pop);
    }
    hide Accounted;
  }

  /** Acquiring `data_mutex_`. */
  lemma EnterData(s: State, s': State, i: nat)
    requires Locks(s) && DataSide(s) && OnlyClient(s, s', i) && s.dataMutex == None && s'.dataMutex == Some(ByClient(i))
    requires !AtTakeClear(s'.clients[i]) && !IsBlocked(s'.clients[i])
    requires VerdictIs(s'.clients[i], s'.queue.content != [])
    requires s'.clients[i].InTake? ==> s.clients[i].InTake?
    requires s'.queue == s.queue && s'.received == s.received && s'.reader == s.reader
    ensures DataSide(s')
  {
    hide Accounted;
  }

  lemma WaitKeeps(s: State, i: nat, w: WaitPoint, late: bool)
    requires Locks(s) && Control(s) && DataSide(s)
    requires i < |s.clients| && s.clients[i] == InWait(w) && ContinueEnabled(s, i)
    ensures var s' := WaitNext(s, i, w, late); Locks(s') && Control(s') && DataSide(s')
  {
    hide Locks, Control, DataSide, Accounted;
    var s' := WaitNext(s, i, w, late);
    OwnLocks(s, i);
    if HoldsData(s.clients[i]) {
      DataPointOf(s, i);
    }
    WaitLocks(s, i, w, late);
    LocksStep(s, s', i);
    ControlFrame(s, s', i);
    if w.WaitWantsData? || w.Woken? {
      EnterData(s, s', i);
    } else if HoldsData(s.clients[i]) {
      WaitOwned(s, i, w, late);
      DataStep(s, s', i);
    } else {
      DataFrame(s, s', i);
    }
  }

  lemma WaitLocks(s: State, i: nat, w: WaitPoint, late: bool)
    requires i < |s.clients| && s.clients[i] == InWait(w) && ContinueEnabled(s, i)
    requires HoldsMutex(s.clients[i]) <==> s.mutex == Some(i)
    requires HoldsData(s.clients[i]) <==> s.dataMutex == Some(ByClient(i))
    ensures var s' := WaitNext(s, i, w, late);
            && WaitFrames(s, s', i)
            && Handover(s.mutex, s'.mutex, i) && (HoldsMutex(s'.clients[i]) <==> s'.mutex == Some(i))
            && Handover(s.dataMutex, s'.dataMutex, ByClient(i))
            && (HoldsData(s'.clients[i]) <==> s'.dataMutex == Some(ByClient(i)))
            && (s'.clients[i].InWait? || s'.clients[i] == Idle)
            && (HoldsData(s.clients[i]) || w.WaitWantsData? || w.Woken? || s'.dataMutex == s.dataMutex)
            && (HoldsData(s.clients[i]) || !IsBlocked(s'.clients[i]))
            && (w.WaitWantsData? || w.Woken? ==> s'.clients[i].w.WaitTest? && s'.dataMutex == Some(ByClient(i)))
  {
    WaitFrame(s, i, w, late);
    hide WaitFrames;
  }

  /** What a step of `wait_for_data` leaves alone. */
  predicate WaitFrames(s: State, s': State, i: nat) {
    && OnlyClient(s, s', i) && s'.reader == s.reader
    && s'.portOpen == s.portOpen && s'.running == s.running && s'.thread == s.thread
    && s'.past.closed == s.past.closed && s'.past.faults == s.past.faults && s'.crash == s.crash
    && s'.queue == s.queue && s'.received == s.received
  }

  lemma WaitFrame(s: State, i: nat, w: WaitPoint, late: bool)
    requires i < |s.clients| && !w.Blocked?
    ensures WaitFrames(s, WaitNext(s, i, w, late), i)
  {
  }

  lemma WaitOwned(s: State, i: nat, w: WaitPoint, late: bool)
    requires i < |s.clients| && s.clients[i] == InWait(w) && HoldsData(s.clients[i])
    requires DataPoint(s, s.clients[i])
    ensures var s' := WaitNext(s, i, w, late);
            && DataPoint(s', s'.clients[i])
            && (IsBlocked(s'.clients[i]) && GPGGA_BIT in s'.clients[i].w.mask ==> s'.queue.content == [])
  {
  }

  // ---------- Reader steps ----------

  predicate Signalling(r: Reader) { r.AtSet? || r.AtUnlock? || r.AtNotify? }

  /** What a reader step that notifies nobody changes. */
  predicate ReaderEffect(s: State, s': State) {
    && s'.clients == s.clients && s'.mutex == s.mutex && s'.thread == s.thread
    && s'.past.closed == s.past.closed
    && s.reader != Absent && s'.reader != Absent
    && (s'.running ==> s.running) && (s'.portOpen ==> s.portOpen)
    && s.past.faults <= s'.past.faults <= s.past.faults + {ReadError}
    && (s'.portOpen != s.portOpen ==> s.reader.Closing? && ReadError in s'.past.faults)
    && (s'.reader.Closing? && s'.portOpen ==> ReadError in s'.past.faults)
    && s'.crash == s.crash
    && Handover(s.dataMutex, s'.dataMutex, ByReader)
    && (ReaderHoldsData(s'.reader) <==> s'.dataMutex == Some(ByReader))
  }

  lemma ReaderControl(s: State, s': State)
    requires Control(s) && ReaderEffect(s, s')
    ensures Control(s')
  {
  }

  lemma ReaderLocks(s: State, s': State)
    requires Locks(s) && ReaderEffect(s, s')
    ensures Locks(s')
  {
  }

  lemma ReaderData(s: State, s': State)
    requires Locks(s) && DataSide(s) && ReaderEffect(s, s')
    requires Accounted(s'.queue, CAPACITY) && s.received <= s'.received <= {GPGGA_BIT}
    requires s'.queue == s.queue || (s.dataMutex == Some(ByReader) && s'.queue.content != [])
    requires !Midway(s') ==> (GPGGA_BIT in s'.received <==> s'.queue.content != [])
    requires s'.reader.AtSet? ==> s'.queue.content != []
    requires s'.queue.content == [] || Signalling(s'.reader) || (s'.queue == s.queue && !Signalling(s.reader))
    ensures DataSide(s')
  {
    hide Accounted;
  }

  lemma ReaderKeeps(s: State, event: PortEvent, result: CloseResult)
    requires Locks(s) && Control(s) && DataSide(s) && ReaderEnabled(s, event)
    ensures var s' := ReaderNext(s, event, result); Locks(s') && Control(s') && DataSide(s')
  {
    hide Locks, Control, DataSide, Accounted, Decoding, NotifyAll, ReadOne;
    var s' := ReaderNext(s, event, result);
    if s.reader.AtNotify? || s.reader.Notifying? {
      NotifyKeeps(s);
      ReaderMoves(s, NotifyNext(s), s');
    } else if s.reader.AtDecode? && s'.crash != s.crash {
      CrashKeeps(s, ConversionThrew);
    } else {
      if !s.reader.AtDecode? { ReaderAlive(s, event, result); }
      hide ReaderNext;
      ReaderFacts(s);
      ReaderOwned(s, event, result);
      ReaderLocks(s, s');
      ReaderControl(s, s');
      ReaderData(s, s');
    }
  }

  lemma ReaderAlive(s: State, event: PortEvent, result: CloseResult)
    requires ReaderEnabled(s, event) && !s.reader.AtDecode?
    ensures ReaderNext(s, event, result).crash == s.crash
  {
    hide Step, NotifyAll;
  }

  /** After a notification nobody is blocked, so the reader may go on. */
  lemma ReaderMoves(s: State, n: State, s': State)
    requires Locks(n) && Control(n) && DataSide(n) && n.clients == NotifyAll(s.clients)
    requires (n.reader.AtNotify? || n.reader.Notifying?) && s' == n.(reader := AtLoop)
    ensures Locks(s') && Control(s') && DataSide(s')
  {
    hide Accounted;
  }

  /** What the reader knows before its step. */
  predicate ReaderPoint(s: State) {
    && s.received <= {GPGGA_BIT}
    && (!Midway(s) ==> (GPGGA_BIT in s.received <==> s.queue.content != []))
    && (s.reader.AtSet? ==> s.queue.content != [])
    && (ReaderHoldsData(s.reader) <==> s.dataMutex == Some(ByReader))
    && (s.reader.Closing? && s.portOpen ==> ReadError in s.past.faults)
  }

  lemma ReaderFacts(s: State)
    requires Locks(s) && Control(s) && DataSide(s)
    ensures ReaderPoint(s) && Accounted(s.queue, CAPACITY)
  {
    hide Accounted;
  }

  lemma ReaderOwned(s: State, event: PortEvent, result: CloseResult)
    requires ReaderEnabled(s, event) && ReaderPoint(s) && Accounted(s.queue, CAPACITY)
    requires !s.reader.AtNotify? && !s.reader.Notifying?
    requires ReaderNext(s, event, result).crash == s.crash
    ensures var s' := ReaderNext(s, event, result);
            && ReaderEffect(s, s')
            && Accounted(s'.queue, CAPACITY) && s.received <= s'.received <= {GPGGA_BIT}
            && (s'.queue == s.queue || (s.dataMutex == Some(ByReader) && s'.queue.content != []))
            && (!Midway(s') ==> (GPGGA_BIT in s'.received <==> s'.queue.content != []))
            && (s'.reader.AtSet? ==> s'.queue.content != [])
            && (s'.queue.content == [] || Signalling(s'.reader) || (s'.queue == s.queue && !Signalling(s.reader)))
  {
    hide Decoding;
    if s.reader.AtPush? {
      StepAccounted(s.queue, CAPACITY, Push(s.reader.sample));
      hide Accounted;
    } else if ReaderHoldsData(s.reader) {
      hide Accounted;
    } else {
      ReaderQuiet(s, event, result);
      hide Accounted, ReaderNext;
    }
  }

  lemma ReaderQuiet(s: State, event: PortEvent, result: CloseResult)
    requires ReaderEnabled(s, event) && ReaderPoint(s) && !ReaderHoldsData(s.reader)
    requires !s.reader.AtNotify? && !s.reader.Notifying?
    requires ReaderNext(s, event, result).crash == s.crash
    ensures var s' := ReaderNext(s, event, result);
            ReaderEffect(s, s') && s'.queue == s.queue && s'.received == s.received
            && !s'.reader.AtSet? && !Signalling(s'.reader) && (Midway(s') <==> Midway(s))
  {
    hide Decoding, Step, NotifyAll, ReadOne;
    if s.reader.Reading? {
      ReadQuiet(s, s.reader.line, event);
    }
  }

  lemma ReadQuiet(s: State, line: string, event: PortEvent)
    requires s.reader == Reading(line) && (s.portOpen || !event.Byte?) && ReaderPoint(s)
    ensures var s' := ReadOne(s, line, event);
            ReaderEffect(s, s') && s'.queue == s.queue && s'.received == s.received
            && !s'.reader.AtSet? && !Signalling(s'.reader) && (Midway(s') <==> Midway(s))
  {
  }
}
