/** `EasyNmeaImpl` under concurrency: one reader thread and any number of client threads, one step
    per lock operation, atomic store, queue update, notification, predicate test or block.

    A state carries, next to the shared variables and the program counters, what has happened so far
    (`Past`); no step depends on it. */
module Protocol {
  import opened Coder
  import opened FixedSizeQueues
  import opened Framing
  import opened Records
  import opened SerialInterfaces
  import opened Wrappers

  const CAPACITY: nat := 10

  /** The bits of `NMEA0183DataKindMask`; bit 0 is GPGGA. */
  type KindMask = set<nat>

  const GPGGA_BIT: nat := 0

  datatype ReturnCode = OK | NO_DATA | TIMEOUT | ILLEGAL_OPERATION | ERROR

  /** `read_thread_`; `Joined` between the join and the reset to null. */
  datatype ThreadHandle = NoThread | Joinable | Joined

  datatype Holder = ByReader | ByClient(i: nat)

  /** Where the read thread is. */
  datatype Reader =
    | Absent
    | AtLoop
    | AtReadLine
    | Reading(line: string)
    | Closing
    | Storing
    | Notifying
    | AtDecode(line: string)
    | WantsData(sample: GpggaData)
    | AtPush(sample: GpggaData)
    | AtSet
    | AtUnlock
    | AtNotify
    | Returned

  /** Where a client thread is: outside, or inside one of the four calls. */
  datatype Client = Idle | InOpen(o: OpenPoint) | InClose(c: ClosePoint) | InTake(t: TakePoint) | InWait(w: WaitPoint)

  datatype OpenPoint =
    OpenWants | OpenCheck | OpenPort | OpenOption | OpenStore | OpenSpawn | OpenRelease(code: ReturnCode)

  datatype ClosePoint =
    | CloseWants | CloseCheck | CloseStore | ClosePort
    | CloseJoin(code: ReturnCode) | CloseReset(code: ReturnCode)
    | CloseRelease(code: ReturnCode, notify: bool) | CloseNotify(code: ReturnCode)

  datatype TakePoint =
    TakeWants | TakeCheck | TakeClear(sample: GpggaData) | TakeRelease(taken: Option<GpggaData>)

  datatype WaitPoint =
    | WaitWants(mask: KindMask) | WaitCheck(mask: KindMask) | WaitRelease(mask: KindMask, isOpen: bool)
    | WaitWantsData(mask: KindMask)
    | WaitTest(mask: KindMask, expired: bool)
    | AboutToBlock(mask: KindMask)
    | Blocked(mask: KindMask)
    | Woken(mask: KindMask, expired: bool)
    | WaitVerdict(mask: KindMask, timedOut: bool, sawRunning: bool)
    | WaitDone(mask: KindMask, verdict: ReturnCode, sawRunning: bool)

  /** Why the process went down. */
  datatype Crash = JoinOfNothing | ThreadOverwritten | ConversionThrew

  /** What went wrong between the program and its port, and no join of the read thread has made good
      since. */
  datatype Fault = OptionFailed | CloseFailed | ReadError

  /** `closed`: a successful or failed `close` has completed and no `open` has started a routine since.
      `setbacks`: how often a `close` has cleared the flag, a read has ended with an error, or
      `set_option` has failed. */
  datatype Past = Past(
    log: seq<PortEvent>,
    delivered: seq<GpggaData>,
    closed: bool,
    faults: set<Fault>,
    setbacks: nat)

  datatype State = State(
    crash: Option<Crash>,
    portOpen: bool,
    running: bool,
    thread: ThreadHandle,
    received: KindMask,
    queue: History<GpggaData>,
    mutex: Option<nat>,
    dataMutex: Option<Holder>,
    reader: Reader,
    clients: seq<Client>,
    past: Past)

  datatype Call = CallOpen | CallClose | CallTake | CallWait(mask: KindMask)

  /** The environment's choices are part of the action: what a read delivers, how the operating
      system answers, which call a client makes, when a blocked waiter wakes without being notified. */
  datatype Action =
    | ReaderStep(event: PortEvent, result: CloseResult)
    | Begin(i: nat, call: Call)
    | Continue(i: nat, fails: bool, result: CloseResult)
    | Wake(i: nat, expired: bool)

  function Initial(n: nat): State {
    State(
      None, false, false, NoThread, {}, History([], [], []), None, None, Absent, seq(n, _ => Idle),
      Past([], [], false, {}, 0))
  }

  // ---------- Locks ----------

  predicate HoldsMutex(c: Client) {
    match c
    case Idle => false
    case InOpen(o) => !o.OpenWants?
    case InClose(c) => !c.CloseWants? && !c.CloseNotify?
    case InTake(_) => false
    case InWait(w) => w.WaitCheck? || w.WaitRelease?
  }

  predicate HoldsData(c: Client) {
    match c
    case InTake(t) => !t.TakeWants?
    case InWait(w) => w.WaitTest? || w.AboutToBlock? || w.WaitVerdict? || w.WaitDone?
    case _ => false
  }

  predicate ReaderHoldsData(r: Reader) { r.AtPush? || r.AtSet? || r.AtUnlock? }

  predicate WantsMutex(c: Client) {
    match c
    case InOpen(o) => o.OpenWants?
    case InClose(c) => c.CloseWants?
    case InWait(w) => w.WaitWants?
    case _ => false
  }

  predicate WantsDataMutex(c: Client) {
    match c
    case InTake(t) => t.TakeWants?
    case InWait(w) => w.WaitWantsData? || w.Woken?
    case _ => false
  }

  predicate IsBlocked(c: Client) { c.InWait? && c.w.Blocked? }

  // ---------- Enabledness ----------

  predicate ReaderEnabled(s: State, event: PortEvent) {
    match s.reader
    case Absent => false
    case Returned => false
    case Reading(_) => s.portOpen || !event.Byte?
    case WantsData(_) => s.dataMutex == None
    case _ => true
  }

  predicate ContinueEnabled(s: State, i: nat)
    requires i < |s.clients|
  {
    var c := s.clients[i];
    && !c.Idle? && !IsBlocked(c)
    && (WantsMutex(c) ==> s.mutex == None)
    && (WantsDataMutex(c) ==> s.dataMutex == None)
    && (c.InClose? && c.c.CloseJoin? ==> s.thread == NoThread || (s.thread == Joinable && s.reader == Returned))
  }

  predicate Enabled(s: State, a: Action) {
    && s.crash == None
    && match a
       case ReaderStep(event, _) => ReaderEnabled(s, event)
       case Begin(i, _) => i < |s.clients| && s.clients[i] == Idle
       case Continue(i, _, _) => i < |s.clients| && ContinueEnabled(s, i)
       case Wake(i, _) => i < |s.clients| && IsBlocked(s.clients[i])
  }

  // ---------- Steps ----------

  function NotifyAll(clients: seq<Client>): (woken: seq<Client>)
    ensures |woken| == |clients|
  {
    seq(|clients|, i requires 0 <= i < |clients| =>
      if IsBlocked(clients[i]) then InWait(Woken(clients[i].w.mask, false)) else clients[i])
  }

  function Fail(s: State, cause: Crash): State { s.(crash := Some(cause)) }

  function ReaderNext(s: State, event: PortEvent, result: CloseResult): State
    requires ReaderEnabled(s, event)
  {
    match s.reader
    case AtLoop => s.(reader := if s.running then AtReadLine else Returned)
    case AtReadLine => s.(reader := if s.portOpen then Reading("") else Storing)
    case Reading(line) => ReadOne(s, line, event)
    case Closing => s.(portOpen := s.portOpen && result == ErrorStillOpen, reader := Storing)
    case Storing => s.(running := false, reader := Notifying)
    case Notifying => NotifyNext(s).(reader := AtLoop)
    case AtDecode(line) => (
      match Decoding(line)
      case Gpgga(sample) => s.(reader := WantsData(sample))
      case Invalid => s.(reader := AtLoop)
      case Terminates => Fail(s, ConversionThrew))
    case WantsData(sample) => s.(dataMutex := Some(ByReader), reader := AtPush(sample))
    case AtPush(sample) => s.(queue := Step(s.queue, CAPACITY, Push(sample)), reader := AtSet)
    case AtSet => s.(received := s.received + {GPGGA_BIT}, reader := AtUnlock)
    case AtUnlock => s.(dataMutex := None, reader := AtNotify)
    case AtNotify => NotifyNext(s).(reader := AtLoop)
  }

  /** One character, or the error that ends the line. An error on a port that was closed meanwhile is
      no fault of the device. */
  function ReadOne(s: State, line: string, event: PortEvent): State {
    var s := s.(past := s.past.(log := s.past.log + [event]));
    match event
    case Byte(c) =>
      s.(reader := if c == '\r' then Reading(line) else if c == '\n' then AtDecode(line) else Reading(line + [c]))
    case Aborted => s.(past := s.past.(setbacks := s.past.setbacks + 1), reader := Storing)
    case Failed =>
      var faults := if s.portOpen then s.past.faults + {ReadError} else s.past.faults;
      s.(past := s.past.(faults := faults, setbacks := s.past.setbacks + 1), reader := Closing)
  }

  /** Client `i` moves to `c`. */
  function Go(s: State, i: nat, c: Client): State
    requires i < |s.clients|
  {
    s.(clients := s.clients[i := c])
  }

  function BeginNext(s: State, i: nat, call: Call): State
    requires i < |s.clients|
  {
    match call
    case CallOpen => Go(s, i, InOpen(OpenWants))
    case CallClose => Go(s, i, InClose(CloseWants))
    case CallTake => Go(s, i, InTake(TakeWants))
    case CallWait(mask) => Go(s, i, InWait(WaitWants(mask)))
  }

  function OpenNext(s: State, i: nat, o: OpenPoint, fails: bool): State
    requires i < |s.clients|
  {
    match o
    case OpenWants => Go(s, i, InOpen(OpenCheck)).(mutex := Some(i))
    case OpenCheck => Go(s, i, InOpen(if s.portOpen then OpenRelease(ILLEGAL_OPERATION) else OpenPort))
    case OpenPort =>
      if fails then Go(s, i, InOpen(OpenRelease(ERROR))) else Go(s, i, InOpen(OpenOption)).(portOpen := true)
    case OpenOption =>
      if fails then
        Go(s, i, InOpen(OpenRelease(ERROR))).(
          past := s.past.(faults := s.past.faults + {OptionFailed}, setbacks := s.past.setbacks + 1))
      else Go(s, i, InOpen(OpenStore))
    case OpenStore => Go(s, i, InOpen(OpenSpawn)).(running := true, past := s.past.(closed := false))
    case OpenSpawn =>
      if s.thread == Joinable then Fail(s, ThreadOverwritten)
      else Go(s, i, InOpen(OpenRelease(OK))).(thread := Joinable, reader := AtLoop)
    case OpenRelease(_) => Go(s, i, Idle).(mutex := None)
  }

  function CloseNext(s: State, i: nat, c: ClosePoint, result: CloseResult): State
    requires i < |s.clients|
  {
    match c
    case CloseWants => Go(s, i, InClose(CloseCheck)).(mutex := Some(i))
    case CloseCheck =>
      Go(s, i, InClose(if s.portOpen then CloseStore else CloseRelease(ILLEGAL_OPERATION, false)))
    case CloseStore =>
      Go(s, i, InClose(ClosePort)).(running := false, past := s.past.(setbacks := s.past.setbacks + 1))
    case ClosePort =>
      if s.portOpen then
        var faults := if result == ErrorStillOpen then s.past.faults + {CloseFailed} else s.past.faults;
        Go(s, i, InClose(CloseJoin(if result == Closed then OK else ERROR))).(
          portOpen := result == ErrorStillOpen, past := s.past.(faults := faults))
      else Go(s, i, InClose(CloseJoin(OK)))
    case CloseJoin(code) =>
      if s.thread == NoThread then Fail(s, JoinOfNothing)
      else
        var faults := if s.portOpen then s.past.faults - {ReadError} else {};
        Go(s, i, InClose(CloseReset(code))).(
          thread := Joined, reader := Absent, past := s.past.(faults := faults))
    case CloseReset(code) => Go(s, i, InClose(CloseRelease(code, true))).(thread := NoThread)
    case CloseRelease(code, notify) =>
      Go(s, i, if notify then InClose(CloseNotify(code)) else Idle).(
        mutex := None, past := s.past.(closed := s.past.closed || notify))
    case CloseNotify(_) => NotifyNext(Go(s, i, Idle))
  }

  /** Every blocked waiter becomes ready to take `data_mutex_` and test again. */
  function NotifyNext(s: State): State { s.(clients := NotifyAll(s.clients)) }

  function TakeNext(s: State, i: nat, t: TakePoint): State
    requires i < |s.clients|
  {
    match t
    case TakeWants => Go(s, i, InTake(TakeCheck)).(dataMutex := Some(ByClient(i)))
    case TakeCheck =>
      if s.queue.content == [] then Go(s, i, InTake(TakeRelease(None)))
      else
        var front := s.queue.content[0];
        Go(s, i, InTake(TakeClear(front))).(
          queue := Step(s.queue, CAPACITY, Pop),
          past := s.past.(delivered := s.past.delivered + [front]))
    case TakeClear(sample) =>
      Go(s, i, InTake(TakeRelease(Some(sample)))).(
        received := if s.queue.content == [] then s.received - {GPGGA_BIT} else s.received)
    case TakeRelease(_) => Go(s, i, Idle).(dataMutex := None)
  }

  /** What the waiting predicate sees. */
  predicate WakeCondition(s: State, mask: KindMask) {
    !s.running || (GPGGA_BIT in mask && GPGGA_BIT in s.received)
  }

  /** `late`: on taking `data_mutex_` again the deadline has passed, notified or not. */
  function WaitNext(s: State, i: nat, w: WaitPoint, late: bool): State
    requires i < |s.clients| && !w.Blocked?
  {
    match w
    case WaitWants(mask) => Go(s, i, InWait(WaitCheck(mask))).(mutex := Some(i))
    case WaitCheck(mask) => Go(s, i, InWait(WaitRelease(mask, s.portOpen)))
    case WaitRelease(mask, isOpen) => Go(s, i, if isOpen then InWait(WaitWantsData(mask)) else Idle).(mutex := None)
    case WaitWantsData(mask) => Go(s, i, InWait(WaitTest(mask, false))).(dataMutex := Some(ByClient(i)))
    case WaitTest(mask, expired) =>
      if WakeCondition(s, mask) then Go(s, i, InWait(WaitVerdict(mask, false, s.running)))
      else if expired then Go(s, i, InWait(WaitVerdict(mask, true, s.running)))
      else Go(s, i, InWait(AboutToBlock(mask)))
    case AboutToBlock(mask) => Go(s, i, InWait(Blocked(mask))).(dataMutex := None)
    case Woken(mask, expired) => Go(s, i, InWait(WaitTest(mask, expired || late))).(dataMutex := Some(ByClient(i)))
    case WaitVerdict(mask, timedOut, sawRunning) =>
      var verdict := if timedOut then TIMEOUT else if mask != {} && s.received != {} then OK else ERROR;
      Go(s, i, InWait(WaitDone(mask, verdict, sawRunning)))
    case WaitDone(_, _, _) => Go(s, i, Idle).(dataMutex := None)
  }

  function Next(s: State, a: Action): State
    requires Enabled(s, a)
  {
    match a
    case ReaderStep(event, result) => ReaderNext(s, event, result)
    case Begin(i, call) => BeginNext(s, i, call)
    case Continue(i, fails, result) => (
      match s.clients[i]
      case InOpen(o) => OpenNext(s, i, o, fails)
      case InClose(c) => CloseNext(s, i, c, result)
      case InTake(t) => TakeNext(s, i, t)
      case InWait(w) => WaitNext(s, i, w, fails))
    case Wake(i, expired) => Go(s, i, InWait(Woken(s.clients[i].w.mask, expired)))
  }

  // ---------- Runs ----------

  predicate Possible(s: State, run: seq<Action>)
    decreases |run|
  {
    run == [] || (Enabled(s, run[0]) && Possible(Next(s, run[0]), run[1..]))
  }

  function After(s: State, run: seq<Action>): State
    requires Possible(s, run)
    decreases |run|
  {
    if run == [] then s else After(Next(s, run[0]), run[1..])
  }
}
