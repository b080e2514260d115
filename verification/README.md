# EasyNMEA: a model of the receiving pipeline

EasyNMEA reads bytes from a serial port, cuts them into lines, decodes NMEA 0183 GPGGA sentences and
hands the samples to client threads through a queue of ten. This project models the four pieces that
hold the logic and proves what they promise together.

| part | files |
|---|---|
| decoder | `Text`, `Regex`, `Numerals`, `Checksum`, `Grammar`, `Layout`, `Angles`, `Records`, `Coder` |
| queue | `FixedSizeQueue` |
| line framing and port | `Framing`, `SerialInterface` |
| reader and clients under concurrency | `Protocol`, `ProtocolInvariants`, `ProtocolRuns`, `Theorems`, `Shutdown`, `Calls`, `Errors`, `Witnesses` |
| the class itself, one thread at a time | `EasyNmeaImpl` |
| everything chained | `Pipeline` |

**Decoder.** The two grammars are regular expressions as data, with the language each denotes under a
full match. A `Record` is what a sentence says (digits and written precision kept), `Render` writes it
with its computed checksum, and `Decoding` is the source's gates and conversions. Numbers are exact:
`float` is `real`, `stoi` has the `int` limit, and `uint16_t` is a remainder modulo 65536. A standard
library conversion that throws does so inside a `noexcept` function, so its outcome is `Terminates`.
`Decode`, `DecodeGpgga`, `FillSample`, `Split`, `ToDegrees` and `ValidateChecksum` are the source's loops
and assignments, each proved equal to the function the theorems are about.

**Protocol.** `Protocol` is a transition system with one read thread and any number of clients, one step
per lock operation, atomic store, queue update, notification, predicate test or block. `AboutToBlock`
separates the test of the waiting predicate from the blocking itself. The environment chooses the bytes
and read errors, the answers of the operating system, the calls clients make, time-outs and spurious
wake-ups. A state also carries the history (`past`, and the pushes and exits of the queue), which no step
depends on. `Safe` collects the invariants; `ReachableSafe` says that every reachable state has them, so
each lemma below that asks for `Safe(s)` holds in every reachable state.

**Classes.** `SerialInterface`, `FixedSizeQueue` and `EasyNmeaImpl` keep the source's fields and update
them in place. Their methods are specified by the functions that the protocol's steps use too
(`PushOn`, `Framed`, `Decoding`); `TakeSectionIsTakeNext`, `PushSectionIsProcessLine`, `OpenSectionIsOpen`,
`CloseSectionIsClose` and `LineProcessedByReader` put the protocol's step sequences next to the methods.

## Where the code and its comments differ

The model follows the code. Each difference in behaviour below comes with a lemma that has a concrete
case, the exact condition in a theorem, or both.

- `90.0` as a latitude matches the grammar but leaves no degree digits for `stof`: the process goes down
  (`Coder.PoleTerminates`, exact condition `Coder.TerminatesExactly`). `180.0` as a longitude is decoded
  to 1 + 80/60 degrees (`Coder.AntimeridianMisread`). The comment that the grammar makes further checks
  unnecessary (`EasyNmeaCoder.hpp:208-211`) therefore holds exactly under `Coder.Faithful`.
- Minutes `60.x` are accepted, so latitudes reach 90 + 1/60 and longitudes 180 + 1/60, exclusive
  (`Coder.AngleRange`, `Coder.SampleRanges`).
- Integer fields have no length limit: above `INT_MAX` the conversion throws, above 65535 it wraps
  (`Coder.TerminatesExactly`, `Coder.DecodedIntegers`).
- `read_line` drops every `\r`, not only the one before `\n` (`Framing.FramingIsSplitting`); lines are
  read back exactly if and only if they contain none (`Framing.LinesReadBack`).
- `wait_for_data` for a non-empty mask without GPGGA returns OK once the routine has stopped with samples
  queued (`Pipeline.OkWithoutGpgga`, exact condition `Theorems.VerdictMeaning`). Its mask is passed by
  value, so what it assigns to the mask reaches nobody; the model has no such assignment.
- `wait_for_data` is documented to return ERROR when another thread called `close`. It also does after a
  read that ended with an error (`Errors.ErrorAfterReadError`) and, with no read at all, after a failing
  `set_option` (`Errors.ErrorAfterOptionFailure`); these three are all (`Errors.ErrorNeedsSetback`). With
  no call under way, a caller can come to ERROR without any further one of them exactly when the port is
  open and the flag is down or about to be cleared (`Errors.ErrorExactly`).
- The stop flag is stored, and the waiters are notified, without `data_mutex_`. A waiter that is asleep is
  woken before the `close` is over (`Shutdown.StopWakesSleepers`). Of all clients exactly those between
  the test and the blocking when the waiters are notified can sleep on until the next start
  (`Shutdown.StopMissesExactly`, `Shutdown.CloseNotificationMisses`; a run: `Witnesses.StopWakeupLost`).
- `close` joins the read thread with `mutex_` held even when the operating system refused to close the
  port. If the reader then waits for the device, so do the join and every later `open`, `close` and
  `wait_for_data` (`Witnesses.RefusedCloseHangs`; exact conditions `Shutdown.JoinNeedsDevice` and
  `Shutdown.NoDeadlock`).
- A failing `set_option` leaves the port open without a read thread; the next `close` joins a null thread
  (`Witnesses.CloseAfterOptionFailure`; exact condition `Theorems.PortAndThread`).
- After a read error whose closing of the port succeeded, `close` refuses to run and the thread stays
  unjoined; the next `open` overwrites it and the process goes down (`Witnesses.ReopenCrashes`; over
  every schedule, exactly when: `Errors.OverwritesExactly`).

## Model

| member | source | states |
|---|---|---|
| Text.Split | src/cpp/EasyNmeaCoder.hpp:253-268 | the `getline` loop yields the fields between separators, empty, leading and trailing ones included |
| Text.JoinFields | src/cpp/EasyNmeaCoder.hpp:253-268 | for every text and separator: one more field than separators, no field contains the separator, joining restores the text |
| Text.FieldsJoin | src/cpp/EasyNmeaCoder.hpp:253-268 | joining separator-free fields and splitting gives the fields back |
| Checksum.ValidateChecksum | src/cpp/EasyNmeaCoder.hpp:134-160 | cutting at `*`, dropping `$`, converting and accumulating decides whether the exclusive or of the body equals the two digits |
| Checksum.OneChecksum | src/cpp/EasyNmeaCoder.hpp:124-160 | around a body of any length exactly one checksum value is accepted, its two places written in either letter case, and it is below 0x80 |
| Checksum.HexWritten | src/cpp/EasyNmeaCoder.hpp:145-149 | two digits denote a value below 256 exactly when they write its two hexadecimal places, read off the alphabets `0-9A-F` and `0-9a-f` |
| Checksum.FoldParity | src/cpp/EasyNmeaCoder.hpp:151-156 | each bit of the accumulated checksum is the parity of that bit over the characters |
| Checksum.CharacterClasses | src/cpp/EasyNmeaCoder.hpp:43-46 | the identifier, data and checksum characters, one range after the other |
| Checksum.SingleChangeDetected | src/cpp/EasyNmeaCoder.hpp:134-160 | changing any one body character of a sentence with a right checksum to another allowed one makes the checksum wrong |
| Layout.GrammarIsLayout | src/cpp/EasyNmeaCoder.hpp:48-66 | a string is in the GPGGA language if and only if it splits at commas into 14, 15 or 16 fields, each in its own sub-grammar |
| Layout.BasicIsBasic | src/cpp/EasyNmeaCoder.hpp:43-46 | the basic language is exactly `$`, an identifier character, data characters, `*` and two hexadecimal digits |
| Layout.FieldMatches | src/cpp/EasyNmeaCoder.hpp:49-61 | each of the thirteen fixed field grammars denotes the numerals, angles, bearings and units meant (minutes 00-60, degrees to 89 or 179, bare 90 and 180) |
| Layout.TailMatches | src/cpp/EasyNmeaCoder.hpp:62-66 | after the thirteenth comma: the checksum alone, an age slot, or an age slot and a station id; the age may be empty |
| Coder.GrammarsNest | src/cpp/EasyNmeaCoder.hpp:43-66 | every GPGGA sentence is a basic sentence whose identifier is `$GPGGA` |
| Coder.GatesAreAccepted | src/cpp/EasyNmeaCoder.hpp:88-117 | all gates of `decode` and the full grammar pass if and only if the string is in the GPGGA language and its digits equal the exclusive or of its body |
| Coder.CorruptionDetected | src/cpp/EasyNmeaCoder.hpp:88-160 | an accepted sentence with any single character changed is rejected, unless the change respells a checksum digit in the other letter case; if and only if |
| Coder.CaseBlind | src/cpp/EasyNmeaCoder.hpp:46-46 | for any line, writing the checksum digits in the other letter case leaves the decoding the same |
| Angles.ToDegrees | src/cpp/EasyNmeaCoder.hpp:281-298 | the splitting, gluing and erasing steps compute the angle in degrees, or throw, as `Degrees` says |
| Angles.DegreesOf | src/cpp/EasyNmeaCoder.hpp:270-298 | the documented `D..DMM.m` form is converted exactly to degrees plus sixtieths; without degree digits the conversion throws |
| Angles.AngleOrder | src/cpp/EasyNmeaCoder.hpp:281-298 | over equal-length angles with minutes 00-59, lexicographic order of the texts is the order of the degrees, and equal degrees mean equal texts |
| Numerals.StofDecimal | src/cpp/EasyNmeaCoder.hpp:212-233 | `stof` of `w.f` or `-w.f` is the exact value of that numeral, for any number of digits |
| Numerals.DescaleIsQuotient | src/cpp/EasyNmeaCoder.hpp:212-233 | the fraction digits count as their integer divided by the power of ten of their number |
| Coder.FillSample | src/cpp/EasyNmeaCoder.hpp:205-242 | the assignments by position, signs and optional slots included, give the conversion of the fields or the first throwing conversion ends the process |
| Coder.DecodeGpgga | src/cpp/EasyNmeaCoder.hpp:192-243 | grammar, split and conversion; every index used is in range |
| Coder.Decode | src/cpp/EasyNmeaCoder.hpp:88-117 | the three gates in order, then the GPGGA decoding |
| Coder.DecodingIsMeaning | src/cpp/EasyNmeaCoder.hpp:192-243 | an accepted sentence decodes to exactly the values its fields say if and only if neither angle is the bare 90 or 180 form and its integers are below 65536 |
| Coder.DecodedOutcome | src/cpp/EasyNmeaCoder.hpp:205-242 | what every accepted sentence decodes to, the bare angle forms and oversized integers included |
| Coder.DecodedIntegers | src/cpp/EasyNmeaCoder.hpp:225-239 | a decoded integer lies below 65536 and differs from the written one by a multiple of 65536 |
| Coder.TerminatesExactly | src/cpp/EasyNmeaCoder.hpp:205-242 | decoding an accepted sentence brings the process down if and only if the latitude is the bare 90 form or an integer exceeds `INT_MAX` |
| Coder.AngleRange | src/cpp/EasyNmeaCoder.hpp:51-53 | an angle of the degree-minute form lies in [0, limit + 1/60), below the limit for minutes 00-59, above it exactly for minutes 60 with a non-zero fraction on the last degree; any number of digits |
| Coder.SampleRanges | src/cpp/EasyNmeaCoder.hpp:212-225 | every decoded coordinate is within one minute of its limit, its sign tells the bearing, and exactly when it exceeds the limit |
| Coder.SealedAccepted | src/cpp/EasyNmeaCoder.hpp:48-66 | any fields of the layout, joined with the checksum computed from them, form an accepted sentence |
| Records.RecordFieldsRead | src/cpp/EasyNmeaCoder.hpp:205-239 | the written fields of a record have the layout and read back as that record |
| Coder.RoundTrip | src/cpp/EasyNmeaCoder.hpp:192-243 | writing any record by the grammar and decoding it gives exactly its values, with -1 and 0 for absent slots and signs by N/S and E/W, if and only if its integers fit `uint16_t` |
| Coder.RenderInjective | src/cpp/EasyNmeaCoder.hpp:48-66 | two different records are never written as the same sentence |
| Coder.PoleTerminates | src/cpp/EasyNmeaCoder.hpp:285-297 | there is an accepted sentence at latitude 90.0 that brings the process down |
| Coder.AntimeridianMisread | src/cpp/EasyNmeaCoder.hpp:285-297 | there is an accepted sentence that says longitude 180 east and is decoded to 1 + 80/60 degrees |
| FixedSizeQueues.FixedSizeQueue.Push | src/cpp/FixedSizeQueue.hpp:68-76 | the new content is the old one, without its oldest element if it was full, and the value at the end |
| FixedSizeQueues.FixedSizeQueue.Pop | src/cpp/EasyNmeaImpl.cpp:129-130 | exactly the oldest element leaves |
| FixedSizeQueues.FixedSizeQueue.Clear | src/cpp/FixedSizeQueue.hpp:82-88 | the queue is empty afterwards |
| FixedSizeQueues.RunAccounted | src/cpp/FixedSizeQueue.hpp:68-76 | over every run of pushes and legal pops the content is a suffix of the push history within the bound; elements leave in push order; an element is dropped exactly at the push `max_size` after its own |
| FixedSizeQueues.KeepsTheLast | src/cpp/FixedSizeQueue.hpp:58-76 | over every run of pushes the queue holds exactly the last `max_size` elements |
| SerialInterfaces.SerialInterface.Open | src/cpp/SerialInterface.hpp:68-87 | succeeds exactly on a closed port with both system calls succeeding; a failing `set_option` leaves the port open |
| SerialInterfaces.SerialInterface.Close | src/cpp/SerialInterface.hpp:102-115 | fails exactly on an open port whose closing reports an error; a closed port counts as success |
| SerialInterfaces.SerialInterface.ReadLine | src/cpp/SerialInterface.hpp:130-176 | consumes a prefix of the stream, nothing skipped or repeated, characters only except that the last event may be an error; a returned line is the next frame; it fails exactly on a closed port or an error, keeps the characters so far, and leaves the port open unless the error was other than an abort; a closed port leaves the argument alone |
| Framing.FramingIsSplitting | src/cpp/SerialInterface.hpp:130-155 | over every byte stream the completed lines are the segments before each `\n` and the partial line is what follows the last one, each with every `\r` removed |
| Framing.LinesReadBack | src/cpp/SerialInterface.hpp:118-155 | lines free of `\n`, sent with any mix of `\n` and `\r\n`, are read back exactly if and only if none of them contains a `\r` |
| ProtocolInvariants.TakeKeeps | src/cpp/EasyNmeaImpl.cpp:123-139 | every step of `take_next` keeps the lock, lifecycle, queue, mask, waiting, verdict and promise invariants |
| ProtocolInvariants.WaitKeeps | src/cpp/EasyNmeaImpl.cpp:141-180 | every step of `wait_for_data`, late and spurious wake-ups included, keeps them |
| ProtocolInvariants.OpenKeeps | src/cpp/EasyNmeaImpl.cpp:66-93 | every step of `open` keeps them, failing system calls included |
| ProtocolInvariants.CloseKeeps | src/cpp/EasyNmeaImpl.cpp:101-121 | every step of `close` keeps them, failing system calls included |
| ProtocolInvariants.ReaderKeeps | src/cpp/EasyNmeaImpl.cpp:182-221 | every step of the read thread keeps them |
| ProtocolRuns.NextDeliveries | src/cpp/EasyNmeaImpl.cpp:123-221 | every step keeps pushed + in flight = decoded from the completed lines, and delivered = the popped pushes |
| ProtocolRuns.RunSafe | src/cpp/EasyNmeaImpl.cpp:66-221 | every invariant holds over every interleaving, byte stream, time-out and system answer, any number of clients and of open/close cycles |
| Theorems.EndToEnd | src/cpp/EasyNmeaImpl.cpp:123-139 | the samples popped are, in order and at most once each, a subsequence of the GPGGA decodes of the completed lines; pushed = taken + evicted + queued; a sample is evicted exactly when it is still untaken as the tenth later one is pushed |
| Calls.HandedToCallers | src/cpp/EasyNmeaImpl.cpp:123-139 | over every run, the samples that `take_next` returns to its callers, with the one a taker is about to return, are exactly the samples popped, in order; so they too are a subsequence of the decodes, at most once each |
| Calls.InTheHand | src/cpp/EasyNmeaImpl.cpp:126-138 | in every reachable state a taker about to return a sample holds the one popped last, and one about to answer NO_DATA has found the queue empty |
| Theorems.MaskAgrees | src/cpp/EasyNmeaImpl.cpp:126-138 | with `data_mutex_` free the GPGGA bit is set if and only if the queue is non-empty, no other bit is set; the queue never exceeds ten |
| Theorems.DataWakeupNotLost | src/cpp/EasyNmeaImpl.cpp:158-195 | with `data_mutex_` free, a waiter for GPGGA is asleep on a non-empty queue only while the reader is between its unlock and its `notify_all` |
| Theorems.VerdictMeaning | src/cpp/EasyNmeaImpl.cpp:158-179 | with GPGGA in the mask: OK if and only if samples are queued, TIMEOUT if and only if the last test saw the routine running and the queue is empty, ERROR if and only if it saw it stopped and the queue is empty; an empty mask never gives OK; the remaining masks exactly |
| Calls.TestExactly | src/cpp/EasyNmeaImpl.cpp:159-163 | in every reachable state the test of the waiting predicate times out, blocks or ends the wait exactly according to the deadline, the flag, the mask and whether samples are queued |
| Calls.ExpiredEnds | src/cpp/EasyNmeaImpl.cpp:158-169 | over every run, once the deadline of a wait has passed it does not block again; until the call ends it is on its way to its verdict |
| Calls.ExpiryExpires | src/cpp/EasyNmeaImpl.cpp:158-169 | a deadline that passes, found by waking alone or on taking `data_mutex_` after a notification, puts the wait on the way to its verdict |
| Calls.TimeoutNeedsDeadline | src/cpp/EasyNmeaImpl.cpp:165-169 | over every run, a wait answers TIMEOUT only after its deadline has passed |
| Calls.WaitKeepsItsMask | src/cpp/EasyNmeaImpl.cpp:141-163 | over every run, a wait tests the mask it was called with |
| Witnesses.WaitTimesOut | src/cpp/EasyNmeaImpl.cpp:158-169 | a run from power-up in which the device is silent, the deadline passes and the wait answers TIMEOUT |
| Witnesses.SoloWaitRefused | src/cpp/EasyNmeaImpl.cpp:145-150 | a wait on a closed port ends without changing anything |
| Witnesses.SoloTakeNothing | src/cpp/EasyNmeaImpl.cpp:126-138 | a `take_next` on an empty queue ends without changing anything |
| Theorems.SingleConsumer | src/cpp/EasyNmeaImpl.cpp:123-176 | once a wait for GPGGA has returned OK to anybody, the next `take_next` to look finds a sample, whatever comes in between and whoever took before |
| Theorems.PortAndThread | src/cpp/EasyNmeaImpl.cpp:66-121 | with `mutex_` free the handle says whether there is a read thread; the port is open without a thread if and only if `set_option` failed or the port refused to close, and no unjoined read error stands; a thread without a port means an unjoined read error |
| Theorems.SpawnFindsNoReader | src/cpp/EasyNmeaImpl.cpp:77-81 | `open` starts a thread only when there is none; otherwise the process goes down and an unjoined read error stands |
| Theorems.ClosedMeansQuiet | src/cpp/EasyNmeaImpl.cpp:109-118 | from a `close` that returns OK or ERROR until the next routine is started no reader is alive and the flag is false |
| Theorems.CrashCauses | src/cpp/EasyNmeaImpl.cpp:66-121 | a null thread is joined only after `set_option` or closing failed, a joinable one overwritten only over an unjoined read error, a conversion throws only on a completed line whose decoding throws |
| Calls.OpenAnswers | src/cpp/EasyNmeaImpl.cpp:75-92 | over every schedule, `open` answers ILLEGAL_OPERATION if and only if it found the port open, ERROR if and only if it found it closed and one of its system calls failed, OK otherwise |
| Calls.CloseAnswers | src/cpp/EasyNmeaImpl.cpp:103-120 | over every schedule, `close` answers ILLEGAL_OPERATION if and only if it found the port closed, ERROR if and only if the port was still open when it came to closing it and the operating system reported an error, OK otherwise; no step in between changes the answer |
| Shutdown.ReaderStepsBounded | src/cpp/EasyNmeaImpl.cpp:111-114 | while a closer waits in the join, under every schedule the reader takes at most seven more steps, nine if the port refused to close, not counting characters the device delivers before the end of a line |
| Shutdown.SomebodyMoves | src/cpp/EasyNmeaImpl.cpp:104-114 | until then the reader, or the client that holds `data_mutex_`, has an enabled step, not needing `mutex_`, that brings the join closer (the end of a device read included) |
| Shutdown.CloseCompletes | src/cpp/EasyNmeaImpl.cpp:104-115 | from every reachable state with `close` in the join, closed port or not, those steps alone make the join return, unless the line in the reader's hands throws; the device has to do something only if the reader needs it |
| Shutdown.SilenceKeepsWaiting | src/cpp/EasyNmeaImpl.cpp:113-114 | with the reader in, or on its way into, a read of a port that is still open, every run in which the device is silent leaves the closer in the join and `mutex_` taken |
| Shutdown.JoinNeedsDevice | src/cpp/EasyNmeaImpl.cpp:109-115 | the join can end without the device if and only if the reader is not in, or on its way into, a read of an open port; needing the device means the operating system refused to close the port |
| Shutdown.NoDeadlock | src/cpp/EasyNmeaImpl.cpp:66-221 | in every reachable state, while a client is inside a call and not asleep in the wait, some thread can step by itself if and only if the system does not hang in a join on a silent device; such a hang means the operating system refused to close the port |
| Shutdown.StopWakesSleepers | src/cpp/EasyNmeaImpl.cpp:109-119 | over every schedule, a `close` that found an open port does not end while a waiter that was asleep sleeps on |
| Calls.ReaderWakesSleepers | src/cpp/EasyNmeaImpl.cpp:190-219 | over every schedule, the reader does not read again or return while a waiter sleeps on that was asleep after it had queued a sample or failed to read |
| Shutdown.NoNewSleepers | src/cpp/EasyNmeaImpl.cpp:158-163 | over every run with the flag down and no new start, nobody is about to block or asleep at the end who was not at the beginning |
| Shutdown.StopMissesExactly | src/cpp/EasyNmeaImpl.cpp:111-163 | with the flag down and nobody asleep, some run without a new start puts a client to sleep if and only if that client is between its test and its blocking |
| Shutdown.CloseNotificationMisses | src/cpp/EasyNmeaImpl.cpp:117-118 | so, after the notification of a `close` with the flag still down, a client can sleep through the stop if and only if it was between its test and its blocking when notified |
| Errors.SetbacksCounted | src/cpp/EasyNmeaImpl.cpp:66-221 | the history counts, over every run, exactly the times a `close` cleared the flag, a read ended with an error or `set_option` failed |
| Errors.RunKeepsFair | src/cpp/EasyNmeaImpl.cpp:66-221 | over every run without such a setback an open port has a running routine, except inside the `open` that starts it, and every waiter that saw the port open finds it running |
| Errors.ErrorNeedsSetback | src/cpp/EasyNmeaImpl.cpp:145-179 | over every run from power-up `wait_for_data` answers ERROR only after a `close` cleared the flag, a read ended with an error or `set_option` failed |
| Errors.ErrorExactly | src/cpp/EasyNmeaImpl.cpp:145-179 | with no call under way, some run without a further setback gives a client ERROR if and only if the port is open and the flag is down or the reader is about to clear it |
| Errors.ErrorAfterReadError | src/cpp/EasyNmeaImpl.hpp:139-140 | a run from power-up with a failing read and no `close` in which the wait answers ERROR |
| Errors.ErrorAfterOptionFailure | src/cpp/EasyNmeaImpl.hpp:139-140 | a run from power-up with a failing `set_option`, no read and no `close`, in which the wait answers ERROR |
| Errors.OverwritesExactly | src/cpp/EasyNmeaImpl.cpp:75-81 | over every schedule, an `open` that starts its thread overwrites another one if and only if the handle held an unjoined thread when it tested the port |
| Witnesses.StopWakeupLost | src/cpp/EasyNmeaImpl.cpp:111-163 | a run in which a waiter tests before the flag is stored and blocks after the notification, and sleeps on a closed port |
| Witnesses.CloseAfterOptionFailure | src/cpp/EasyNmeaImpl.cpp:109-114 | a run in which `set_option` fails and the next `close` joins a null thread |
| Witnesses.StrandedPortIsFatal | src/cpp/EasyNmeaImpl.cpp:109-114 | wherever the port is open without a thread and `mutex_` is free, a `close` joins a null thread |
| Witnesses.ReopenCrashes | src/cpp/EasyNmeaImpl.cpp:77-109 | a run from power-up: a read fails, `close` answers ILLEGAL_OPERATION and leaves the thread unjoined, the next `open` brings the process down |
| Witnesses.ReopenAfterReadError | src/cpp/EasyNmeaImpl.cpp:77-81 | from every reachable state with an unjoined thread and a closed port, as the run of `ReopenCrashes` reaches, opening the port brings the process down; such a state follows a read error |
| Witnesses.RefusedCloseHangs | src/cpp/EasyNmeaImpl.cpp:104-114 | a run from power-up to a hang: the port refuses to close, the reader waits for the device, the closer for the reader |
| EasyNmeaImpls.EasyNmeaImpl.constructor | src/cpp/EasyNmeaImpl.cpp:37-44 | nothing received, nothing queued, no thread, flag false |
| EasyNmeaImpls.EasyNmeaImpl.TakeNext | src/cpp/EasyNmeaImpl.cpp:123-139 | hands out exactly the oldest sample, or nothing; the mask stays in agreement with the queue |
| EasyNmeaImpls.EasyNmeaImpl.ProcessLine | src/cpp/EasyNmeaImpl.cpp:182-203 | true exactly for a decoded sample, which is pushed with its bit and notified; otherwise queue and mask stay |
| EasyNmeaImpls.EasyNmeaImpl.ReadRoutine | src/cpp/EasyNmeaImpl.cpp:205-221 | the queue has received, in order, exactly the samples decoded from the lines completed in the bytes consumed, one notification each; the flag is cleared exactly when the port was closed or a read ended with an error, with one more notification; the port stays as it was unless that error was other than an abort; it goes down exactly at a line whose conversion throws; otherwise everything delivered is consumed |
| EasyNmeaImpls.EasyNmeaImpl.Open | src/cpp/EasyNmeaImpl.cpp:66-93 | each return code exactly when, and the flag, handle and port it leaves |
| EasyNmeaImpls.EasyNmeaImpl.Close | src/cpp/EasyNmeaImpl.cpp:101-121 | each return code exactly when, the flag, handle and port it leaves, and one notification exactly when it found an open port and survived the join |
| EasyNmeaImpls.PushAllKeepsLast | src/cpp/EasyNmeaImpl.hpp:107-112 | after any number of received samples the queue holds the last ten |
| EasyNmeaImpls.TakeSectionIsTakeNext | src/cpp/EasyNmeaImpl.cpp:126-138 | the protocol's steps under `data_mutex_` return the sample, and change queue, mask and deliveries, as `TakeNext` does |
| EasyNmeaImpls.OpenSectionIsOpen | src/cpp/EasyNmeaImpl.cpp:75-92 | the protocol's steps of `open` under `mutex_` give the codes and leave the port, flag and thread as `Open` does |
| EasyNmeaImpls.CloseSectionIsClose | src/cpp/EasyNmeaImpl.cpp:103-120 | the protocol's steps of `close` under `mutex_`, once the read thread has returned, do the same for `Close`, then let go of `mutex_`, with the notification and its answer to come exactly if the port was found open |
| EasyNmeaImpls.PushSectionIsProcessLine | src/cpp/EasyNmeaImpl.cpp:190-194 | the reader's steps under `data_mutex_` change queue and mask as `ProcessLine` does |
| Pipeline.LineProcessedByReader | src/cpp/EasyNmeaImpl.cpp:182-221 | one undisturbed turn of the routine on any line: a sample is queued and every waiter woken, any other line changes nothing but what was consumed, a throwing conversion ends the process |
| Pipeline.FailedReadEndsRoutine | src/cpp/EasyNmeaImpl.cpp:208-221 | one undisturbed turn whose read fails, after any part of a line: that part is dropped, the port is closed unless the read was aborted, the flag is cleared, every waiter woken, and the thread returns |
| Witnesses.ClosedPortEndsRoutine | src/cpp/EasyNmeaImpl.cpp:208-221 | a routine that finds its port closed clears the flag, wakes every waiter and returns |
| Pipeline.RecordReachesClient | src/cpp/EasyNmeaImpl.cpp:66-221 | for every record whose integers fit there is a run, from power-up through opening, the sentence on the wire, framing, checksum, grammar, conversion and queue, after which what `take_next` has returned is exactly its values |
| Pipeline.OkWithoutGpgga | src/cpp/EasyNmeaImpl.cpp:171-176 | for every record whose integers fit, a run from power-up in which a wait for another kind than GPGGA answers OK with only that GPGGA sample queued and no `close` |

## Left out

- IEEE rounding and the range errors of `stof`: numbers are exact reals, so no property speaks of the last bits of a `float` or of numerals too large for one.
- The destructor: it clears the queue without the bit, and no property covers the time after it starts.
- Asio internals, `read_char` and the baud rate: the port is an open flag and a stream of characters and errors, and a read on a closed port fails.
- A failing `serial_->open` is taken to leave the port closed.
- Backtracking of `std::regex`: only the language of full matches matters here.
- `EasyNmea` forwarding, `Bitmask`, `ReturnCode` and comparison operators: one-line facts; the mask is a set of bits.
- `internal_error_` and console output: written, never read.
- `is_open` as a call of its own: it appears inside `wait_for_data`, where its answer is used.
- Protocol.OpenNext: starting the thread and storing its handle is one step, so the instants in which a second thread runs before overwriting an unjoined handle ends the process are not modelled; after a process has gone down no step is modelled.
- Protocol.CloseNext: the test of the port and the system call inside `SerialInterface::close` are one step.
- EasyNmeaImpls.EasyNmeaImpl.Close: the locks, and who is woken by the notification, exist only in the protocol; the class counts the notifications.
- EasyNmeaImpls.EasyNmeaImpl.ReadRoutine: runs alone on what has been delivered so far; interleaving with clients, and `wait_for_data`, exist only in the protocol.
- Shutdown.ReaderStepsBounded: bounds the reader's own steps; that a waiting thread eventually gets a free mutex is left to the operating system's fairness.
- Stop notification as a liveness property: the code does not guarantee it.
- Coder.TerminatesExactly: does not count range errors of `stof` on numerals too large or too small for a `float`, which end the process too, because numbers are exact reals; the same holds for Coder.DecodingIsMeaning and Coder.RoundTrip.
- Angles.AngleOrder: equal lengths only; across different numbers of fraction digits text order is not degree order there.
