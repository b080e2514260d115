/** The whole way of a sentence: sent over the wire, framed, decoded, queued and taken. */
module Pipeline {
  import opened Calls
  import opened Checksum
  import opened Coder
  import opened FixedSizeQueues
  import opened Framing
  import opened Protocol
  import opened ProtocolRuns
  import opened Regex
  import opened Records
  import opened SerialInterfaces
  import opened Witnesses
  import opened Wrappers

  /** The device delivers `text`, free of line endings, to a reader that is alone. */
  lemma {:induction false} SoloRead(s: State, line: string, text: string) returns (run: seq<Action>, s': State)
    requires s.crash == None && s.portOpen && s.reader == Reading(line) && '\n' !in text && '\r' !in text
    ensures Possible(s, run) && s' == After(s, run)
    ensures s' == s.(reader := Reading(line + text), past := s.past.(log := s.past.log + Bytes(text)))
    decreases |text|
  {
    hide After, Possible;
    if text == "" {
      run, s' := Stay(s);
      assert line + text == line && s.past.log + Bytes(text) == s.past.log;
    } else {
      var n := |text| - 1;
      run, s' := SoloRead(s, line, text[..n]);
      run, s' := Then(s, run, s', ReaderStep(Byte(text[n]), Closed));
      assert line + text[..n] + [text[n]] == line + text;
      assert s.past.log + Bytes(text[..n]) + [Byte(text[n])] == s.past.log + Bytes(text);
    }
  }

  /** A reader between lines that nobody disturbs. */
  predicate Ready(s: State) {
    s.crash == None && s.portOpen && s.running && s.reader == AtLoop && s.dataMutex == None
  }

  /** One turn of the read routine on a line: a decoded sample is queued and its waiters are woken, any
      other line leaves everything but the log as it was, and a throwing conversion ends the process. */
  lemma LineProcessedByReader(s: State, line: string) returns (run: seq<Action>, s': State)
    requires Ready(s) && '\n' !in line && '\r' !in line
    ensures Possible(s, run) && s' == After(s, run)
    ensures s'.past.log == s.past.log + Bytes(line + "\n")
    ensures match Decoding(line)
            case Gpgga(sample) =>
              s' == s.(queue := Step(s.queue, CAPACITY, Push(sample)), received := s.received + {GPGGA_BIT},
                       clients := NotifyAll(s.clients), past := s'.past)
              && s'.past == s.past.(log := s'.past.log)
            case Invalid => s' == s.(past := s.past.(log := s'.past.log))
            case Terminates => s'.crash == Some(ConversionThrew)
  {
    hide After, Possible, Decoding, OpenNext, CloseNext, TakeNext, WaitNext, NotifyAll, Step;
    run, s' := SoloLine(s, line);
    var step := ReaderStep(Aborted, Closed);
    var rest;
    match Decoding(line)
    case Gpgga(sample) =>
      run, s' := Then(s, run, s', step);
      rest, s' := SoloPush(s', sample);
      Concat(s, run, rest);
      run := run + rest;
    case Invalid =>
      run, s' := Then(s, run, s', step);
    case Terminates =>
      run, s' := Then(s, run, s', step);
  }

  lemma SoloLine(s: State, line: string) returns (run: seq<Action>, s': State)
    requires Ready(s) && '\n' !in line && '\r' !in line
    ensures Possible(s, run) && s' == After(s, run)
    ensures s' == s.(reader := AtDecode(line), past := s.past.(log := s.past.log + Bytes(line + "\n")))
  {
    hide After, Possible, OpenNext, CloseNext, TakeNext, WaitNext, NotifyAll, Step, Decoding;
    var step := ReaderStep(Aborted, Closed);
    run, s' := Solo(s, step);
    run, s' := Then(s, run, s', step);
    var rest;
    rest, s' := SoloRead(s', "", line);
    Concat(s, run, rest);
    run, s' := Then(s, run + rest, s', ReaderStep(Byte('\n'), Closed));
    assert "" + line == line;
    assert s.past.log + Bytes(line) + [Byte('\n')] == s.past.log + Bytes(line + "\n");
  }

  /** One turn of the read routine that fails: whatever part of a line was read is dropped, and the routine
      ends as `SoloFailure` says. */
  lemma FailedReadEndsRoutine(s: State, text: string, event: PortEvent, result: CloseResult)
    returns (run: seq<Action>, s': State)
    requires Ready(s) && '\n' !in text && '\r' !in text && !event.Byte?
    ensures Possible(s, run) && s' == After(s, run)
    ensures s' == s.(portOpen := event == Aborted || result == ErrorStillOpen, running := false, reader := Returned,
                     clients := NotifyAll(s.clients), past := s'.past)
    ensures s'.past.log == s.past.log + Bytes(text) + [event]
    ensures s'.past == FailedPast(s.past.(log := s.past.log + Bytes(text)), event, true)
  {
    hide After, Possible, Next, Enabled, NotifyAll, Bytes;
    run, s' := SoloStartReading(s);
    var rest;
    rest, s' := SoloRead(s', "", text);
    Concat(s, run, rest);
    run := run + rest;
    rest, s' := SoloFailure(s', "" + text, event, result);
    Concat(s, run, rest);
    run := run + rest;
  }

  lemma SoloPush(s: State, sample: GpggaData) returns (run: seq<Action>, s': State)
    requires s.crash == None && s.dataMutex == None && s.reader == WantsData(sample)
    ensures Possible(s, run) && s' == After(s, run)
    ensures s' == s.(queue := Step(s.queue, CAPACITY, Push(sample)), received := s.received + {GPGGA_BIT},
                     clients := NotifyAll(s.clients), reader := AtLoop)
  {
    hide After, Possible, Decoding, OpenNext, CloseNext, TakeNext, WaitNext, NotifyAll, Step;
    var step := ReaderStep(Aborted, Closed);
    run, s' := Solo(s, step);
    run, s' := Then(s, run, s', step);
    run, s' := Then(s, run, s', step);
    run, s' := Then(s, run, s', step);
    run, s' := Then(s, run, s', step);
  }

  lemma NoLineEndings(s: string)
    requires IsBasic(s)
    ensures '\n' !in s && '\r' !in s
  {
    forall k | 0 <= k < |s| ensures s[k] != '\n' && s[k] != '\r' {
      if 1 <= k < |s| - 3 {
        assert s[k] == Body(s)[k - 1];
      } else if k > |s| - 3 {
        assert s[k] == Digits(s)[k - (|s| - 2)];
      }
    }
  }

  /** A sentence sent while the queue is empty is what the next taker gets. */
  lemma SentenceDelivered(s: State, line: string, sample: GpggaData, i: nat) returns (run: seq<Action>, s': State)
    requires Ready(s) && s.queue.content == [] && i < |s.clients| && s.clients[i] == Idle
    requires '\n' !in line && '\r' !in line && Decoding(line) == Gpgga(sample)
    ensures Possible(s, run) && s' == After(s, run)
    ensures s'.past.log == s.past.log + Bytes(line + "\n")
    ensures s'.past.delivered == s.past.delivered + [sample]
    ensures s'.queue.content == [] && s'.clients == NotifyAll(s.clients)
  {
    hide After, Possible, Decoding, Next, Enabled, Bytes;
    var reading, s1 := LineProcessedByReader(s, line);
    var taking;
    taking, s' := SoloTake(s1, i);
    Concat(s, reading, taking);
    run := reading + taking;
  }

  /** From power-up to the client, through every part: open the port, let the device send the sentence
      of any record whose integers fit, and take. What `take_next` returns is exactly that record's values. */
  lemma RecordReachesClient(r: Record) returns (run: seq<Action>)
    requires r.Valid()
    requires r.satellites < 0x1_0000 && (r.dgps.AgeAndStation? ==> r.dgps.station < 0x1_0000)
    ensures Possible(Initial(1), run)
    ensures var s := After(Initial(1), run);
            && s.past.log == Bytes(Render(r) + "\n")
            && HandedOut(Initial(1), run) == [r.Data()]
            && s.queue.content == [] && s.clients == [Idle]
  {
    hide Possible, After, Next, Enabled, Render, Record.Data, Record.Valid, Decoding, Bytes, NotifyAll;
    var opening, s1 := SoloOpen(Initial(1), 0, false);
    NotifyNobody(s1.clients);
    assert Opened(s1);
    hide *;
    SentenceOf(r);
    var reading, s2 := SentenceAfterOpening(s1, Render(r), r.Data());
    Concat(Initial(1), opening, reading);
    run := opening + reading;
    HandsFromPowerUp(1, run);
    NothingInHand(s2);
  }

  lemma NothingInHand(s: State)
    requires s.clients == [Idle]
    ensures InHand(s) == []
  {
  }

  /** One client has opened the port and nothing was received yet. */
  predicate Opened(s: State) {
    Ready(s) && s.queue.content == [] && s.clients == [Idle] == NotifyAll(s.clients)
    && s.past.log == [] && s.past.delivered == []
  }

  lemma SentenceAfterOpening(s: State, line: string, sample: GpggaData) returns (run: seq<Action>, s': State)
    requires Opened(s) && '\n' !in line && '\r' !in line && Decoding(line) == Gpgga(sample)
    ensures Possible(s, run) && s' == After(s, run)
    ensures s'.past.log == Bytes(line + "\n") && s'.past.delivered == [sample]
    ensures s'.queue.content == [] && s'.clients == [Idle]
  {
    hide Possible, After, Next, Enabled, Decoding, Bytes, NotifyAll;
    run, s' := SentenceDelivered(s, line, sample, 0);
  }

  lemma SentenceOf(r: Record)
    requires r.Valid()
    requires r.satellites < 0x1_0000 && (r.dgps.AgeAndStation? ==> r.dgps.station < 0x1_0000)
    ensures '\n' !in Render(r) && '\r' !in Render(r) && Decoding(Render(r)) == Gpgga(r.Data())
  {
    hide Render, Decoding, Matches, Record.Valid, Record.Data;
    RenderFields(r);
    NoLineEndings(Render(r));
    RoundTrip(r);
  }

  /** A mask that names other kinds but not GPGGA: once the routine has stopped with a sample queued,
      `wait_for_data` answers OK to it. */
  lemma OkWithoutGpgga(r: Record) returns (run: seq<Action>)
    requires r.Valid()
    requires r.satellites < 0x1_0000 && (r.dgps.AgeAndStation? ==> r.dgps.station < 0x1_0000)
    ensures Possible(Initial(1), run)
    ensures var s := After(Initial(1), run);
            s.clients == [InWait(WaitDone({1}, OK, false))] && s.queue.content == [r.Data()] && !s.past.closed
  {
    hide Possible, After, Next, Enabled, Render, Record.Data, Record.Valid, Decoding, Bytes, NotifyAll;
    var opening, s1 := SoloOpen(Initial(1), 0, false);
    NotifyNobody(s1.clients);
    assert Opened(s1);
    SentenceOf(r);
    var reading, s2 := SentenceQueued(s1, Render(r), r.Data());
    Concat(Initial(1), opening, reading);
    hide Opened;
    var waiting, s3 := StoppedWait(s2, {1});
    Concat(Initial(1), opening + reading, waiting);
    run := opening + reading + waiting;
  }

  lemma SentenceQueued(s: State, line: string, sample: GpggaData) returns (run: seq<Action>, s': State)
    requires Opened(s) && s.mutex == None && '\n' !in line && '\r' !in line && Decoding(line) == Gpgga(sample)
    ensures Possible(s, run) && s' == After(s, run)
    ensures Ready(s') && s'.mutex == None && s'.clients == [Idle] && s'.queue.content == [sample]
    ensures GPGGA_BIT in s'.received && s'.past.closed == s.past.closed
  {
    hide Possible, After, Next, Enabled, Decoding, Bytes, NotifyAll;
    run, s' := LineProcessedByReader(s, line);
  }
}
