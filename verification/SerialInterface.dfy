/** The serial port seen by one thread: open, close, and reading a line character by character. */
module SerialInterfaces {
  import opened Framing

  /** `StillReading`: everything delivered so far is consumed and the call has not returned. */
  datatype ReadOutcome = LineRead | ReadFailed | StillReading

  /** How the operating system closes the port: cleanly, or with an error that may leave it open. */
  datatype CloseResult = Closed | ErrorButClosed | ErrorStillOpen

  /** From `log` to `log'` only characters were consumed, except that the last event may be an error. */
  ghost predicate OnlyLastFails(log: seq<PortEvent>, log': seq<PortEvent>) {
    log <= log' && forall k | |log| <= k < |log'| - 1 :: log'[k].Byte?
  }

  predicate EndsInError(log: seq<PortEvent>, log': seq<PortEvent>) {
    |log'| > |log| && !log'[|log'| - 1].Byte?
  }

  /** Reading closes an open port only when it ends with an error other than an abort, and then as far
      as the operating system closes it. */
  predicate OpenAfter(isOpen: bool, log: seq<PortEvent>, log': seq<PortEvent>, onError: CloseResult) {
    isOpen && (EndsInError(log, log') && log'[|log'| - 1] == Failed ==> onError == ErrorStillOpen)
  }

  class SerialInterface {
    var isOpen: bool
    /** What the device is going to deliver. */
    var incoming: seq<PortEvent>
    /** What reading has consumed. */
    ghost var log: seq<PortEvent>

    constructor (incoming: seq<PortEvent>)
      ensures !isOpen && this.incoming == incoming && log == []
    {
      isOpen := false;
      this.incoming := incoming;
      log := [];
    }

    /** No line is half read. */
    ghost predicate BetweenLines()
      reads this
    {
      Framed(log).partial == ""
    }

    /** A failing `set_option` reports an error but leaves the port open. */
    method Open(portFails: bool, optionFails: bool) returns (ok: bool)
      modifies this`isOpen
      ensures ok <==> !old(isOpen) && !portFails && !optionFails
      ensures isOpen <==> old(isOpen) || !portFails
    {
      if !isOpen {
        if !portFails {
          isOpen := true;
          if !optionFails {
            return true;
          }
        }
      }
      return false;
    }

    method Close(result: CloseResult) returns (ok: bool)
      modifies this`isOpen
      ensures ok <==> !old(isOpen) || result == Closed
      ensures isOpen <==> old(isOpen) && result == ErrorStillOpen
    {
      if isOpen {
        isOpen := result == ErrorStillOpen;
        if result != Closed {
          return false;
        }
      }
      return true;
    }

    /** Blocks until a line is complete or a read fails. Exactly the consumed events move from
        `incoming` to `log`. A completed line is the next frame; an error other than an abort closes
        the port. */
    method ReadLine(previous: string, onError: CloseResult) returns (outcome: ReadOutcome, result: string)
      requires BetweenLines()
      modifies this
      ensures OnlyLastFails(old(log), log) && log + incoming == old(log + incoming)
      ensures isOpen == OpenAfter(old(isOpen), old(log), log, onError)
      ensures outcome == ReadFailed <==> !old(isOpen) || EndsInError(old(log), log)
      ensures !old(isOpen) ==> outcome == ReadFailed && result == previous && log == old(log) && !isOpen
      ensures outcome == LineRead ==>
                BetweenLines() && isOpen && Framed(log).lines == old(Framed(log).lines) + [result]
      ensures outcome != LineRead ==> Framed(log).lines == old(Framed(log).lines)
      ensures outcome == ReadFailed ==> BetweenLines()
      ensures outcome == ReadFailed && old(isOpen) ==>
                |log| > |old(log)| && result == Framed(log[..|log| - 1]).partial
      ensures outcome == StillReading ==> isOpen && incoming == [] && result == Framed(log).partial
    {
      if !isOpen {
        return ReadFailed, previous;
      }
      result := "";
      while incoming != []
        invariant isOpen && old(isOpen) && OnlyLastFails(old(log), log) && !EndsInError(old(log), log)
        invariant log + incoming == old(log + incoming)
        invariant result == Framed(log).partial
        invariant Framed(log).lines == old(Framed(log).lines)
        decreases |incoming|
      {
        var event := incoming[0];
        FramedSnoc(log, event);
        assert log + incoming == (log + [event]) + incoming[1..];
        ghost var before := log;
        incoming, log := incoming[1..], log + [event];
        assert log[..|log| - 1] == before;
        match event {
          case Byte(c) =>
            if c == '\n' {
              return LineRead, result;
            } else if c != '\r' {
              result := result + [c];
            }
          case Aborted =>
            return ReadFailed, result;
          case Failed =>
            var _ := Close(onError);
            return ReadFailed, result;
        }
      }
      return StillReading, result;
    }
  }
}
