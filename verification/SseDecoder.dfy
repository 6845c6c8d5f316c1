/** The decoder as an object that consumes its buffer line by line. */
module SseDecoder {
  import opened Common
  import opened SseFrames

  /** The consumer: it remembers what it was offered and may fail on it. */
  class FrameSink {
    const accepts: seq<Frame> -> bool
    var offered: seq<Frame>

    constructor (accepts: seq<Frame> -> bool)
      ensures this.accepts == accepts && offered == []
    {
      this.accepts := accepts;
      offered := [];
    }

    method Emit(payload: Bytes, event: Bytes) returns (ok: bool)
      modifies this
      ensures offered == old(offered) + [Frame(payload, event)] && ok == accepts(offered)
    {
      offered := offered + [Frame(payload, event)];
      ok := accepts(offered);
    }
  }

  class Decoder {
    var buffer: Bytes
    var data: seq<Bytes>
    var size: nat
    var event: Bytes
    const max: nat

    constructor (max: nat)
      ensures this.max == max && forall sink: FrameSink :: Value(sink) == State([], [], 0, [], sink.offered)
    {
      this.max := max;
      buffer, data, size, event := [], [], 0, [];
    }

    function Value(sink: FrameSink): State
      reads this, sink
    {
      State(buffer, data, size, event, sink.offered)
    }

    function Using(sink: FrameSink): Setup { Setup(max, sink.accepts) }

    /** One line without its line end. */
    method TakeLine(line: Bytes, sink: FrameSink) returns (failure: Option<Failure>)
      modifies this, sink
      ensures Outcome(Value(sink), failure) == Line(Using(sink), old(Value(sink)), line)
    {
      if line == [] {
        if data != [] {
          var ok := sink.Emit(Join(data), event);
          if !ok { return Some(Refused); }
        }
        data, size, event := [], 0, [];
        return None;
      }
      if Starts(line, DATA) {
        var v := Without(Without(line, DATA), [SP]);
        data, size := data + [v], size + |v|;
        if size > max { return Some(TooLong); }
      }
      if Starts(line, EVENT) {
        FirstByte(line, EVENT);
        FirstByte(line, DATA);
        event := TrimSpace(Without(line, EVENT));
      }
      return None;
    }

    method Feed(b: Bytes, sink: FrameSink) returns (failure: Option<Failure>)
      modifies this, sink
      ensures Outcome(Value(sink), failure) == SseFrames.Feed(Using(sink), old(Value(sink)), b)
    {
      hide Line, StripCR;
      buffer := buffer + b;
      if |buffer| > max { return Some(TooLong); }
      ghost var start := Value(sink);
      while true
        invariant Drain(Using(sink), Value(sink)) == Drain(Using(sink), start)
        decreases |buffer|
      {
        ghost var was := Value(sink);
        var i := LineEnd(buffer);
        if i == |buffer| { return None; }
        var line := StripCR(buffer[..i]);
        buffer := buffer[i + 1..];
        LineKeepsBuffer(Using(sink), Value(sink), buffer, line);
        failure := TakeLine(line, sink);
        if failure.Some? { return; }
      }
    }

    method End() returns (failure: Option<Failure>)
      ensures forall sink: FrameSink :: failure == SseFrames.End(Value(sink))
    {
      return if TrimSpace(buffer) != [] || data != [] then Some(Incomplete) else None;
    }
  }

  lemma FirstByte(s: Bytes, prefix: Bytes)
    ensures Starts(s, prefix) && prefix != [] ==> s != [] && s[0] == prefix[0]
  {
    if Starts(s, prefix) && prefix != [] {
      assert s[..|prefix|][0] == s[0];
    }
  }
}
