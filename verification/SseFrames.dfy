/**
 Incremental decoding of server-sent events as values: lines end in LF or CRLF, `data:` lines
 add up to a payload, `event:` names it, and a blank line emits it. Other fields are ignored.
 */
module SseFrames {
  import opened Common

  newtype Byte = x: int | 0 <= x < 256

  type Bytes = seq<Byte>

  const LF: Byte := 10
  const CR: Byte := 13
  const SP: Byte := 32
  const DATA: Bytes := [100, 97, 116, 97, 58]
  const EVENT: Bytes := [101, 118, 101, 110, 116, 58]

  datatype Frame = Frame(payload: Bytes, event: Bytes)

  datatype Failure = TooLong | Refused | Incomplete

  /** A decoder, with everything it has offered to its consumer so far. */
  datatype State = State(buffer: Bytes, data: seq<Bytes>, size: nat, event: Bytes, emitted: seq<Frame>)

  /** What a call leaves behind, and whether it failed. */
  datatype Outcome = Outcome(st: State, failure: Option<Failure>) {
    predicate Ok() { failure.None? }
  }

  /** The payload limit, and which sequences of frames the consumer takes without an error. */
  datatype Setup = Setup(max: nat, accepts: seq<Frame> -> bool)

  // ---------------------------------------------------------------- bytes

  predicate Starts(s: Bytes, prefix: Bytes) { |prefix| <= |s| && s[..|prefix|] == prefix }

  function Without(s: Bytes, prefix: Bytes): Bytes { if Starts(s, prefix) then s[|prefix|..] else s }

  function StripCR(s: Bytes): Bytes { if s != [] && s[|s| - 1] == CR then s[..|s| - 1] else s }

  /** The white space of Unicode, in UTF-8. */
  predicate IsSpace(s: Bytes) {
    || (|s| == 1 && (9 <= s[0] <= 13 || s[0] == SP))
    || s == [0xC2, 0x85] || s == [0xC2, 0xA0] || s == [0xE1, 0x9A, 0x80] || s == [0xE3, 0x80, 0x80]
    || (|s| == 3 && s[0] == 0xE2
        && ((s[1] == 0x80 && (0x80 <= s[2] <= 0x8A || s[2] in {0xA8, 0xA9, 0xAF})) || (s[1] == 0x81 && s[2] == 0x9F)))
  }

  predicate SpaceFirst(s: Bytes, n: nat) { n <= |s| && IsSpace(s[..n]) }

  predicate SpaceLast(s: Bytes, n: nat) { n <= |s| && IsSpace(s[|s| - n..]) }

  function TrimLeft(s: Bytes): (r: Bytes)
    ensures |r| <= |s|
  {
    if SpaceFirst(s, 1) then TrimLeft(s[1..])
    else if SpaceFirst(s, 2) then TrimLeft(s[2..])
    else if SpaceFirst(s, 3) then TrimLeft(s[3..])
    else s
  }

  function TrimRight(s: Bytes): (r: Bytes)
    ensures |r| <= |s| && r == s[..|r|]
  {
    if SpaceLast(s, 1) then TrimRight(s[..|s| - 1])
    else if SpaceLast(s, 2) then TrimRight(s[..|s| - 2])
    else if SpaceLast(s, 3) then TrimRight(s[..|s| - 3])
    else s
  }

  function TrimSpace(s: Bytes): Bytes { TrimRight(TrimLeft(s)) }

  function Join(lines: seq<Bytes>): Bytes {
    if lines == [] then [] else if |lines| == 1 then lines[0] else lines[0] + [LF] + Join(lines[1..])
  }

  function Split(s: Bytes): (lines: seq<Bytes>)
    ensures lines != []
    decreases |s|
  {
    var i := LineEnd(s);
    if i == |s| then [s] else [s[..i]] + Split(s[i + 1..])
  }

  /** The position of the first LF, or the length. */
  function LineEnd(s: Bytes): (i: nat)
    ensures i <= |s| && (i < |s| ==> s[i] == LF) && forall j :: 0 <= j < i ==> s[j] != LF
  {
    if s == [] || s[0] == LF then 0 else 1 + LineEnd(s[1..])
  }

  // ---------------------------------------------------------------- decoding

  /** One complete line without its line end. */
  function Line(u: Setup, st: State, line: Bytes): Outcome {
    if line == [] then
      if st.data == [] then Outcome(st.(data := [], size := 0, event := []), None)
      else
        var offered := st.emitted + [Frame(Join(st.data), st.event)];
        if !u.accepts(offered) then Outcome(st.(emitted := offered), Some(Refused))
        else Outcome(st.(data := [], size := 0, event := [], emitted := offered), None)
    else if Starts(line, DATA) then
      var v := Without(Without(line, DATA), [SP]);
      var next := st.(data := st.data + [v], size := st.size + |v|);
      Outcome(next, if next.size > u.max then Some(TooLong) else None)
    else if Starts(line, EVENT) then Outcome(st.(event := TrimSpace(Without(line, EVENT))), None)
    else Outcome(st, None)
  }

  /** Takes complete lines off the buffer until none is left or one fails. */
  function Drain(u: Setup, st: State): (o: Outcome)
    decreases |st.buffer|
  {
    var i := LineEnd(st.buffer);
    if i == |st.buffer| then Outcome(st, None)
    else
      var o := Line(u, st.(buffer := st.buffer[i + 1..]), StripCR(st.buffer[..i]));
      if o.Ok() then Drain(u, o.st) else o
  }

  function Feed(u: Setup, st: State, b: Bytes): Outcome {
    var more := st.(buffer := st.buffer + b);
    if |more.buffer| > u.max then Outcome(more, Some(TooLong)) else Drain(u, more)
  }

  /** Chunk after chunk, until one fails. */
  function FeedAll(u: Setup, st: State, chunks: seq<Bytes>): Outcome
    decreases |chunks|
  {
    if chunks == [] then Outcome(st, None)
    else
      var o := Feed(u, st, chunks[0]);
      if o.Ok() then FeedAll(u, o.st, chunks[1..]) else o
  }

  function End(st: State): Option<Failure> {
    if TrimSpace(st.buffer) != [] || st.data != [] then Some(Incomplete) else None
  }

  function Concat(chunks: seq<Bytes>): Bytes { if chunks == [] then [] else chunks[0] + Concat(chunks[1..]) }

  // ---------------------------------------------------------------- chunk independence

  lemma LineKeepsBuffer(u: Setup, st: State, more: Bytes, line: Bytes)
    ensures Line(u, st, line).st.buffer == st.buffer
    ensures Line(u, st.(buffer := more), line) == Line(u, st, line).(st := Line(u, st, line).st.(buffer := more))
  {}

  lemma {:induction false} LineEndOfMore(s: Bytes, b: Bytes)
    ensures LineEnd(s) < |s| ==> LineEnd(s + b) == LineEnd(s)
    ensures LineEnd(s) == |s| ==> LineEnd(s + b) == |s| + LineEnd(b)
  {
    if s == [] {
      assert s + b == b;
    } else if s[0] != LF {
      assert (s + b)[1..] == s[1..] + b;
      LineEndOfMore(s[1..], b);
    }
  }

  /** Bytes that arrive later do not change what the bytes before them decode to. */
  lemma {:induction false} DrainInTwo(u: Setup, st: State, b: Bytes)
    ensures var first, all := Drain(u, st), Drain(u, st.(buffer := st.buffer + b));
            if first.Ok() then all == Drain(u, first.st.(buffer := first.st.buffer + b))
            else all == first.(st := first.st.(buffer := first.st.buffer + b))
    decreases |st.buffer|
  {
    hide LineEnd, Line, StripCR;
    var i := LineEnd(st.buffer);
    LineEndOfMore(st.buffer, b);
    if i < |st.buffer| {
      var rest, line := st.buffer[i + 1..], StripCR(st.buffer[..i]);
      assert (st.buffer + b)[i + 1..] == rest + b && (st.buffer + b)[..i] == st.buffer[..i];
      LineKeepsBuffer(u, st, rest, line);
      LineKeepsBuffer(u, st, rest + b, line);
      var o := Line(u, st.(buffer := rest), line);
      if o.Ok() { DrainInTwo(u, o.st, b); }
    }
  }

  /** One chunk or two: as long as everything fits the buffer at once, the same frames are
      emitted, the same failure is met and, on success, the same state is reached. */
  lemma FeedInTwo(u: Setup, st: State, a: Bytes, b: Bytes)
    requires |st.buffer + a + b| <= u.max
    ensures var whole, first := Feed(u, st, a + b), Feed(u, st, a);
            var second := Feed(u, first.st, b);
            && (whole.Ok() <==> first.Ok() && second.Ok())
            && (if first.Ok() then whole == second
                else whole.failure == first.failure && whole.st == first.st.(buffer := first.st.buffer + b))
  {
    assert st.buffer + (a + b) == st.buffer + a + b;
    DrainInTwo(u, st.(buffer := st.buffer + a), b);
    DrainShortens(u, st.(buffer := st.buffer + a));
  }

  lemma {:induction false} DrainShortens(u: Setup, st: State)
    ensures |Drain(u, st).st.buffer| <= |st.buffer|
    ensures Drain(u, st).Ok() ==> LineEnd(Drain(u, st).st.buffer) == |Drain(u, st).st.buffer|
    decreases |st.buffer|
  {
    hide Line, StripCR, LineEnd;
    var i := LineEnd(st.buffer);
    if i < |st.buffer| {
      var rest, line := st.(buffer := st.buffer[i + 1..]), StripCR(st.buffer[..i]);
      LineKeepsBuffer(u, rest, rest.buffer, line);
      if Line(u, rest, line).Ok() { DrainShortens(u, Line(u, rest, line).st); }
    }
  }

  /** Settled: no complete line is waiting, as after every call that succeeds. */
  predicate Settled(st: State) { LineEnd(st.buffer) == |st.buffer| }

  lemma FeedSettles(u: Setup, st: State, b: Bytes)
    requires Feed(u, st, b).Ok()
    ensures Settled(Feed(u, st, b).st)
  {
    DrainShortens(u, st.(buffer := st.buffer + b));
  }

  /** Every way of cutting a stream into chunks that succeeds decodes it to the same frames and state. */
  lemma {:induction false} ChunkingIsIrrelevant(u: Setup, st: State, chunks: seq<Bytes>)
    requires Settled(st) && FeedAll(u, st, chunks).Ok()
    ensures FeedAll(u, st, chunks) == Drain(u, st.(buffer := st.buffer + Concat(chunks)))
    decreases |chunks|
  {
    hide Line, LineEnd, StripCR;
    if chunks == [] {
      assert st.buffer + [] == st.buffer;
    } else {
      var next := Feed(u, st, chunks[0]).st;
      FeedSettles(u, st, chunks[0]);
      ChunkingIsIrrelevant(u, next, chunks[1..]);
      DrainInTwo(u, st.(buffer := st.buffer + chunks[0]), Concat(chunks[1..]));
      assert st.buffer + chunks[0] + Concat(chunks[1..]) == st.buffer + Concat(chunks);
    }
  }

  /** If a stream decodes in one piece, it decodes in any pieces, to the same frames and state. */
  lemma {:induction false} AnyChunkingSucceeds(u: Setup, st: State, chunks: seq<Bytes>)
    requires chunks != [] && Feed(u, st, Concat(chunks)).Ok()
    ensures FeedAll(u, st, chunks) == Feed(u, st, Concat(chunks))
    decreases |chunks|
  {
    var rest := chunks[1..];
    assert Concat(chunks) == chunks[0] + Concat(rest);
    assert st.buffer + (chunks[0] + Concat(rest)) == st.buffer + chunks[0] + Concat(rest);
    FeedInTwo(u, st, chunks[0], Concat(rest));
    if rest == [] {
      var o := Feed(u, st, chunks[0]);
      FeedSettles(u, st, chunks[0]);
      assert o.st.(buffer := o.st.buffer + []) == o.st;
    } else {
      AnyChunkingSucceeds(u, Feed(u, st, chunks[0]).st, rest);
    }
  }

  // ---------------------------------------------------------------- encoding

  /** The lines of a payload as data lines. */
  function DataLines(lines: seq<Bytes>): Bytes {
    if lines == [] then [] else DATA + [SP] + lines[0] + [LF] + DataLines(lines[1..])
  }

  function Encode(payload: Bytes): Bytes { DataLines(Split(payload)) + [LF] }

  function EncodeAll(payloads: seq<Bytes>): Bytes {
    if payloads == [] then [] else Encode(payloads[0]) + EncodeAll(payloads[1..])
  }

  predicate Unbroken(line: Bytes) { LineEnd(line) == |line| }

  lemma SplitStep(s: Bytes)
    ensures var i := LineEnd(s);
            if i == |s| then Split(s) == [s] && Unbroken(s)
            else Split(s) == [s[..i]] + Split(s[i + 1..]) && Unbroken(s[..i])
  {
    var i := LineEnd(s);
    if i < |s| { LineEndAt(s[..i]); }
  }

  lemma {:induction false} SplitJoins(s: Bytes)
    ensures Join(Split(s)) == s && forall i :: 0 <= i < |Split(s)| ==> Unbroken(Split(s)[i])
    decreases |s|
  {
    SplitStep(s);
    JoinOne(s);
    hide *;
    var i, lines := LineEnd(s), Split(s);
    if i < |s| {
      var rest := Split(s[i + 1..]);
      SplitJoins(s[i + 1..]);
      assert s == s[..i] + [LF] + s[i + 1..];
      JoinMoreLines(s[..i], rest);
      forall k | 0 <= k < |lines| ensures Unbroken(lines[k]) {
        if k > 0 { assert lines[k] == rest[k - 1]; }
      }
    }
  }

  lemma JoinOne(line: Bytes)
    ensures Join([line]) == line
  {}

  lemma JoinMoreLines(line: Bytes, rest: seq<Bytes>)
    requires rest != []
    ensures Join([line] + rest) == line + [LF] + Join(rest)
  {
    assert ([line] + rest)[1..] == rest;
  }

  lemma {:induction false} LineEndAt(s: Bytes)
    requires forall j :: 0 <= j < |s| ==> s[j] != LF
    ensures LineEnd(s) == |s|
  {}

  function Stripped(lines: seq<Bytes>): (r: seq<Bytes>)
    ensures |r| == |lines| && forall i :: 0 <= i < |r| ==> r[i] == StripCR(lines[i])
  {
    seq(|lines|, i requires 0 <= i < |lines| => StripCR(lines[i]))
  }

  function Total(lines: seq<Bytes>): nat { if lines == [] then 0 else |lines[0]| + Total(lines[1..]) }

  /** One complete line at the head of the buffer. */
  lemma DrainLine(u: Setup, st: State, line: Bytes, rest: Bytes)
    requires Unbroken(line) && st.buffer == line + [LF] + rest
    ensures var o := Line(u, st.(buffer := rest), StripCR(line));
            Drain(u, st) == if o.Ok() then Drain(u, o.st) else o
  {
    hide Line, StripCR;
    assert line + [LF] + rest == line + ([LF] + rest);
    LineEndOfMore(line, [LF] + rest);
    assert st.buffer[..|line|] == line && st.buffer[|line| + 1..] == rest;
  }

  lemma DataLine(u: Setup, st: State, v: Bytes)
    ensures var line := DATA + [SP] + v;
            && StripCR(line) == DATA + [SP] + StripCR(v)
            && Line(u, st, StripCR(line)) ==
               Outcome(st.(data := st.data + [StripCR(v)], size := st.size + |StripCR(v)|),
                       if st.size + |StripCR(v)| > u.max then Some(TooLong) else None)
  {
    var line := DATA + [SP] + v;
    assert StripCR(line) == DATA + [SP] + StripCR(v);
    var w := StripCR(v);
    assert (DATA + [SP] + w)[..|DATA|] == DATA;
    assert (DATA + [SP] + w)[|DATA|..] == [SP] + w;
    assert ([SP] + w)[..1] == [SP] && ([SP] + w)[1..] == w;
  }

  lemma {:induction false} UnbrokenDataLine(v: Bytes)
    requires Unbroken(v)
    ensures Unbroken(DATA + [SP] + v)
  {
    LineEndAt(DATA + [SP] + v);
  }

  /** Data lines, when none of them fails, pile up in the decoder. */
  lemma {:induction false} DrainDataLines(u: Setup, st: State, lines: seq<Bytes>, rest: Bytes)
    requires st.buffer == DataLines(lines) + rest && (forall i :: 0 <= i < |lines| ==> Unbroken(lines[i]))
    requires Drain(u, st).Ok()
    ensures Drain(u, st) ==
              Drain(u, st.(buffer := rest, data := st.data + Stripped(lines), size := st.size + Total(Stripped(lines))))
    decreases |lines|
  {
    hide Line, StripCR, Drain, LineEnd;
    if lines == [] {
      assert st.data + Stripped(lines) == st.data;
      assert DataLines(lines) + rest == rest;
    } else {
      var v, later := lines[0], DataLines(lines[1..]) + rest;
      assert st.buffer == (DATA + [SP] + v) + [LF] + later;
      UnbrokenDataLine(v);
      DrainLine(u, st, DATA + [SP] + v, later);
      DataLine(u, st.(buffer := later), v);
      var next := st.(buffer := later, data := st.data + [StripCR(v)], size := st.size + |StripCR(v)|);
      DrainDataLines(u, next, lines[1..], rest);
      assert Stripped(lines)[1..] == Stripped(lines[1..]);
      assert st.data + [StripCR(v)] + Stripped(lines[1..]) == st.data + Stripped(lines);
    }
  }

  function Received(payload: Bytes): Bytes { Join(Stripped(Split(payload))) }

  /** An encoded payload at the head of the buffer of an idle decoder is emitted. */
  lemma DrainFrame(u: Setup, st: State, payload: Bytes, rest: Bytes)
    requires st.buffer == Encode(payload) + rest && st.data == [] && st.size == 0 && Drain(u, st).Ok()
    ensures Drain(u, st) ==
              Drain(u, st.(buffer := rest, event := [], emitted := st.emitted + [Frame(Received(payload), st.event)]))
  {
    hide StripCR, Drain, LineEnd, Line, DataLines, Stripped, Join;
    var lines := Split(payload);
    SplitJoins(payload);
    assert Encode(payload) + rest == DataLines(lines) + ([LF] + rest);
    DrainDataLines(u, st, lines, [LF] + rest);
    assert [] + Stripped(lines) == Stripped(lines);
    var full := st.(buffer := [LF] + rest, data := Stripped(lines), size := Total(Stripped(lines)));
    assert [] + [LF] + rest == [LF] + rest;
    StripNothing();
    DrainLine(u, full, [], rest);
    BlankLine(u, full.(buffer := rest));
  }

  lemma BlankLine(u: Setup, st: State)
    requires st.data != []
    ensures var o := Line(u, st, []);
            o.Ok() ==> o.st == State(st.buffer, [], 0, [], st.emitted + [Frame(Join(st.data), st.event)])
  {}

  lemma StripNothing()
    ensures StripCR([]) == [] && Unbroken([])
  {}

  function Frames(payloads: seq<Bytes>): seq<Frame> {
    seq(|payloads|, i requires 0 <= i < |payloads| => Frame(Received(payloads[i]), []))
  }

  predicate Idle(st: State) { st.buffer == [] && st.data == [] && st.size == 0 && st.event == [] }

  lemma DrainNothing(u: Setup, st: State)
    requires st.buffer == []
    ensures Drain(u, st) == Outcome(st, None)
  {}

  lemma {:induction false} DrainFrames(u: Setup, st: State, payloads: seq<Bytes>, rest: Bytes)
    requires st.buffer == EncodeAll(payloads) + rest && st.data == [] && st.size == 0 && st.event == []
    requires Drain(u, st).Ok()
    ensures Drain(u, st) == Drain(u, st.(buffer := rest, emitted := st.emitted + Frames(payloads)))
    decreases |payloads|
  {
    hide Encode, Line, LineEnd, Received, Drain;
    if payloads != [] {
      var later := EncodeAll(payloads[1..]) + rest;
      assert st.buffer == Encode(payloads[0]) + later;
      DrainFrame(u, st, payloads[0], later);
      var next := st.(buffer := later, emitted := st.emitted + [Frame(Received(payloads[0]), [])]);
      DrainFrames(u, next, payloads[1..], rest);
      assert next.emitted + Frames(payloads[1..]) == st.emitted + Frames(payloads);
    } else {
      assert [] + rest == rest;
      assert st.emitted + Frames(payloads) == st.emitted;
    }
  }

  lemma {:induction false} JoinLength(a: seq<Bytes>, b: seq<Bytes>)
    requires |a| == |b| && forall i :: 0 <= i < |a| ==> |a[i]| <= |b[i]|
    ensures |Join(a)| <= |Join(b)|
    ensures (exists i :: 0 <= i < |a| && |a[i]| < |b[i]|) ==> |Join(a)| < |Join(b)|
  {
    if |a| > 1 {
      JoinLength(a[1..], b[1..]);
      if i :| 0 <= i < |a| && |a[i]| < |b[i]| {
        if i > 0 { assert |a[1..][i - 1]| < |b[1..][i - 1]|; }
      }
    }
  }

  predicate EndsInCR(line: Bytes) { line != [] && line[|line| - 1] == CR }

  predicate CleanLines(payload: Bytes) { forall i :: 0 <= i < |Split(payload)| ==> !EndsInCR(Split(payload)[i]) }

  lemma ReceivedExactly(payload: Bytes)
    ensures Received(payload) == payload <==> CleanLines(payload)
  {
    hide Split, Join;
    var lines := Split(payload);
    SplitJoins(payload);
    if CleanLines(payload) {
      assert Stripped(lines) == lines;
    } else {
      var i :| 0 <= i < |lines| && EndsInCR(lines[i]);
      assert |Stripped(lines)[i]| < |lines[i]|;
      JoinLength(Stripped(lines), lines);
    }
  }

  /** Payloads framed one after the other are decoded, through any chunks, to just those payloads
      exactly when no line of any of them ends in CR; and the stream may end there. */
  lemma {:induction false} RoundTrip(u: Setup, st: State, chunks: seq<Bytes>, payloads: seq<Bytes>)
    requires Idle(st) && Concat(chunks) == EncodeAll(payloads) && FeedAll(u, st, chunks).Ok()
    ensures var after := FeedAll(u, st, chunks).st;
            && Idle(after) && End(after).None?
            && |after.emitted| == |st.emitted| + |payloads|
            && (after.emitted == st.emitted + seq(|payloads|, i requires 0 <= i < |payloads| => Frame(payloads[i], []))
                <==> forall i :: 0 <= i < |payloads| ==> CleanLines(payloads[i]))
  {
    hide CleanLines, Received, EncodeAll, Drain, FeedAll;
    ChunkingIsIrrelevant(u, st, chunks);
    assert [] + Concat(chunks) == Concat(chunks);
    assert EncodeAll(payloads) + [] == EncodeAll(payloads);
    DrainFrames(u, st.(buffer := EncodeAll(payloads)), payloads, []);
    DrainNothing(u, st.(buffer := [], emitted := st.emitted + Frames(payloads)));
    var sent := seq(|payloads|, i requires 0 <= i < |payloads| => Frame(payloads[i], []));
    forall i | 0 <= i < |payloads| ensures Frames(payloads)[i] == sent[i] <==> CleanLines(payloads[i]) {
      ReceivedExactly(payloads[i]);
    }
    var after := FeedAll(u, st, chunks).st;
    assert after.emitted[|st.emitted|..] == Frames(payloads);
    if after.emitted == st.emitted + sent { assert Frames(payloads) == sent; }
    if forall i :: 0 <= i < |payloads| ==> CleanLines(payloads[i]) { assert Frames(payloads) == sent; }
  }

  /** With room for everything at once and a willing consumer, decoding does not fail. */
  lemma {:induction false} RoomIsEnough(u: Setup, st: State)
    requires st.size + |st.buffer| <= u.max && forall es :: u.accepts(es)
    ensures Drain(u, st).Ok()
    decreases |st.buffer|
  {
    var i := LineEnd(st.buffer);
    if i < |st.buffer| {
      var rest, line := st.(buffer := st.buffer[i + 1..]), StripCR(st.buffer[..i]);
      LineKeepsBuffer(u, rest, rest.buffer, line);
      RoomIsEnough(u, Line(u, rest, line).st);
    }
  }

  // ---------------------------------------------------------------- truncation

  /** A stream that stops inside any frame is reported when it ends, however it was cut into chunks. */
  lemma TruncationIsReported(u: Setup, st: State, chunks: seq<Bytes>, payloads: seq<Bytes>, payload: Bytes, n: nat)
    requires Idle(st) && 0 < n < |Encode(payload)| && FeedAll(u, st, chunks).Ok()
    requires Concat(chunks) == EncodeAll(payloads) + Encode(payload)[..n]
    ensures End(FeedAll(u, st, chunks).st) == Some(Incomplete)
  {
    hide StripCR, Drain, FeedAll, EncodeAll;
    var lines, part := Split(payload), Encode(payload)[..n];
    ChunkingIsIrrelevant(u, st, chunks);
    assert [] + Concat(chunks) == Concat(chunks);
    DrainFrames(u, st.(buffer := Concat(chunks)), payloads, part);
    SplitJoins(payload);
    assert part == DataLines(lines)[..n];
    PartialLines(u, st.(buffer := part, emitted := st.emitted + Frames(payloads)), lines, n);
  }

  lemma {:induction false} PartialLines(u: Setup, st: State, lines: seq<Bytes>, n: nat)
    requires n <= |DataLines(lines)| && st.buffer == DataLines(lines)[..n] && (n > 0 || st.data != [])
    requires (forall i :: 0 <= i < |lines| ==> Unbroken(lines[i])) && Drain(u, st).Ok()
    ensures End(Drain(u, st).st) == Some(Incomplete)
    decreases |lines|
  {
    hide StripCR, Line;
    if n == 0 {
      assert st.buffer == [];
    } else {
      var v := DATA + [SP] + lines[0];
      UnbrokenDataLine(lines[0]);
      assert DataLines(lines) == v + [LF] + DataLines(lines[1..]);
      if n <= |v| {
        assert st.buffer == v[..n];
        LineEndAt(st.buffer);
        assert st.buffer[0] == DATA[0];
        StartsNonblank(st.buffer);
      } else {
        var later := DataLines(lines[1..])[..n - |v| - 1];
        assert st.buffer == v + [LF] + later;
        DrainLine(u, st, v, later);
        DataLine(u, st.(buffer := later), lines[0]);
        PartialLines(u, Line(u, st.(buffer := later), StripCR(v)).st, lines[1..], n - |v| - 1);
      }
    }
  }

  lemma StartsNonblank(s: Bytes)
    requires s != [] && s[0] == DATA[0]
    ensures TrimSpace(s) != []
  {
    NotSpace(s[..1]);
    if |s| >= 2 { NotSpace(s[..2]); }
    if |s| >= 3 { NotSpace(s[..3]); }
    hide IsSpace;
    TrimRightKeeps(s);
  }

  lemma NotSpace(s: Bytes)
    requires s != [] && s[0] == DATA[0]
    ensures !IsSpace(s)
  {
    assert !IsSpace([DATA[0]]);
  }

  lemma {:induction false} TrimRightKeeps(s: Bytes)
    requires s != [] && s[0] == DATA[0]
    ensures TrimRight(s) != []
    decreases |s|
  {
    hide IsSpace;
    var n := |s|;
    NotSpace(s);
    assert s[0..] == s;
    if n >= 1 && IsSpace(s[n - 1..]) { TrimRightKeeps(s[..n - 1]); }
    else if n >= 2 && IsSpace(s[n - 2..]) { TrimRightKeeps(s[..n - 2]); }
    else if n >= 3 && IsSpace(s[n - 3..]) { TrimRightKeeps(s[..n - 3]); }
  }

  // ---------------------------------------------------------------- framing a payload whole

  /** One data line with the whole payload, as the program frames what it sends on. */
  function EncodeWhole(payload: Bytes): Bytes { DATA + [SP] + payload + [LF, LF] }

  function CountLF(s: Bytes): nat {
    if s == [] then 0 else (if s[0] == LF then 1 else 0) + CountLF(s[1..])
  }

  lemma {:induction false} CountAfterLine(s: Bytes)
    ensures LineEnd(s) < |s| ==> CountLF(s) == 1 + CountLF(s[LineEnd(s) + 1..])
    ensures LineEnd(s) == |s| ==> CountLF(s) == 0
  {
    if s != [] && s[0] != LF {
      CountAfterLine(s[1..]);
      if LineEnd(s) < |s| { assert s[1..][LineEnd(s)..] == s[LineEnd(s) + 1..]; }
    }
  }

  lemma {:induction false} CountOfJoin(a: Bytes, b: Bytes)
    ensures CountLF(a + b) == CountLF(a) + CountLF(b)
  {
    if a == [] {
      assert a + b == b;
    } else {
      assert (a + b)[1..] == a[1..] + b;
      CountOfJoin(a[1..], b);
    }
  }

  function Emitted(frames: seq<Frame>): nat {
    if frames == [] then 0 else Emitted(frames[..|frames| - 1]) + |frames[|frames| - 1].payload|
  }

  /** What a decoder has to show for the bytes it consumed. */
  function Yield(st: State): nat {
    Emitted(st.emitted) + if st.data == [] then 0 else |Join(st.data)| + 1
  }

  lemma {:induction false} JoinMore(lines: seq<Bytes>, v: Bytes)
    ensures |Join(lines + [v])| == if lines == [] then |v| else |Join(lines)| + 1 + |v|
  {
    if lines == [] {
      assert [] + [v] == [v];
    } else {
      JoinMore(lines[1..], v);
      assert (lines + [v])[1..] == lines[1..] + [v];
    }
  }

  /** Each line yields less than the bytes it takes, its line end included. */
  lemma LineYields(u: Setup, st: State, line: Bytes)
    requires Line(u, st, line).Ok()
    ensures var next := Line(u, st, line).st;
            Yield(next) + (if st.data != [] && next.data == [] then 1 else 0) <= Yield(st) + |line|
  {
    hide IsSpace, TrimSpace;
    if line == [] {
      if st.data != [] {
        var f := Frame(Join(st.data), st.event);
        assert (st.emitted + [f])[..|st.emitted|] == st.emitted;
      }
    } else if Starts(line, DATA) {
      JoinMore(st.data, Without(Without(line, DATA), [SP]));
    }
  }

  lemma {:induction false} DrainYields(u: Setup, st: State)
    requires Drain(u, st).Ok()
    ensures var f := Drain(u, st).st;
            Yield(f) + |f.buffer| + CountLF(st.buffer) + (if st.data != [] && f.data == [] then 1 else 0)
            <= Yield(st) + |st.buffer|
    decreases |st.buffer|
  {
    hide Line, StripCR, LineEnd, CountLF;
    CountAfterLine(st.buffer);
    var i := LineEnd(st.buffer);
    if i < |st.buffer| {
      var rest, line := st.(buffer := st.buffer[i + 1..]), StripCR(st.buffer[..i]);
      StripShortens(st.buffer[..i]);
      LineKeepsBuffer(u, rest, rest.buffer, line);
      LineYields(u, rest, line);
      DrainYields(u, Line(u, rest, line).st);
    }
  }

  lemma StripShortens(s: Bytes)
    ensures |StripCR(s)| <= |s|
  {}

  /** A payload framed whole comes back as it was, in one frame, if and only if it has no LF and
      does not end in CR. */
  lemma WholeRoundTrip(u: Setup, st: State, chunks: seq<Bytes>, payload: Bytes)
    requires Idle(st) && Concat(chunks) == EncodeWhole(payload) && FeedAll(u, st, chunks).Ok()
    ensures var after := FeedAll(u, st, chunks).st;
            Idle(after) && after.emitted == st.emitted + [Frame(payload, [])] <==>
              Unbroken(payload) && !EndsInCR(payload)
  {
    if Unbroken(payload) {
      UnbrokenWhole(u, st, chunks, payload);
    } else {
      BrokenWhole(u, st, chunks, payload);
    }
  }

  lemma {:induction false} UnbrokenWhole(u: Setup, st: State, chunks: seq<Bytes>, payload: Bytes)
    requires Idle(st) && Concat(chunks) == EncodeWhole(payload) && FeedAll(u, st, chunks).Ok() && Unbroken(payload)
    ensures var after := FeedAll(u, st, chunks).st;
            Idle(after) && (after.emitted == st.emitted + [Frame(payload, [])] <==> !EndsInCR(payload))
  {
    hide FeedAll, Idle, End, TrimSpace;
    assert Split(payload) == [payload];
    assert [payload][1..] == [] && DataLines([]) == [];
    assert Encode(payload) == EncodeWhole(payload);
    assert [payload][1..] == [] && EncodeAll([]) == [];
    assert EncodeAll([payload]) == EncodeWhole(payload) + [] == EncodeWhole(payload);
    RoundTrip(u, st, chunks, [payload]);
    var sent := seq(1, i requires 0 <= i < 1 => Frame([payload][i], []));
    assert sent == [Frame(payload, [])];
    assert CleanLines(payload) <==> !EndsInCR(payload);
  }

  lemma BrokenWhole(u: Setup, st: State, chunks: seq<Bytes>, payload: Bytes)
    requires Idle(st) && Concat(chunks) == EncodeWhole(payload) && FeedAll(u, st, chunks).Ok() && !Unbroken(payload)
    ensures var after := FeedAll(u, st, chunks).st;
            !(Idle(after) && after.emitted == st.emitted + [Frame(payload, [])])
  {
    hide FeedAll, StripCR, Line, Drain, Emitted, CountLF, LineEnd;
    ChunkingIsIrrelevant(u, st, chunks);
    assert [] + Concat(chunks) == Concat(chunks);
    var i := LineEnd(payload);
    var next := FirstPart(u, st.(buffer := EncodeWhole(payload)), payload, i);
    DrainYields(u, next);
    CountOfJoin(payload[i + 1..], [LF, LF]);
    TwoLines();
    EmittedMore(st.emitted, Frame(payload, []));
  }

  /** A broken payload is cut at its first LF: that much goes into the decoder as data. */
  lemma FirstPart(u: Setup, st: State, payload: Bytes, i: nat) returns (next: State)
    requires st.buffer == EncodeWhole(payload) && st.data == [] && Drain(u, st).Ok()
    requires i == LineEnd(payload) < |payload|
    ensures Drain(u, next) == Drain(u, st) && next.buffer == payload[i + 1..] + [LF, LF] && next.data != []
    ensures Yield(next) <= Emitted(st.emitted) + i + 1 && next.emitted == st.emitted
  {
    hide StripCR, Line, Drain, Emitted;
    var first, rest := payload[..i], payload[i + 1..] + [LF, LF];
    assert payload == first + [LF] + payload[i + 1..];
    assert EncodeWhole(payload) == (DATA + [SP] + first) + [LF] + rest;
    LineEndAt(first);
    hide LineEnd;
    UnbrokenDataLine(first);
    DrainLine(u, st, DATA + [SP] + first, rest);
    DataLine(u, st.(buffer := rest), first);
    StripShortens(first);
    next := st.(buffer := rest, data := st.data + [StripCR(first)], size := st.size + |StripCR(first)|);
    assert next.data == [StripCR(first)];
  }

  lemma TwoLines()
    ensures CountLF([LF, LF]) == 2
  {
    assert [LF, LF][1..] == [LF] && [LF][1..] == [];
    assert CountLF([LF]) == 1;
  }

  lemma EmittedMore(frames: seq<Frame>, f: Frame)
    ensures Emitted(frames + [f]) == Emitted(frames) + |f.payload|
  {
    assert (frames + [f])[..|frames|] == frames;
  }

  const LETTER: Bytes := [97]

  /** A payload of two lines, framed whole and decoded without a failure: the second one is lost. */
  lemma NewlineIsLost() returns (u: Setup, st: State, payload: Bytes)
    ensures Idle(st) && payload == LETTER + [LF] + LETTER
    ensures var o := FeedAll(u, st, [EncodeWhole(payload)]);
            o.Ok() && Idle(o.st) && o.st.emitted == [Frame(LETTER, [])] != [Frame(payload, [])]
  {
    u, st, payload := Setup(100, es => true), State([], [], 0, [], []), LETTER + [LF] + LETTER;
    var b := EncodeWhole(payload);
    assert |b| == |DATA| + 6 <= 100;
    assert [b][1..] == [] && [] + b == b;
    TwoLinesYieldOne(u, st.(buffer := b));
    hide Drain, EncodeWhole;
    assert FeedAll(u, st, [b]) == Drain(u, st.(buffer := b));
  }

  lemma TwoLinesYieldOne(u: Setup, st: State)
    requires st == State(EncodeWhole(LETTER + [LF] + LETTER), [], 0, [], []) && u == Setup(100, u.accepts)
    requires u.accepts([Frame(LETTER, [])])
    ensures Drain(u, st) == Outcome(State([], [], 0, [], [Frame(LETTER, [])]), None)
  {
    hide Drain, Line, LineEnd, StripCR;
    FirstIsData(u, st);
    SecondIsNoData(u, State(LETTER + [LF, LF], [LETTER], 1, [], []));
    BlankYields(u, State([LF], [LETTER], 1, [], []));
  }

  lemma FirstIsData(u: Setup, st: State)
    requires st == State(EncodeWhole(LETTER + [LF] + LETTER), [], 0, [], []) && u.max == 100
    ensures Drain(u, st) == Drain(u, State(LETTER + [LF, LF], [LETTER], 1, [], []))
  {
    LineEndAt(LETTER);
    assert StripCR(LETTER) == LETTER;
    hide Drain, Line, LineEnd, StripCR;
    assert st.buffer == DATA + [SP] + LETTER + [LF] + (LETTER + [LF, LF]);
    UnbrokenDataLine(LETTER);
    DrainLine(u, st, DATA + [SP] + LETTER, LETTER + [LF, LF]);
    DataLine(u, st.(buffer := LETTER + [LF, LF]), LETTER);
    assert [] + [LETTER] == [LETTER];
  }

  lemma SecondIsNoData(u: Setup, st: State)
    requires st == State(LETTER + [LF, LF], [LETTER], 1, [], [])
    ensures Drain(u, st) == Drain(u, State([LF], [LETTER], 1, [], []))
  {
    LineEndAt(LETTER);
    assert StripCR(LETTER) == LETTER && !Starts(LETTER, DATA) && !Starts(LETTER, EVENT);
    assert Line(u, st.(buffer := [LF]), LETTER) == Outcome(st.(buffer := [LF]), None);
    hide Drain, Line, LineEnd, StripCR;
    assert LETTER + [LF, LF] == LETTER + [LF] + [LF];
    DrainLine(u, st, LETTER, [LF]);
  }

  lemma BlankYields(u: Setup, st: State)
    requires st == State([LF], [LETTER], 1, [], []) && u.accepts([Frame(LETTER, [])])
    ensures Drain(u, st) == Outcome(State([], [], 0, [], [Frame(LETTER, [])]), None)
  {
    StripNothing();
    JoinOne(LETTER);
    assert [] + [Frame(LETTER, [])] == [Frame(LETTER, [])];
    assert Line(u, st.(buffer := []), []) == Outcome(State([], [], 0, [], [Frame(LETTER, [])]), None);
    hide Drain, Line, LineEnd, StripCR;
    assert [LF] == [] + [LF] + [];
    DrainLine(u, st, [], []);
    DrainNothing(u, State([], [], 0, [], [Frame(LETTER, [])]));
  }

  /** A payload that ends in CR, decoded without a failure and not to itself. */
  lemma ReturnIsLost() returns (u: Setup, st: State, payload: Bytes)
    ensures Idle(st) && !CleanLines(payload) && FeedAll(u, st, [Encode(payload)]).Ok()
    ensures FeedAll(u, st, [Encode(payload)]).st.emitted != [Frame(payload, [])]
  {
    u, st, payload := Setup(100, es => true), State([], [], 0, [], []), [97, CR];
    LineEndAt(payload);
    var lines := Split(payload);
    assert lines == [payload] && EndsInCR(lines[0]);
    assert [payload][1..] == [] && DataLines([]) == [];
    var b := Encode(payload);
    assert |b| == 10;
    hide Encode, CleanLines;
    assert Concat([b]) == b by { assert [b][1..] == []; }
    RoomIsEnough(u, st.(buffer := b)) by { assert [] + b == b; }
    assert FeedAll(u, st, [b]).Ok() by { assert [] + b == b && [b][1..] == []; }
    assert EncodeAll([payload]) == b by { assert [payload][1..] == []; }
    hide FeedAll, Feed, EncodeAll, Concat;
    RoundTrip(u, st, [b], [payload]);
    var sent := seq(1, i requires 0 <= i < 1 => Frame([payload][i], []));
    assert sent == [Frame(payload, [])] && [] + sent == sent;
  }
}
