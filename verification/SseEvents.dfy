/** Streams with named events, comments and unpadded fields; and how much a decoder ever holds. */
module SseEvents {
  import opened Common
  import opened SseFrames

  /** A frame with its name on a line of its own, if it has one. */
  function EncodeFrame(f: Frame): Bytes {
    (if f.event == [] then [] else EVENT + [SP] + f.event + [LF]) + Encode(f.payload)
  }

  function EncodeFrames(fs: seq<Frame>): Bytes {
    if fs == [] then [] else EncodeFrame(fs[0]) + EncodeFrames(fs[1..])
  }

  /** No white space at either end. */
  predicate Bare(s: Bytes) { forall n :: 1 <= n <= 3 ==> !SpaceFirst(s, n) && !SpaceLast(s, n) }

  /** What the decoder makes of a name, and of a frame. */
  function ReceivedName(name: Bytes): Bytes { if name == [] then [] else TrimSpace([SP] + StripCR(name)) }

  function ReceivedFrame(f: Frame): Frame { Frame(Received(f.payload), ReceivedName(f.event)) }

  // ---------------------------------------------------------------- names

  lemma TrimLeftIff(s: Bytes)
    ensures |TrimLeft(s)| <= |s| && (|TrimLeft(s)| == |s| ==> TrimLeft(s) == s)
    ensures TrimLeft(s) == s <==> !SpaceFirst(s, 1) && !SpaceFirst(s, 2) && !SpaceFirst(s, 3)
  {
    hide IsSpace;
  }

  lemma TrimRightIff(s: Bytes)
    ensures |TrimRight(s)| <= |s| && (|TrimRight(s)| == |s| ==> TrimRight(s) == s)
    ensures TrimRight(s) == s <==> !SpaceLast(s, 1) && !SpaceLast(s, 2) && !SpaceLast(s, 3)
  {
    TrimRightStep(s);
    hide *;
  }

  /** One step of trimming, by the white space the text ends in. */
  lemma TrimRightStep(s: Bytes)
    ensures var n := |s|;
            if SpaceLast(s, 1) then |TrimRight(s)| <= n - 1
            else if SpaceLast(s, 2) then |TrimRight(s)| <= n - 2
            else if SpaceLast(s, 3) then |TrimRight(s)| <= n - 3
            else TrimRight(s) == s
    ensures SpaceLast(s, 1) || SpaceLast(s, 2) || SpaceLast(s, 3) ==> s != []
  {
    hide IsSpace;
    assert !SpaceLast([], 1) && !SpaceLast([], 2) && !SpaceLast([], 3);
  }

  lemma TrimIff(s: Bytes)
    ensures |TrimSpace(s)| <= |s| && (TrimSpace(s) == s <==> Bare(s))
  {
    TrimLeftIff(s);
    TrimRightIff(TrimLeft(s));
    hide SpaceFirst, SpaceLast, TrimLeft, TrimRight;
  }

  lemma TrimPadded(s: Bytes)
    ensures TrimSpace([SP] + s) == TrimSpace(s)
  {
    assert ([SP] + s)[..1] == [SP] && ([SP] + s)[1..] == s && IsSpace([SP]);
    hide TrimRight;
  }

  /** A name comes back as it was exactly when it is bare. */
  lemma NameIff(name: Bytes)
    ensures ReceivedName(name) == name <==> Bare(name)
  {
    TrimPadded(StripCR(name));
    TrimIff(StripCR(name));
    ReturnIsNotBare(name);
    hide TrimSpace, Bare;
  }

  lemma ReturnIsNotBare(name: Bytes)
    ensures EndsInCR(name) ==> !Bare(name)
    ensures Bare([])
  {
    if EndsInCR(name) { assert name[|name| - 1..] == [CR] && SpaceLast(name, 1); }
  }

  // ---------------------------------------------------------------- named frames

  lemma EventLine(u: Setup, st: State, name: Bytes)
    requires name != []
    ensures Line(u, st, StripCR(EVENT + [SP] + name)) == Outcome(st.(event := ReceivedName(name)), None)
  {
    var line, w := EVENT + [SP] + name, StripCR(name);
    assert StripCR(line) == EVENT + [SP] + w;
    assert (EVENT + [SP] + w)[..|EVENT|] == EVENT && (EVENT + [SP] + w)[|EVENT|..] == [SP] + w;
    assert (EVENT + [SP] + w)[..|DATA|][0] != DATA[0];
    hide TrimSpace;
  }

  lemma DrainNamed(u: Setup, st: State, f: Frame, rest: Bytes)
    requires st.buffer == EncodeFrame(f) + rest && st.data == [] && st.size == 0 && st.event == []
    requires Unbroken(f.event) && Drain(u, st).Ok()
    ensures Drain(u, st) == Drain(u, st.(buffer := rest, emitted := st.emitted + [ReceivedFrame(f)]))
  {
    hide Drain, Encode, Line, Received, StripCR, LineEnd, TrimSpace;
    if f.event == [] {
      assert [] + Encode(f.payload) == Encode(f.payload);
      DrainFrame(u, st, f.payload, rest);
    } else {
      var line, later := EVENT + [SP] + f.event, Encode(f.payload) + rest;
      assert st.buffer == line + [LF] + later;
      UnbrokenEventLine(f.event);
      DrainLine(u, st, line, later);
      EventLine(u, st.(buffer := later), f.event);
      DrainFrame(u, st.(buffer := later, event := ReceivedName(f.event)), f.payload, rest);
    }
  }

  lemma UnbrokenEventLine(name: Bytes)
    requires Unbroken(name)
    ensures Unbroken(EVENT + [SP] + name)
  {
    LineEndAt(EVENT + [SP] + name);
  }

  function ReceivedFrames(fs: seq<Frame>): seq<Frame> {
    if fs == [] then [] else [ReceivedFrame(fs[0])] + ReceivedFrames(fs[1..])
  }

  lemma {:induction false} DrainAllNamed(u: Setup, st: State, fs: seq<Frame>)
    requires st.buffer == EncodeFrames(fs) && st.data == [] && st.size == 0 && st.event == [] && Drain(u, st).Ok()
    requires forall f :: f in fs ==> Unbroken(f.event)
    ensures Drain(u, st) == Outcome(st.(buffer := [], emitted := st.emitted + ReceivedFrames(fs)), None)
    decreases |fs|
  {
    FramesInTurn(fs);
    hide *;
    if fs == [] {
      DrainNothing(u, st);
      assert st.emitted + ReceivedFrames(fs) == st.emitted;
    } else {
      var later := EncodeFrames(fs[1..]);
      DrainNamed(u, st, fs[0], later);
      var next := st.(buffer := later, emitted := st.emitted + [ReceivedFrame(fs[0])]);
      DrainAllNamed(u, next, fs[1..]);
      assert next.emitted + ReceivedFrames(fs[1..]) == st.emitted + ([ReceivedFrame(fs[0])] + ReceivedFrames(fs[1..]));
    }
  }

  lemma FramesInTurn(fs: seq<Frame>)
    ensures fs == [] ==> EncodeFrames(fs) == [] && ReceivedFrames(fs) == []
    ensures fs != [] ==>
              && EncodeFrames(fs) == EncodeFrame(fs[0]) + EncodeFrames(fs[1..])
              && ReceivedFrames(fs) == [ReceivedFrame(fs[0])] + ReceivedFrames(fs[1..])
  {}

  predicate Survives(f: Frame) { CleanLines(f.payload) && Bare(f.event) }

  lemma {:induction false} ReceivedIff(fs: seq<Frame>)
    ensures |ReceivedFrames(fs)| == |fs|
    ensures ReceivedFrames(fs) == fs <==> forall f :: f in fs ==> Survives(f)
  {
    hide Received, CleanLines, Bare, ReceivedName;
    if fs != [] {
      ReceivedIff(fs[1..]);
      ReceivedExactly(fs[0].payload);
      NameIff(fs[0].event);
      assert fs == [fs[0]] + fs[1..];
      assert ReceivedFrame(fs[0]) == fs[0] <==> Survives(fs[0]);
      hide ReceivedFrame, Survives;
      assert (forall f :: f in fs ==> Survives(f)) <==> Survives(fs[0]) && forall f :: f in fs[1..] ==> Survives(f);
      assert ReceivedFrames(fs) == fs <==> ReceivedFrame(fs[0]) == fs[0] && ReceivedFrames(fs[1..]) == fs[1..];
    }
  }

  /** Frames with names of one line each, sent one after the other and cut into any chunks, are decoded to
      just those frames exactly when no payload line ends in CR and no name has white space at an end. */
  lemma NamedRoundTrip(u: Setup, st: State, chunks: seq<Bytes>, fs: seq<Frame>)
    requires Idle(st) && Concat(chunks) == EncodeFrames(fs) && FeedAll(u, st, chunks).Ok()
    requires forall f :: f in fs ==> Unbroken(f.event)
    ensures var after := FeedAll(u, st, chunks).st;
            && Idle(after) && |after.emitted| == |st.emitted| + |fs|
            && (after.emitted == st.emitted + fs <==> forall f :: f in fs ==> Survives(f))
  {
    hide Drain, FeedAll, Survives, Unbroken, ReceivedFrame, EncodeFrame;
    ChunkingIsIrrelevant(u, st, chunks);
    assert [] + Concat(chunks) == Concat(chunks);
    DrainAllNamed(u, st.(buffer := EncodeFrames(fs)), fs);
    ReceivedIff(fs);
    var after := FeedAll(u, st, chunks).st;
    assert after.emitted[|st.emitted|..] == ReceivedFrames(fs);
    if after.emitted == st.emitted + fs { assert ReceivedFrames(fs) == fs; }
  }

  // ---------------------------------------------------------------- other lines

  /** Comments and fields that are not known change nothing, wherever they stand. */
  lemma OthersAreIgnored(u: Setup, st: State, line: Bytes, rest: Bytes)
    requires Unbroken(line) && StripCR(line) != [] && !Starts(StripCR(line), DATA) && !Starts(StripCR(line), EVENT)
    ensures Drain(u, st.(buffer := line + [LF] + rest)) == Drain(u, st.(buffer := rest))
  {
    assert Line(u, st.(buffer := rest), StripCR(line)) == Outcome(st.(buffer := rest), None);
    hide Drain, Line, StripCR, LineEnd;
    DrainLine(u, st.(buffer := line + [LF] + rest), line, rest);
  }

  lemma UnpaddedLine(u: Setup, st: State, v: Bytes)
    requires !Starts(v, [SP])
    ensures Line(u, st, StripCR(DATA + v)) == Line(u, st, StripCR(DATA + [SP] + v))
  {
    DataLine(u, st, v);
    var w := StripCR(v);
    assert StripCR(DATA + v) == DATA + w;
    assert (DATA + w)[..|DATA|] == DATA && (DATA + w)[|DATA|..] == w;
    assert w == v[..|w|];
  }

  /** One blank behind the colon is padding, which a data line can do without. */
  lemma PaddingIsOptional(u: Setup, st: State, v: Bytes, rest: Bytes)
    requires Unbroken(v) && !Starts(v, [SP])
    ensures Drain(u, st.(buffer := DATA + v + [LF] + rest)) == Drain(u, st.(buffer := DATA + [SP] + v + [LF] + rest))
  {
    LineEndAt(DATA + v);
    hide Drain, LineEnd, Line, StripCR, Starts;
    UnbrokenDataLine(v);
    UnpaddedLine(u, st.(buffer := rest), v);
    DrainLine(u, st.(buffer := DATA + v + [LF] + rest), DATA + v, rest);
    DrainLine(u, st.(buffer := DATA + [SP] + v + [LF] + rest), DATA + [SP] + v, rest);
  }

  // ---------------------------------------------------------------- what a decoder holds

  /** No more than its limit in incomplete lines, and no more in the data of one frame. */
  predicate Bounded(u: Setup, st: State) {
    |st.buffer| <= u.max && st.size <= u.max && st.size == Total(st.data)
  }

  lemma {:induction false} TotalOfMore(lines: seq<Bytes>, v: Bytes)
    ensures Total(lines + [v]) == Total(lines) + |v|
  {
    if lines == [] {
      assert [] + [v] == [v] && [v][1..] == [];
    } else {
      assert (lines + [v])[1..] == lines[1..] + [v];
      TotalOfMore(lines[1..], v);
    }
  }

  lemma {:induction false} DrainIsBounded(u: Setup, st: State)
    requires Bounded(u, st) && Drain(u, st).Ok()
    ensures Bounded(u, Drain(u, st).st)
    decreases |st.buffer|
  {
    hide StripCR, LineEnd, TrimSpace, Join;
    var i := LineEnd(st.buffer);
    if i < |st.buffer| {
      var rest, line := st.(buffer := st.buffer[i + 1..]), StripCR(st.buffer[..i]);
      LineKeepsBuffer(u, rest, rest.buffer, line);
      if Starts(line, DATA) { TotalOfMore(st.data, Without(Without(line, DATA), [SP])); }
      DrainIsBounded(u, Line(u, rest, line).st);
    }
  }

  /** Over any stream a decoder that has not failed holds at most twice its limit. */
  lemma {:induction false} DecoderIsBounded(u: Setup, st: State, chunks: seq<Bytes>)
    requires Bounded(u, st) && FeedAll(u, st, chunks).Ok()
    ensures Bounded(u, FeedAll(u, st, chunks).st)
    decreases |chunks|
  {
    hide Drain;
    if chunks != [] {
      DrainIsBounded(u, st.(buffer := st.buffer + chunks[0]));
      DecoderIsBounded(u, Feed(u, st, chunks[0]).st, chunks[1..]);
    }
  }

  /** A call that fails says why in what it leaves behind. */
  predicate Tells(u: Setup, o: Outcome) {
    match o.failure
    case None => true
    case Some(TooLong) => |o.st.buffer| > u.max || o.st.size > u.max
    case Some(Refused) => !u.accepts(o.st.emitted)
    case Some(Incomplete) => false
  }

  lemma {:induction false} DrainTells(u: Setup, st: State)
    ensures Tells(u, Drain(u, st))
    decreases |st.buffer|
  {
    hide StripCR, LineEnd, TrimSpace, Join;
    var i := LineEnd(st.buffer);
    if i < |st.buffer| {
      var rest, line := st.(buffer := st.buffer[i + 1..]), StripCR(st.buffer[..i]);
      LineKeepsBuffer(u, rest, rest.buffer, line);
      DrainTells(u, Line(u, rest, line).st);
    }
  }

  /** Decoding fails only if an incomplete line or the data of a frame is over the limit, or the consumer
      does not take what it was offered last. */
  lemma {:induction false} FailureTells(u: Setup, st: State, chunks: seq<Bytes>)
    ensures Tells(u, FeedAll(u, st, chunks))
    decreases |chunks|
  {
    hide Drain;
    if chunks != [] {
      DrainTells(u, st.(buffer := st.buffer + chunks[0]));
      FailureTells(u, Feed(u, st, chunks[0]).st, chunks[1..]);
    }
  }

  // ---------------------------------------------------------------- the end of a stream

  /** Nothing but white space. */
  predicate Blank(s: Bytes)
    decreases |s|
  {
    s == [] || (SpaceFirst(s, 1) && Blank(s[1..])) || (SpaceFirst(s, 2) && Blank(s[2..]))
      || (SpaceFirst(s, 3) && Blank(s[3..]))
  }

  lemma {:induction false} BlankMore(a: Bytes, b: Bytes)
    requires Blank(a) && 1 <= |b| <= 3 && IsSpace(b)
    ensures Blank(a + b)
    decreases |a|
  {
    hide IsSpace;
    if a == [] {
      assert a + b == b && b[..|b|] == b && b[|b|..] == [];
      assert SpaceFirst(b, |b|) && Blank(b[|b|..]);
    } else {
      var n: nat := if SpaceFirst(a, 1) && Blank(a[1..]) then 1 else if SpaceFirst(a, 2) && Blank(a[2..]) then 2 else 3;
      BlankMore(a[n..], b);
      assert (a + b)[..n] == a[..n] && (a + b)[n..] == a[n..] + b;
      assert SpaceFirst(a + b, n) && Blank((a + b)[n..]);
    }
  }

  /** White-space characters are told apart by how they begin. */
  lemma OneSpace(s: Bytes, n: nat, m: nat)
    requires 1 <= n <= 3 && 1 <= m <= 3 && SpaceFirst(s, n) && SpaceFirst(s, m)
    ensures n == m
  {
    SpaceBegins(s[..n]);
    SpaceBegins(s[..m]);
    hide IsSpace;
  }

  lemma SpaceBegins(s: Bytes)
    requires IsSpace(s)
    ensures 1 <= |s| <= 3
    ensures if |s| == 1 then s[0] <= SP else if |s| == 2 then s[0] == 0xC2 else s[0] >= 0xE1
  {}

  lemma {:induction false} TrimLeftBlank(s: Bytes)
    ensures TrimLeft(s) == [] <==> Blank(s)
    ensures Blank(TrimLeft(s)) ==> Blank(s)
    decreases |s|
  {
    forall n, m | 1 <= n <= 3 && 1 <= m <= 3 && SpaceFirst(s, n) && SpaceFirst(s, m) ensures n == m {
      OneSpace(s, n, m);
    }
    hide IsSpace;
    if SpaceFirst(s, 1) { TrimLeftBlank(s[1..]); }
    else if SpaceFirst(s, 2) { TrimLeftBlank(s[2..]); }
    else if SpaceFirst(s, 3) { TrimLeftBlank(s[3..]); }
  }

  lemma {:induction false} TrimRightBlank(s: Bytes)
    requires TrimRight(s) == []
    ensures Blank(s)
    decreases |s|
  {
    hide IsSpace;
    var n := |s|;
    if n > 0 {
      var k: nat := if SpaceLast(s, 1) then 1 else if SpaceLast(s, 2) then 2 else 3;
      assert SpaceLast(s, k);
      TrimRightBlank(s[..n - k]);
      BlankMore(s[..n - k], s[n - k..]);
      assert s[..n - k] + s[n - k..] == s;
    }
  }

  lemma TrimIsBlank(s: Bytes)
    ensures TrimSpace(s) == [] <==> Blank(s)
  {
    TrimLeftBlank(s);
    if TrimSpace(s) == [] { TrimRightBlank(TrimLeft(s)); }
    hide IsSpace, Blank;
  }

  /** A stream may end exactly where no data of a frame is left, and no text but white space. */
  lemma EndIff(st: State)
    ensures End(st).None? <==> st.data == [] && Blank(st.buffer)
  {
    TrimIsBlank(st.buffer);
    hide TrimSpace, Blank;
  }
}
