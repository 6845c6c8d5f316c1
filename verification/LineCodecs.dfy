/**
 A line codec that loses nothing exists: every event can be written as text without line ends from
 which it can be told again. The program's own is JSON; the theorems about the journal hold of any.
 */
module LineCodecs {
  import opened Common
  import opened BackoffLog
  import opened RequestLogStore

  // Each value is written as whole numbers in front of the numbers that follow it.

  function PutInt(n: int, rest: seq<int>): seq<int> { [n] + rest }

  function PutBool(b: bool, rest: seq<int>): seq<int> { PutInt(if b then 1 else 0, rest) }

  function PutText(s: string, rest: seq<int>): seq<int> {
    PutInt(|s|, seq(|s|, i requires 0 <= i < |s| => s[i] as int) + rest)
  }

  function PutTexts(ss: seq<string>, rest: seq<int>): seq<int> {
    if ss == [] then PutBool(false, rest) else PutBool(true, PutText(ss[0], PutTexts(ss[1..], rest)))
  }

  function PutTime(t: Option<Time>, rest: seq<int>): seq<int> {
    if t.None? then PutBool(false, rest) else PutBool(true, PutInt(t.value, rest))
  }

  function PutRate(r: Option<Rate>, rest: seq<int>): seq<int> {
    if r.None? then PutBool(false, rest) else PutBool(true, PutInt(r.value.over, PutInt(r.value.under, rest)))
  }

  function PutWindow(w: WindowId, rest: seq<int>): seq<int> {
    match w
    case NoWindow => PutInt(0, rest)
    case Issued(name) => PutInt(1, PutText(name, rest))
    case LegacyText(at) => PutInt(2, PutInt(at, rest))
  }

  function PutRoute(r: Route, rest: seq<int>): seq<int> {
    PutText(r.model, PutBool(r.stream, PutText(r.effort, PutText(r.mapping, PutText(r.errorKind, PutText(r.scope,
      PutInt(r.status, rest)))))))
  }

  function PutRow(e: Row, rest: seq<int>): seq<int> {
    PutText(e.id, PutInt(e.time, PutTime(e.lastTime, PutText(e.lastRequestId, PutInt(e.requestCount,
      PutTime(e.retryAt, PutText(e.error, PutBool(e.skipped, PutRest(e, rest)))))))))
  }

  function PutRest(e: Row, rest: seq<int>): seq<int> {
    PutWindow(e.window, PutText(e.credential, PutText(e.upstreamModel, PutRoute(e.route, PutTexts(e.attempts,
      PutRate(e.rate, PutInt(e.completionTokens, PutInt(e.durationMs, PutInt(e.ttftMs, rest)))))))))
  }

  function PutEvent(ev: Event): seq<int> {
    PutInt(ev.sequence, PutBool(ev.merged, PutInt(ev.retention, PutBool(ev.clear,
      if ev.entry.None? then PutBool(false, []) else PutBool(true, PutRow(ev.entry.value, []))))))
  }

  // ---------------------------------------------------------------- what is written can be told apart

  lemma IntTold(a: int, x: seq<int>, b: int, y: seq<int>)
    requires PutInt(a, x) == PutInt(b, y)
    ensures a == b && x == y
  {
    assert PutInt(a, x)[0] == a && PutInt(a, x)[1..] == x;
    assert PutInt(b, y)[0] == b && PutInt(b, y)[1..] == y;
  }

  lemma BoolTold(a: bool, x: seq<int>, b: bool, y: seq<int>)
    requires PutBool(a, x) == PutBool(b, y)
    ensures a == b && x == y
  {
    IntTold(if a then 1 else 0, x, if b then 1 else 0, y);
  }

  lemma TextTold(a: string, x: seq<int>, b: string, y: seq<int>)
    requires PutText(a, x) == PutText(b, y)
    ensures a == b && x == y
  {
    var p := seq(|a|, i requires 0 <= i < |a| => a[i] as int);
    var q := seq(|b|, i requires 0 <= i < |b| => b[i] as int);
    IntTold(|a|, p + x, |b|, q + y);
    assert p == (p + x)[..|a|] && q == (q + y)[..|a|] && x == (p + x)[|a|..] && y == (q + y)[|a|..];
    forall i | 0 <= i < |a| ensures a[i] == b[i] {
      assert p[i] == a[i] as int && q[i] == b[i] as int;
    }
  }

  lemma {:induction false} TextsTold(a: seq<string>, x: seq<int>, b: seq<string>, y: seq<int>)
    requires PutTexts(a, x) == PutTexts(b, y)
    ensures a == b && x == y
  {
    hide PutBool, PutText;
    var restA := if a == [] then x else PutText(a[0], PutTexts(a[1..], x));
    var restB := if b == [] then y else PutText(b[0], PutTexts(b[1..], y));
    BoolTold(a != [], restA, b != [], restB);
    if a != [] {
      TextTold(a[0], PutTexts(a[1..], x), b[0], PutTexts(b[1..], y));
      TextsTold(a[1..], x, b[1..], y);
      assert a == [a[0]] + a[1..] && b == [b[0]] + b[1..];
    }
  }

  lemma TimeTold(a: Option<Time>, x: seq<int>, b: Option<Time>, y: seq<int>)
    requires PutTime(a, x) == PutTime(b, y)
    ensures a == b && x == y
  {
    hide PutBool, PutInt;
    BoolTold(a.Some?, if a.None? then x else PutInt(a.value, x), b.Some?, if b.None? then y else PutInt(b.value, y));
    if a.Some? { IntTold(a.value, x, b.value, y); }
  }

  lemma RateTold(a: Option<Rate>, x: seq<int>, b: Option<Rate>, y: seq<int>)
    requires PutRate(a, x) == PutRate(b, y)
    ensures a == b && x == y
  {
    hide PutBool, PutInt;
    BoolTold(a.Some?, if a.None? then x else PutInt(a.value.over, PutInt(a.value.under, x)),
             b.Some?, if b.None? then y else PutInt(b.value.over, PutInt(b.value.under, y)));
    if a.Some? {
      IntTold(a.value.over, PutInt(a.value.under, x), b.value.over, PutInt(b.value.under, y));
      IntTold(a.value.under, x, b.value.under, y);
    }
  }

  lemma WindowTold(a: WindowId, x: seq<int>, b: WindowId, y: seq<int>)
    requires PutWindow(a, x) == PutWindow(b, y)
    ensures a == b && x == y
  {
    hide PutInt, PutText;
    IntTold(WindowTag(a), WindowBody(a, x), WindowTag(b), WindowBody(b, y));
    match a
    case NoWindow =>
    case Issued(name) => TextTold(name, x, b.name, y);
    case LegacyText(at) => IntTold(at, x, b.at, y);
  }

  function WindowTag(w: WindowId): int { if w.NoWindow? then 0 else if w.Issued? then 1 else 2 }

  function WindowBody(w: WindowId, rest: seq<int>): seq<int> {
    if w.NoWindow? then rest else if w.Issued? then PutText(w.name, rest) else PutInt(w.at, rest)
  }

  lemma RouteTold(a: Route, x: seq<int>, b: Route, y: seq<int>)
    requires PutRoute(a, x) == PutRoute(b, y)
    ensures a == b && x == y
  {
    hide PutInt, PutBool, PutText;
    var p6, q6 := PutInt(a.status, x), PutInt(b.status, y);
    var p5, q5 := PutText(a.scope, p6), PutText(b.scope, q6);
    var p4, q4 := PutText(a.errorKind, p5), PutText(b.errorKind, q5);
    var p3, q3 := PutText(a.mapping, p4), PutText(b.mapping, q4);
    var p2, q2 := PutText(a.effort, p3), PutText(b.effort, q3);
    TextTold(a.model, PutBool(a.stream, p2), b.model, PutBool(b.stream, q2));
    BoolTold(a.stream, p2, b.stream, q2);
    TextTold(a.effort, p3, b.effort, q3);
    TextTold(a.mapping, p4, b.mapping, q4);
    TextTold(a.errorKind, p5, b.errorKind, q5);
    TextTold(a.scope, p6, b.scope, q6);
    IntTold(a.status, x, b.status, y);
  }

  lemma RowTold(a: Row, x: seq<int>, b: Row, y: seq<int>)
    requires PutRow(a, x) == PutRow(b, y)
    ensures a == b && x == y
  {
    hide PutInt, PutBool, PutText, PutTime, PutRest;
    var p7, q7 := PutBool(a.skipped, PutRest(a, x)), PutBool(b.skipped, PutRest(b, y));
    var p6, q6 := PutText(a.error, p7), PutText(b.error, q7);
    var p5, q5 := PutTime(a.retryAt, p6), PutTime(b.retryAt, q6);
    var p4, q4 := PutInt(a.requestCount, p5), PutInt(b.requestCount, q5);
    var p3, q3 := PutText(a.lastRequestId, p4), PutText(b.lastRequestId, q4);
    var p2, q2 := PutTime(a.lastTime, p3), PutTime(b.lastTime, q3);
    TextTold(a.id, PutInt(a.time, p2), b.id, PutInt(b.time, q2));
    IntTold(a.time, p2, b.time, q2);
    TimeTold(a.lastTime, p3, b.lastTime, q3);
    TextTold(a.lastRequestId, p4, b.lastRequestId, q4);
    IntTold(a.requestCount, p5, b.requestCount, q5);
    TimeTold(a.retryAt, p6, b.retryAt, q6);
    TextTold(a.error, p7, b.error, q7);
    BoolTold(a.skipped, PutRest(a, x), b.skipped, PutRest(b, y));
    RestTold(a, x, b, y);
  }

  lemma RestTold(a: Row, x: seq<int>, b: Row, y: seq<int>)
    requires PutRest(a, x) == PutRest(b, y)
    ensures a.window == b.window && a.credential == b.credential && a.upstreamModel == b.upstreamModel
    ensures a.route == b.route && a.attempts == b.attempts && a.rate == b.rate
    ensures a.completionTokens == b.completionTokens && a.durationMs == b.durationMs && a.ttftMs == b.ttftMs && x == y
  {
    hide PutInt, PutText, PutTexts, PutRate, PutRoute, PutWindow;
    var p8, q8 := PutInt(a.ttftMs, x), PutInt(b.ttftMs, y);
    var p7, q7 := PutInt(a.durationMs, p8), PutInt(b.durationMs, q8);
    var p6, q6 := PutInt(a.completionTokens, p7), PutInt(b.completionTokens, q7);
    var p5, q5 := PutRate(a.rate, p6), PutRate(b.rate, q6);
    var p4, q4 := PutTexts(a.attempts, p5), PutTexts(b.attempts, q5);
    var p3, q3 := PutRoute(a.route, p4), PutRoute(b.route, q4);
    var p2, q2 := PutText(a.upstreamModel, p3), PutText(b.upstreamModel, q3);
    WindowTold(a.window, PutText(a.credential, p2), b.window, PutText(b.credential, q2));
    TextTold(a.credential, p2, b.credential, q2);
    TextTold(a.upstreamModel, p3, b.upstreamModel, q3);
    RouteTold(a.route, p4, b.route, q4);
    TextsTold(a.attempts, p5, b.attempts, q5);
    RateTold(a.rate, p6, b.rate, q6);
    IntTold(a.completionTokens, p7, b.completionTokens, q7);
    IntTold(a.durationMs, p8, b.durationMs, q8);
    IntTold(a.ttftMs, x, b.ttftMs, y);
  }

  lemma EventTold(a: Event, b: Event)
    requires PutEvent(a) == PutEvent(b)
    ensures a == b
  {
    hide PutInt, PutBool, PutRow;
    var p4 := if a.entry.None? then PutBool(false, []) else PutBool(true, PutRow(a.entry.value, []));
    var q4 := if b.entry.None? then PutBool(false, []) else PutBool(true, PutRow(b.entry.value, []));
    var p3, q3 := PutBool(a.clear, p4), PutBool(b.clear, q4);
    var p2, q2 := PutInt(a.retention, p3), PutInt(b.retention, q3);
    IntTold(a.sequence, PutBool(a.merged, p2), b.sequence, PutBool(b.merged, q2));
    BoolTold(a.merged, p2, b.merged, q2);
    IntTold(a.retention, p3, b.retention, q3);
    BoolTold(a.clear, p4, b.clear, q4);
    BoolTold(a.entry.Some?, if a.entry.None? then [] else PutRow(a.entry.value, []),
             b.entry.Some?, if b.entry.None? then [] else PutRow(b.entry.value, []));
    if a.entry.Some? { RowTold(a.entry.value, [], b.entry.value, []); }
  }

  // ---------------------------------------------------------------- numbers as text

  function Strokes(n: nat, rest: string): string { if n == 0 then "." + rest else "|" + Strokes(n - 1, rest) }

  function Written(ns: seq<int>): string {
    if ns == [] then ""
    else if ns[0] < 0 then "-" + Strokes(-ns[0], Written(ns[1..])) else Strokes(ns[0], Written(ns[1..]))
  }

  lemma {:induction false} StrokesTold(a: nat, x: string, b: nat, y: string)
    requires Strokes(a, x) == Strokes(b, y)
    ensures a == b && x == y
  {
    var s, t := Strokes(a, x), Strokes(b, y);
    assert s[0] == t[0] && s[1..] == t[1..];
    if a == 0 || b == 0 {
      assert a == 0 ==> s[1..] == x;
      assert b == 0 ==> t[1..] == y;
    } else {
      assert s[1..] == Strokes(a - 1, x) && t[1..] == Strokes(b - 1, y);
      StrokesTold(a - 1, x, b - 1, y);
    }
  }

  lemma {:induction false} StrokesAreOneLine(n: nat, rest: string)
    requires NoNewline(rest)
    ensures NoNewline(Strokes(n, rest)) && Strokes(n, rest) != "" && Strokes(n, rest)[0] != '-'
  {
    if n > 0 { StrokesAreOneLine(n - 1, rest); }
  }

  lemma {:induction false} WrittenIsOneLine(ns: seq<int>)
    ensures NoNewline(Written(ns)) && (ns != [] ==> Written(ns) != "" && (Written(ns)[0] == '-' <==> ns[0] < 0))
  {
    hide Strokes;
    if ns != [] {
      WrittenIsOneLine(ns[1..]);
      StrokesAreOneLine(if ns[0] < 0 then -ns[0] else ns[0], Written(ns[1..]));
    }
  }

  lemma {:induction false} WrittenTold(a: seq<int>, b: seq<int>)
    requires Written(a) == Written(b)
    ensures a == b
  {
    hide Strokes, NoNewline;
    WrittenIsOneLine(a);
    WrittenIsOneLine(b);
    if a != [] {
      var x, y := Written(a[1..]), Written(b[1..]);
      if a[0] < 0 {
        assert Written(a)[1..] == Strokes(-a[0], x) && Written(b)[1..] == Strokes(-b[0], y);
        StrokesTold(-a[0], x, -b[0], y);
      } else {
        StrokesTold(a[0], x, b[0], y);
      }
      WrittenTold(a[1..], b[1..]);
      assert a == [a[0]] + a[1..] && b == [b[0]] + b[1..];
    }
  }

  // ---------------------------------------------------------------- the codec

  function Encoded(ev: Event): string { Written(PutEvent(ev)) }

  /** The event a line is of, if it is of any. */
  ghost function Decoded(line: string): Option<Event> {
    if exists ev :: Encoded(ev) == line then
      var ev :| Encoded(ev) == line;
      Some(ev)
    else None
  }

  /** The hypothesis of all theorems about the journal can be met. */
  lemma LosslessExists() returns (c: Codec)
    ensures Lossless(c)
  {
    c := Codec(ev => Encoded(ev), line => Decoded(line), _ => 0, _ => 0);
    forall ev: Event ensures NoNewline(c.enc(ev)) && c.dec(c.enc(ev)) == Some(ev) {
      var line := Encoded(ev);
      WrittenIsOneLine(PutEvent(ev));
      var read := Decoded(line).value;
      assert Encoded(read) == line;
      WrittenTold(PutEvent(read), PutEvent(ev));
      EventTold(read, ev);
    }
  }
}
