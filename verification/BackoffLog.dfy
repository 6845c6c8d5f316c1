/**
 Request-log rows and the merging of locally suppressed ("backoff") rows.
 A row with a key stands for every suppressed request of one rate-limit window.
 */
module BackoffLog {
  import opened Common

  type Name = s: string | s != "" witness "w"

  /** A stored window identifier: absent, one that happens to read as a legacy label
      for the instant `at`, or any other text (the limiter issues random hex). */
  datatype WindowId = NoWindow | Issued(name: Name) | LegacyText(at: Time)

  /** The window part of a key. Legacy rows are labelled by their retry instant. */
  datatype Label = IssuedLabel(name: string) | RetryLabel(at: Time)

  /** The request metadata that only ever takes part in a key by comparison. */
  datatype Route = Route(model: string, stream: bool, effort: string, mapping: string,
                         errorKind: string, scope: string, status: int)

  datatype Key = Key(windowLabel: Label, credential: string, upstreamModel: string, route: Route)

  /** Tokens per second, as the quotient it is computed from. */
  datatype Rate = Rate(over: int, under: int)

  datatype Row = Row(
    id: string, time: Time, lastTime: Option<Time>, lastRequestId: string, requestCount: int,
    retryAt: Option<Time>, error: string, skipped: bool, window: WindowId,
    credential: string, upstreamModel: string, route: Route, attempts: seq<string>,
    rate: Option<Rate>, completionTokens: int, durationMs: int, ttftMs: int)

  function RequestCount(e: Row): int {
    if e.requestCount > 0 then e.requestCount else 1
  }

  function LastTime(e: Row): Time {
    if e.lastTime.Some? && e.lastTime.value > e.time then e.lastTime.value else e.time
  }

  function OutputRate(e: Row): Option<Rate> {
    if e.skipped || e.completionTokens <= 0 || e.durationMs <= 0 || e.ttftMs < 0 || e.ttftMs >= e.durationMs
    then None
    else Some(Rate(e.completionTokens * 1000, e.durationMs - e.ttftMs))
  }

  function LabelOf(e: Row): Option<Label> {
    match e.window
    case Issued(name) => Some(IssuedLabel(name))
    case LegacyText(at) => Some(RetryLabel(at))
    case NoWindow => if e.retryAt.Some? then Some(RetryLabel(e.retryAt.value)) else None
  }

  function KeyOf(e: Row): Option<Key> {
    if !e.skipped || e.credential == "" || e.upstreamModel == "" || LabelOf(e).None? then None
    else Some(Key(LabelOf(e).value, e.credential, e.upstreamModel, e.route))
  }

  // ---------------------------------------------------------------- merging

  /** The row that replaces `prior` when `e` is folded into it. */
  function MergeRows(prior: Row, e: Row): Row {
    var older := LastTime(prior) > LastTime(e);
    var lastId := if e.lastRequestId != "" then e.lastRequestId else e.id;
    e.(id := prior.id,
       lastRequestId := if older then prior.lastRequestId else lastId,
       lastTime := Some(if older then LastTime(prior) else LastTime(e)),
       error := if older then prior.error else e.error,
       retryAt := if older then prior.retryAt else e.retryAt,
       requestCount := RequestCount(prior) + RequestCount(e),
       time := if prior.time < e.time then prior.time else e.time,
       attempts := [], rate := None)
  }

  /** Index of the last row with the given key, or -1. */
  function LastIndex(rows: seq<Row>, key: Key): (i: int)
    ensures -1 <= i < |rows|
  {
    if rows == [] then -1
    else if KeyOf(rows[|rows| - 1]) == Some(key) then |rows| - 1
    else LastIndex(rows[..|rows| - 1], key)
  }

  lemma {:induction false} LastIndexIs(rows: seq<Row>, key: Key)
    ensures var i := LastIndex(rows, key); i >= 0 ==> KeyOf(rows[i]) == Some(key)
    ensures forall j :: LastIndex(rows, key) < j < |rows| ==> KeyOf(rows[j]) != Some(key)
  {
    hide KeyOf;
    if rows != [] && KeyOf(rows[|rows| - 1]) != Some(key) { LastIndexIs(rows[..|rows| - 1], key); }
  }

  function RemoveAt<T>(s: seq<T>, i: int): seq<T>
    requires 0 <= i < |s|
  {
    s[..i] + s[i + 1..]
  }

  datatype MergeResult = MergeResult(rows: seq<Row>, merged: bool)

  /** What one finished request does to the log. */
  function Merge(rows: seq<Row>, e: Row): MergeResult {
    match KeyOf(e)
    case None => MergeResult(rows + [e], false)
    case Some(key) =>
      var i := LastIndex(rows, key);
      if i < 0 then MergeResult(rows + [e.(requestCount := RequestCount(e), attempts := [])], false)
      else MergeResult(RemoveAt(rows, i) + [MergeRows(rows[i], e)], true)
  }

  function Rated(e: Row): Row { e.(rate := OutputRate(e)) }

  /** Rows are folded one by one, with the output rate recomputed first. */
  function Compact(rows: seq<Row>): seq<Row> {
    if rows == [] then []
    else
      var e := rows[|rows| - 1];
      Merge(Compact(rows[..|rows| - 1]), Rated(e)).rows
  }

  function Truncate(rows: seq<Row>, retention: nat): seq<Row> {
    if |rows| > retention then rows[|rows| - retention..] else rows
  }

  // ---------------------------------------------------------------- the loops of the program

  method MergeBackoffLog(logs: seq<Row>, e: Row) returns (rows: seq<Row>, merged: bool)
    ensures MergeResult(rows, merged) == Merge(logs, e) && rows != []
  {
    hide KeyOf;
    var key := KeyOf(e);
    var row := e;
    if key.Some? {
      LastIndexIs(logs, key.value);
      var i := |logs| - 1;
      while i >= 0
        invariant -1 <= i < |logs|
        invariant LastIndex(logs, key.value) <= i
      {
        if KeyOf(logs[i]) == key {
          var prior := logs[i];
          var latest, lastId := LastTime(row), row.id;
          if row.lastRequestId != "" {
            lastId := row.lastRequestId;
          }
          if LastTime(prior) > latest {
            latest, lastId := LastTime(prior), prior.lastRequestId;
            row := row.(error := prior.error, retryAt := prior.retryAt);
          }
          row := row.(requestCount := RequestCount(prior) + RequestCount(row));
          row := row.(id := prior.id, lastRequestId := lastId, lastTime := Some(latest));
          if prior.time < row.time {
            row := row.(time := prior.time);
          }
          row := row.(attempts := [], rate := None);
          return logs[..i] + logs[i + 1..] + [row], true;
        }
        i := i - 1;
      }
      row := row.(requestCount := RequestCount(row));
      row := row.(attempts := []);
    }
    return logs + [row], false;
  }

  method CompactBackoffLogs(logs: seq<Row>) returns (out: seq<Row>)
    ensures out == Compact(logs)
  {
    out := [];
    for n := 0 to |logs|
      invariant out == Compact(logs[..n])
    {
      var e := logs[n].(rate := OutputRate(logs[n]));
      assert logs[..n + 1][..n] == logs[..n];
      var merged;
      out, merged := MergeBackoffLog(out, e);
    }
    assert logs[..|logs|] == logs;
  }

  // ---------------------------------------------------------------- keys survive merging

  /** A row whose window identifier cannot be mistaken for a legacy label. */
  predicate Plain(e: Row) { !e.window.LegacyText? }

  predicate AllPlain(rows: seq<Row>) { forall i :: 0 <= i < |rows| ==> Plain(rows[i]) }

  /** The exact condition under which folding `e` into `prior` moves the row to another key:
      `e` takes its label from its own retry instant, and the merge replaces that instant. */
  predicate LabelDrifts(prior: Row, e: Row) {
    e.window.NoWindow? && LastTime(prior) > LastTime(e) && prior.retryAt != e.retryAt
  }

  lemma MergeKeepsKey(prior: Row, e: Row)
    requires KeyOf(prior).Some? && KeyOf(prior) == KeyOf(e)
    ensures KeyOf(MergeRows(prior, e)) == KeyOf(e) <==> !LabelDrifts(prior, e)
    ensures Plain(prior) ==> !LabelDrifts(prior, e)
    ensures Plain(prior) && Plain(e) ==> Plain(MergeRows(prior, e))
  {
    var m := MergeRows(prior, e);
    assert m.window == e.window && m.route == e.route;
    if LabelDrifts(prior, e) {
      assert LabelOf(e) == Some(RetryLabel(e.retryAt.value));
      assert m.retryAt == prior.retryAt;
    }
  }

  /** Such rows exist: a window identifier that spells a legacy label collides with a legacy row. */
  function Suppressed(id: string, time: Time, retryAt: Time, window: WindowId): Row {
    Row(id, time, None, "", 1, Some(retryAt), "", true, window, "c", "u", Route("m", false, "", "", "", "", 429), [],
        None, 0, 0, 0)
  }

  lemma LabelDriftExample() returns (prior: Row, e: Row)
    ensures prior == Suppressed("a", 9, 2, LegacyText(1)) && e == Suppressed("b", 5, 1, NoWindow)
    ensures KeyOf(prior).Some? && KeyOf(prior) == KeyOf(e) && LabelDrifts(prior, e)
    ensures KeyOf(MergeRows(prior, e)) != KeyOf(e)
  {
    prior, e := Suppressed("a", 9, 2, LegacyText(1)), Suppressed("b", 5, 1, NoWindow);
    MergeKeepsKey(prior, e);
  }

  /** Folding `e` into the log moves a row to another key. */
  predicate Drifts(rows: seq<Row>, e: Row) {
    Merge(rows, e).merged && LabelDrifts(rows[LastIndex(rows, KeyOf(e).value)], e)
  }

  /** It moves the row to a key that another row already has. */
  predicate Collides(rows: seq<Row>, e: Row) {
    && Drifts(rows, e)
    && var i := LastIndex(rows, KeyOf(e).value);
       var key := KeyOf(MergeRows(rows[i], e));
       key.Some? && exists j :: 0 <= j < |rows| && j != i && KeyOf(rows[j]) == key
  }

  /** It leaves the row without a key. */
  predicate LosesKey(rows: seq<Row>, e: Row) {
    Drifts(rows, e) && KeyOf(MergeRows(rows[LastIndex(rows, KeyOf(e).value)], e)).None?
  }

  /** No fold of a compaction drifts; collides; leaves a row without a key. */
  predicate NoneDrifts(rows: seq<Row>) {
    rows == [] || (NoneDrifts(rows[..|rows| - 1]) && !Drifts(Compact(rows[..|rows| - 1]), Rated(rows[|rows| - 1])))
  }

  predicate NoneCollides(rows: seq<Row>) {
    rows == [] || (NoneCollides(rows[..|rows| - 1]) && !Collides(Compact(rows[..|rows| - 1]), Rated(rows[|rows| - 1])))
  }

  predicate NoneLosesKey(rows: seq<Row>) {
    rows == [] || (NoneLosesKey(rows[..|rows| - 1]) && !LosesKey(Compact(rows[..|rows| - 1]), Rated(rows[|rows| - 1])))
  }

  // ---------------------------------------------------------------- normal form

  ghost predicate DistinctKeys(rows: seq<Row>) {
    forall i, j :: 0 <= i < j < |rows| && KeyOf(rows[i]).Some? ==> KeyOf(rows[i]) != KeyOf(rows[j])
  }

  /** A row that has been through the log once: nothing is left to recompute. */
  predicate Settled(e: Row) {
    e.rate == OutputRate(e) && (KeyOf(e).Some? ==> e.requestCount > 0 && e.attempts == [])
  }

  predicate AllSettled(rows: seq<Row>) { forall i :: 0 <= i < |rows| ==> Settled(rows[i]) }

  ghost predicate Normal(rows: seq<Row>) { DistinctKeys(rows) && AllSettled(rows) }

  /** The two outcomes of a merge: `x` goes to the end, either alone or in place of row `i`. */
  lemma MergeShape(rows: seq<Row>, e: Row) returns (i: int, x: Row)
    ensures -1 <= i < |rows|
    ensures i == if KeyOf(e).Some? then LastIndex(rows, KeyOf(e).value) else -1
    ensures KeyOf(x) == KeyOf(e) <==> !Drifts(rows, e)
    ensures Drifts(rows, e) ==> i >= 0
    ensures e.rate == OutputRate(e) ==> Settled(x)
    ensures RequestCount(x) == RequestCount(e) + if i < 0 then 0 else RequestCount(rows[i])
    ensures Merge(rows, e) == MergeResult((if i < 0 then rows else RemoveAt(rows, i)) + [x], i >= 0)
    ensures i >= 0 ==> KeyOf(e).Some? && KeyOf(rows[i]) == KeyOf(e) && x == MergeRows(rows[i], e)
    ensures i < 0 && KeyOf(e).Some? ==> forall j :: 0 <= j < |rows| ==> KeyOf(rows[j]) != KeyOf(e)
    ensures DistinctKeys(rows) && KeyOf(e).Some? ==> forall j :: 0 <= j < |rows| && j != i ==>
              KeyOf(rows[j]) != KeyOf(e)
    ensures i < 0 ==> x.id == e.id && x.time == e.time && LastTime(x) == LastTime(e) && EndsAs(x, [e], 0)
    ensures i < 0 ==> x.window == e.window
    ensures i < 0 && Settled(e) ==> x == e
    ensures KeyOf(e).None? ==> x == e
    ensures KeyOf(e).Some? ==> x.requestCount == RequestCount(x)
  {
    i := if KeyOf(e).Some? then LastIndex(rows, KeyOf(e).value) else -1;
    if KeyOf(e).Some? { LastIndexIs(rows, KeyOf(e).value); }
    if i >= 0 {
      MergeKeepsKey(rows[i], e);
      x := MergeRows(rows[i], e);
    } else if KeyOf(e).Some? {
      x := e.(requestCount := RequestCount(e), attempts := []);
    } else {
      x := e;
    }
  }

  lemma DistinctAfter(rows: seq<Row>, i: int, x: Row)
    requires -1 <= i < |rows| && DistinctKeys(rows)
    ensures DistinctKeys((if i < 0 then rows else RemoveAt(rows, i)) + [x]) <==>
              KeyOf(x).None? || forall j :: 0 <= j < |rows| && j != i ==> KeyOf(rows[j]) != KeyOf(x)
  {
    hide KeyOf;
    var kept := if i < 0 then rows else RemoveAt(rows, i);
    var next := kept + [x];
    if DistinctKeys(next) && KeyOf(x).Some? {
      forall j | 0 <= j < |rows| && j != i ensures KeyOf(rows[j]) != KeyOf(x) {
        var n := if i < 0 || j < i then j else j - 1;
        assert next[n] == rows[j] && next[|kept|] == x;
      }
    }
  }

  /** A merge keeps the normal form exactly when it does not collide. */
  lemma MergeKeepsNormal(rows: seq<Row>, e: Row)
    requires Normal(rows) && e.rate == OutputRate(e)
    ensures Normal(Merge(rows, e).rows) <==> !Collides(rows, e)
    ensures |Merge(rows, e).rows| >= 1 && (!Drifts(rows, e) ==> !Collides(rows, e))
  {
    var i, x := MergeShape(rows, e);
    hide *;
    NormalParts(rows);
    NormalParts(Merge(rows, e).rows);
    MoreSettled(rows, i, x);
    DistinctAfter(rows, i, x);
    CollidesIs(rows, e, i, x);
  }

  lemma NormalParts(rows: seq<Row>)
    ensures Normal(rows) <==> DistinctKeys(rows) && AllSettled(rows)
  {}

  /** A collision, by the row the merge leaves. */
  lemma CollidesIs(rows: seq<Row>, e: Row, i: int, x: Row)
    requires i == if KeyOf(e).Some? then LastIndex(rows, KeyOf(e).value) else -1
    requires i >= 0 ==> i < |rows| && x == MergeRows(rows[i], e)
    requires Drifts(rows, e) ==> i >= 0
    requires KeyOf(x) == KeyOf(e) <==> !Drifts(rows, e)
    requires DistinctKeys(rows)
    requires KeyOf(e).Some? ==> forall j :: 0 <= j < |rows| && j != i ==> KeyOf(rows[j]) != KeyOf(e)
    ensures Collides(rows, e) <==> KeyOf(x).Some? && exists j :: 0 <= j < |rows| && j != i && KeyOf(rows[j]) == KeyOf(x)
  {
    hide KeyOf, MergeRows, LabelDrifts, Merge;
  }

  lemma TruncateKeepsNormal(rows: seq<Row>, retention: nat)
    requires Normal(rows)
    ensures Normal(Truncate(rows, retention))
  {}

  lemma MergeSettles(rows: seq<Row>, e: Row)
    requires AllSettled(rows) && e.rate == OutputRate(e)
    ensures AllSettled(Merge(rows, e).rows)
    ensures |Merge(rows, e).rows| == if Merge(rows, e).merged then |rows| else |rows| + 1
    ensures !Merge(rows, e).merged && Settled(e) ==> Merge(rows, e).rows == rows + [e]
  {
    var i, x := MergeShape(rows, e);
    hide *;
    MoreSettled(rows, i, x);
  }

  lemma MoreSettled(rows: seq<Row>, i: int, x: Row)
    requires -1 <= i < |rows| && AllSettled(rows) && Settled(x)
    ensures var next := (if i < 0 then rows else RemoveAt(rows, i)) + [x];
            AllSettled(next) && |next| == if i < 0 then |rows| + 1 else |rows|
  {
    hide Settled;
  }

  lemma {:induction false} CompactIsSettled(rows: seq<Row>)
    ensures AllSettled(Compact(rows)) && |Compact(rows)| <= |rows|
  {
    hide Merge, AllSettled, Rated, OutputRate;
    if rows == [] {
      NothingIsSettled();
    } else {
      CompactIsSettled(rows[..|rows| - 1]);
      RatedIs(rows[|rows| - 1]);
      MergeSettles(Compact(rows[..|rows| - 1]), Rated(rows[|rows| - 1]));
    }
  }

  lemma NothingIsSettled()
    ensures AllSettled([])
  {}

  /** What holds of a list and of all lists it begins with. */
  ghost predicate AtEveryPrefix(rows: seq<Row>, p: seq<Row> -> bool) { forall n :: 0 <= n <= |rows| ==> p(rows[..n]) }

  lemma PrefixesOfNone(p: seq<Row> -> bool)
    ensures AtEveryPrefix([], p) <==> p([])
  {
    var none: seq<Row> := [];
    assert none[..0] == none;
  }

  lemma PrefixesOf(rows: seq<Row>, p: seq<Row> -> bool)
    requires rows != []
    ensures AtEveryPrefix(rows, p) <==> AtEveryPrefix(rows[..|rows| - 1], p) && p(rows)
  {
    var front := rows[..|rows| - 1];
    assert rows[..|rows|] == rows;
    assert forall n :: 0 <= n <= |front| ==> rows[..n] == front[..n];
  }

  lemma RatedIs(e: Row)
    ensures Rated(e) == e.(rate := OutputRate(e)) && Rated(e).rate == OutputRate(Rated(e))
            && (Settled(e) ==> Rated(e) == e)
  {}

  ghost function CompactsNormal(): seq<Row> -> bool { (rows: seq<Row>) => Normal(Compact(rows)) }

  /** One row per key, at the end and on the way there, exactly when no fold collides. */
  lemma {:induction false} CompactIsNormal(rows: seq<Row>)
    ensures NoneCollides(rows) <==> AtEveryPrefix(rows, CompactsNormal())
    ensures NoneCollides(rows) ==> Normal(Compact(rows))
  {
    hide Normal, Collides, Merge, OutputRate, Rated, AtEveryPrefix;
    assert rows[..|rows|] == rows;
    if rows == [] {
      EmptyIsNormal();
      PrefixesOfNone(CompactsNormal());
    } else {
      var front := rows[..|rows| - 1];
      assert front[..|front|] == front;
      CompactIsNormal(front);
      PrefixesOf(rows, CompactsNormal());
      RatedIs(rows[|rows| - 1]);
      if Normal(Compact(front)) { MergeKeepsNormal(Compact(front), Rated(rows[|rows| - 1])); }
    }
  }

  lemma EmptyIsNormal()
    ensures Normal(Compact([]))
  {}

  lemma {:induction false} CompactFixesNormal(rows: seq<Row>)
    requires Normal(rows)
    ensures Compact(rows) == rows
  {
    if rows != [] {
      var front, e := rows[..|rows| - 1], rows[|rows| - 1];
      CompactFixesNormal(front);
      assert e.(rate := OutputRate(e)) == e;
      var i, x := MergeShape(front, e);
      hide *;
      assert rows == front + [e];
    }
  }

  lemma Unmerged(rows: seq<Row>, e: Row)
    requires DistinctKeys(rows) && !Merge(rows, e).merged
    ensures DistinctKeys(rows + [e])
  {
    var i, x := MergeShape(rows, e);
    hide KeyOf, Merge;
  }

  lemma {:induction false} CompactShortens(rows: seq<Row>)
    requires |Compact(rows)| == |rows| && AllSettled(rows)
    ensures DistinctKeys(rows)
  {
    if rows != [] {
      var front, e := rows[..|rows| - 1], rows[|rows| - 1];
      CompactIsSettled(front);
      RatedIs(e);
      MergeSettles(Compact(front), e);
      assert !Merge(Compact(front), e).merged;
      hide KeyOf, Settled, Rated, Compact, DistinctKeys;
      CompactShortens(front);
      CompactFixesNormal(front);
      Unmerged(front, e);
      assert rows == front + [e];
    }
  }

  /** Compacting again changes nothing exactly when compacting once has left each key once; so it
      is wherever no fold collides. */
  lemma CompactTwice(rows: seq<Row>)
    ensures Compact(Compact(rows)) == Compact(rows) <==> DistinctKeys(Compact(rows))
    ensures NoneCollides(rows) ==> Compact(Compact(rows)) == Compact(rows)
  {
    hide DistinctKeys, Compact, NoneCollides, AllSettled;
    CompactIsSettled(rows);
    if DistinctKeys(Compact(rows)) { CompactFixesNormal(Compact(rows)); }
    if Compact(Compact(rows)) == Compact(rows) { CompactShortens(Compact(rows)); }
    CompactIsNormal(rows);
  }

  /** Window identifiers that cannot be mistaken for legacy labels rule all of this out. */
  lemma {:induction false} PlainRowsDoNotDrift(rows: seq<Row>)
    requires AllPlain(rows)
    ensures AllPlain(Compact(rows)) && NoneDrifts(rows)
  {
    hide Drifts, Merge, Rated;
    if rows != [] {
      var front, e := rows[..|rows| - 1], rows[|rows| - 1];
      PlainRowsDoNotDrift(front);
      RatedIs(e);
      MergeKeepsPlain(Compact(front), Rated(e));
    }
  }

  lemma {:induction false} MergeKeepsPlain(rows: seq<Row>, e: Row)
    requires AllPlain(rows) && Plain(e)
    ensures AllPlain(Merge(rows, e).rows) && !Drifts(rows, e)
  {
    PlainNeverDrifts(rows, e);
    var i, x := MergeShape(rows, e);
    hide *;
    PlainMore(rows, e, i, x);
  }

  /** The row a merge leaves has the new row's window. */
  lemma PlainMore(rows: seq<Row>, e: Row, i: int, x: Row)
    requires AllPlain(rows) && Plain(e) && -1 <= i < |rows|
    requires i >= 0 ==> x == MergeRows(rows[i], e)
    requires i < 0 ==> x.window == e.window
    ensures AllPlain((if i < 0 then rows else RemoveAt(rows, i)) + [x])
  {}

  lemma PlainNeverDrifts(rows: seq<Row>, e: Row)
    requires AllPlain(rows)
    ensures !Drifts(rows, e)
  {
    if Merge(rows, e).merged {
      LastIndexIs(rows, KeyOf(e).value);
      MergeKeepsKey(rows[LastIndex(rows, KeyOf(e).value)], e);
    }
  }

  lemma {:induction false} DriftFreeIsCollisionFree(rows: seq<Row>)
    requires NoneDrifts(rows)
    ensures NoneCollides(rows) && NoneLosesKey(rows)
  {
    hide Drifts;
    if rows != [] { DriftFreeIsCollisionFree(rows[..|rows| - 1]); }
  }

  /** A list whose compaction ends with two rows of one key, which compacting again would merge. */
  lemma {:induction false} DriftBreaksCompaction() returns (rows: seq<Row>)
    ensures !NoneCollides(rows) && !DistinctKeys(Compact(rows)) && Compact(Compact(rows)) != Compact(rows)
  {
    var prior, e := LabelDriftExample();
    var first := Suppressed("z", 1, 2, NoWindow);
    rows := [first, prior, e];
    assert Rated(first) == first && Rated(prior) == prior && Rated(e) == e;
    assert KeyOf(first).Some? && KeyOf(prior).Some? && KeyOf(first) != KeyOf(prior);
    var m := MergeRows(prior, e);
    assert KeyOf(m) == KeyOf(first);
    hide KeyOf, MergeRows, OutputRate, LabelDrifts, Rated, Compact, Merge;
    CompactThree(first, prior, e);
    assert KeyOf(([first] + [m])[0]) == KeyOf(([first] + [m])[1]);
    CompactTwice(rows);
    CompactIsNormal(rows);
  }

  /** A row that stands alone, and two that are one. */
  lemma CompactThree(first: Row, prior: Row, e: Row)
    requires Rated(first) == first && Rated(prior) == prior && Rated(e) == e
    requires RequestCount(first) == first.requestCount && first.attempts == []
    requires RequestCount(prior) == prior.requestCount && prior.attempts == []
    requires KeyOf(first).Some? && KeyOf(prior).Some? && KeyOf(first) != KeyOf(prior) && KeyOf(e) == KeyOf(prior)
    ensures Compact([first, prior, e]) == [first] + [MergeRows(prior, e)]
  {
    hide KeyOf, MergeRows, OutputRate, Rated, RequestCount, Compact, Merge;
    var none: seq<Row> := [];
    assert [first][..0] == none && [first, prior][..1] == [first] && [first, prior, e][..2] == [first, prior];
    CompactOfMore([first]);
    CompactOfMore([first, prior]);
    CompactOfMore([first, prior, e]);
    NothingCompacts();
    MergeAlone(none, first);
    assert none + [first] == [first];
    MergeAlone([first], prior);
    assert [first] + [prior] == [first, prior];
    MergeIntoLast([first, prior], e);
  }

  lemma MergeAlone(rows: seq<Row>, e: Row)
    requires KeyOf(e).Some? && RequestCount(e) == e.requestCount && e.attempts == []
    requires forall j :: 0 <= j < |rows| ==> KeyOf(rows[j]) != KeyOf(e)
    ensures Merge(rows, e).rows == rows + [e]
  {
    LastIndexIs(rows, KeyOf(e).value);
    hide KeyOf;
  }

  lemma MergeIntoLast(rows: seq<Row>, e: Row)
    requires rows != [] && KeyOf(e).Some? && KeyOf(rows[|rows| - 1]) == KeyOf(e)
    ensures Merge(rows, e).rows == rows[..|rows| - 1] + [MergeRows(rows[|rows| - 1], e)]
  {
    hide KeyOf;
  }

  lemma NothingCompacts()
    ensures Compact([]) == []
  {}

  // ---------------------------------------------------------------- what compaction preserves

  function Total(rows: seq<Row>): int {
    if rows == [] then 0 else Total(rows[..|rows| - 1]) + RequestCount(rows[|rows| - 1])
  }

  lemma {:induction false} TotalOfConcat(a: seq<Row>, b: seq<Row>)
    ensures Total(a + b) == Total(a) + Total(b)
  {
    hide RequestCount;
    if b == [] {
      assert a + b == a;
    } else {
      TotalOfConcat(a, b[..|b| - 1]);
      assert (a + b)[..|a + b| - 1] == a + b[..|b| - 1];
    }
  }

  lemma {:induction false} TotalWithout(rows: seq<Row>, i: int)
    requires 0 <= i < |rows|
    ensures Total(RemoveAt(rows, i)) == Total(rows) - RequestCount(rows[i])
  {
    hide RequestCount;
    TotalOfConcat(rows[..i], rows[i + 1..]);
    TotalOfConcat(rows[..i + 1], rows[i + 1..]);
    assert rows == rows[..i + 1] + rows[i + 1..];
    assert rows[..i + 1][..i] == rows[..i];
  }

  lemma MergeConservesTotal(rows: seq<Row>, e: Row)
    ensures Total(Merge(rows, e).rows) == Total(rows) + RequestCount(e)
  {
    var i, x := MergeShape(rows, e);
    var kept := if i < 0 then rows else RemoveAt(rows, i);
    assert (kept + [x])[..|kept|] == kept;
    if i >= 0 { TotalWithout(rows, i); }
  }

  lemma {:induction false} CompactConservesTotal(rows: seq<Row>)
    ensures Total(Compact(rows)) == Total(rows)
  {
    if rows != [] {
      var e := rows[|rows| - 1];
      CompactConservesTotal(rows[..|rows| - 1]);
      MergeConservesTotal(Compact(rows[..|rows| - 1]), Rated(e));
    }
  }

  /** The rows of one key, in order. */
  function Members(rows: seq<Row>, key: Option<Key>): seq<Row> {
    if rows == [] then []
    else
      var e := rows[|rows| - 1];
      Members(rows[..|rows| - 1], key) + if KeyOf(e) == key then [e] else []
  }

  /** No member ended after the n-th, and none behind it in the list as late. */
  predicate EndsLast(ms: seq<Row>, n: nat) {
    n < |ms| && forall i :: 0 <= i < |ms| ==>
      LastTime(ms[i]) <= LastTime(ms[n]) && (i > n ==> LastTime(ms[i]) < LastTime(ms[n]))
  }

  /** The row has the outcome of its n-th member, whose own identifier it notes unless that is its own. */
  predicate EndsAs(r: Row, ms: seq<Row>, n: nat)
    requires n < |ms|
  {
    && r.error == ms[n].error && r.retryAt == ms[n].retryAt
    && r.lastRequestId == if n > 0 && ms[n].lastRequestId == "" then ms[n].id else ms[n].lastRequestId
  }

  /** A merged row stands for exactly these rows: their total count, the first one's identity, the
      smallest interval of time that contains all of theirs, and the outcome of the last to end. */
  ghost predicate Summarizes(r: Row, ms: seq<Row>) {
    && ms != []
    && r.id == ms[0].id
    && r.requestCount == Total(ms)
    && (forall m :: m in ms ==> r.time <= m.time && LastTime(m) <= LastTime(r))
    && (exists m :: m in ms && m.time == r.time)
    && EndsWithLast(r, ms)
  }

  ghost predicate EndsWithLast(r: Row, ms: seq<Row>) {
    exists n: nat :: EndsLast(ms, n) && LastTime(ms[n]) == LastTime(r) && EndsAs(r, ms, n)
  }

  lemma MergeEndsWithLast(prior: Row, e: Row, ms: seq<Row>)
    requires EndsWithLast(prior, ms)
    ensures EndsWithLast(MergeRows(prior, e), ms + [e])
  {
    var n: nat :| EndsLast(ms, n) && LastTime(ms[n]) == LastTime(prior) && EndsAs(prior, ms, n);
    var next: nat := if LastTime(prior) > LastTime(e) then n else |ms|;
    assert EndsLast(ms + [e], next) && EndsAs(MergeRows(prior, e), ms + [e], next);
  }

  lemma {:induction false} TotalPositive(rows: seq<Row>)
    ensures Total(rows) >= |rows|
  {
    if rows != [] { TotalPositive(rows[..|rows| - 1]); }
  }

  lemma MergeRowsSummarizes(prior: Row, e: Row, ms: seq<Row>)
    requires Summarizes(prior, ms)
    ensures Summarizes(MergeRows(prior, e), ms + [e])
  {
    hide EndsWithLast;
    MergeTimes(prior, e);
    MergeEndsWithLast(prior, e, ms);
    TotalPositive(ms);
    TotalOfConcat(ms, [e]);
    TotalOfOne(e);
    hide MergeRows, LastTime, Total, RequestCount;
    var low :| low in ms && low.time == prior.time;
    assert (if prior.time < e.time then low else e) in ms + [e];
  }

  lemma MergeTimes(prior: Row, e: Row)
    ensures var r := MergeRows(prior, e);
            && r.time == Min(prior.time, e.time) && LastTime(r) == Max(LastTime(prior), LastTime(e))
            && r.id == prior.id && r.requestCount == RequestCount(prior) + RequestCount(e)
    ensures prior.requestCount > 0 ==> RequestCount(prior) == prior.requestCount
  {}

  lemma TotalOfOne(e: Row)
    ensures Total([e]) == RequestCount(e)
  {
    hide RequestCount;
    var none: seq<Row> := [];
    assert [e][..0] == none && Total(none) == 0;
  }

  ghost predicate StandsForIts(r: Row, rows: seq<Row>) {
    KeyOf(r).Some? ==> Summarizes(r, Members(rows, KeyOf(r)))
  }

  ghost predicate SummarizedBy(out: seq<Row>, rows: seq<Row>) {
    forall i :: 0 <= i < |out| ==> StandsForIts(out[i], rows)
  }

  ghost predicate HasKey(out: seq<Row>, key: Option<Key>) {
    exists j :: 0 <= j < |out| && KeyOf(out[j]) == key
  }

  ghost predicate CoveredBy(out: seq<Row>, rows: seq<Row>) {
    forall i :: 0 <= i < |rows| && KeyOf(rows[i]).Some? ==> HasKey(out, KeyOf(rows[i]))
  }

  ghost function CompactsCovered(): seq<Row> -> bool { (rows: seq<Row>) => CoveredBy(Compact(rows), rows) }

  /** One row per key, each standing for exactly the rows of that key, if no fold drifts; and only
      then does each key keep a row all the way. */
  lemma {:induction false} CompactSummarizes(rows: seq<Row>)
    ensures NoneDrifts(rows) ==> SummarizedBy(Compact(rows), rows) && CoveredBy(Compact(rows), rows)
    ensures NoneDrifts(rows) <==> AtEveryPrefix(rows, CompactsCovered())
  {
    hide Drifts, SummarizedBy, CoveredBy, DistinctKeys, Merge, AtEveryPrefix;
    assert rows[..|rows|] == rows;
    if rows == [] {
      EmptyIsCovered();
      PrefixesOfNone(CompactsCovered());
    } else {
      var front, e := rows[..|rows| - 1], rows[|rows| - 1];
      assert front[..|front|] == front && rows == front + [e];
      CompactSummarizes(front);
      PrefixesOf(rows, CompactsCovered());
      if NoneDrifts(front) {
        DriftFreeIsCollisionFree(front);
        CompactIsNormal(front);
        if Drifts(Compact(front), Rated(e)) {
          DriftUncovers(Compact(front), front, e);
        } else {
          CompactStep(Compact(front), front, e);
        }
      }
    }
  }

  lemma EmptyIsCovered()
    ensures SummarizedBy(Compact([]), []) && CoveredBy(Compact([]), [])
  {}

  lemma DriftUncovers(out: seq<Row>, front: seq<Row>, e: Row)
    requires DistinctKeys(out) && Drifts(out, Rated(e))
    ensures !CoveredBy(Merge(out, Rated(e)).rows, front + [e])
  {
    RateIsIrrelevant(e, OutputRate(e));
    var i, x := MergeShape(out, Rated(e));
    hide KeyOf, Drifts, MergeRows, DistinctKeys, Merge;
    assert (front + [e])[|front|] == e;
    var next := RemoveAt(out, i) + [x];
    forall j | 0 <= j < |next| ensures KeyOf(next[j]) != KeyOf(e) {
      if j < |next| - 1 { assert next[j] == out[if j < i then j else j + 1]; }
    }
  }

  lemma MembersOfNext(front: seq<Row>, e: Row, key: Option<Key>)
    ensures Members(front + [e], key) == if KeyOf(e) == key then Members(front, key) + [e] else Members(front, key)
  {
    hide KeyOf;
    assert (front + [e])[..|front|] == front;
  }

  lemma RateIsIrrelevant(e: Row, rate: Option<Rate>)
    ensures var y := e.(rate := rate);
            KeyOf(y) == KeyOf(e) && RequestCount(y) == RequestCount(e) && LastTime(y) == LastTime(e)
            && forall prior :: MergeRows(prior, y) == MergeRows(prior, e)
  {}

  lemma CompactStep(out: seq<Row>, front: seq<Row>, e: Row)
    requires DistinctKeys(out) && SummarizedBy(out, front) && CoveredBy(out, front) && !Drifts(out, Rated(e))
    ensures SummarizedBy(Merge(out, Rated(e)).rows, front + [e])
    ensures CoveredBy(Merge(out, Rated(e)).rows, front + [e])
  {
    hide *;
    var y := e.(rate := OutputRate(e));
    assert Rated(e) == y by { RatedIs(e); }
    RateIsIrrelevant(e, OutputRate(e));
    var i, x := MergeShape(out, y);
    if KeyOf(e).Some? {
      NewRowSummarizes(out, front, e, i, x);
    } else {
      UnkeyedStands(x, front + [e]);
    }
    RowsStaySummarized(out, front, e, i, x);
    RowsStayCovered(out, front, e, i, x);
  }

  lemma UnkeyedStands(x: Row, rows: seq<Row>)
    requires KeyOf(x).None?
    ensures StandsForIts(x, rows)
  {}

  lemma RowStaysSummarized(r: Row, front: seq<Row>, e: Row)
    requires StandsForIts(r, front) && (KeyOf(r).Some? ==> KeyOf(r) != KeyOf(e))
    ensures StandsForIts(r, front + [e])
  {
    hide KeyOf;
    MembersOfNext(front, e, KeyOf(r));
  }

  lemma RowsStaySummarized(out: seq<Row>, front: seq<Row>, e: Row, i: int, x: Row)
    requires SummarizedBy(out, front) && StandsForIts(x, front + [e]) && -1 <= i < |out|
    requires forall j :: 0 <= j < |out| && j != i && KeyOf(e).Some? ==> KeyOf(out[j]) != KeyOf(e)
    ensures SummarizedBy((if i < 0 then out else RemoveAt(out, i)) + [x], front + [e])
  {
    hide KeyOf, StandsForIts;
    var next := (if i < 0 then out else RemoveAt(out, i)) + [x];
    forall j | 0 <= j < |next| ensures StandsForIts(next[j], front + [e]) {
      if j < |next| - 1 {
        var n := if i < 0 || j < i then j else j + 1;
        assert next[j] == out[n];
        RowStaysSummarized(out[n], front, e);
      }
    }
  }

  lemma HasKeyWithout(out: seq<Row>, i: int, key: Option<Key>)
    requires 0 <= i < |out| && KeyOf(out[i]) != key && HasKey(out, key)
    ensures HasKey(RemoveAt(out, i), key)
  {
    hide KeyOf;
    var j :| 0 <= j < |out| && KeyOf(out[j]) == key;
    assert RemoveAt(out, i)[if j < i then j else j - 1] == out[j];
  }

  lemma HasKeyMore(out: seq<Row>, x: Row, key: Option<Key>)
    requires HasKey(out, key) || KeyOf(x) == key
    ensures HasKey(out + [x], key)
  {
    hide KeyOf;
    if HasKey(out, key) {
      var j :| 0 <= j < |out| && KeyOf(out[j]) == key;
      assert (out + [x])[j] == out[j];
    } else {
      assert (out + [x])[|out|] == x;
    }
  }

  lemma RowsStayCovered(out: seq<Row>, front: seq<Row>, e: Row, i: int, x: Row)
    requires CoveredBy(out, front) && KeyOf(x) == KeyOf(e) && -1 <= i < |out|
    requires i >= 0 ==> KeyOf(out[i]) == KeyOf(e)
    ensures CoveredBy((if i < 0 then out else RemoveAt(out, i)) + [x], front + [e])
  {
    hide KeyOf, RemoveAt, HasKey;
    var rows, kept := front + [e], if i < 0 then out else RemoveAt(out, i);
    forall n | 0 <= n < |rows| && KeyOf(rows[n]).Some? ensures HasKey(kept + [x], KeyOf(rows[n])) {
      if n < |front| && KeyOf(front[n]) != KeyOf(e) && i >= 0 {
        HasKeyWithout(out, i, KeyOf(front[n]));
      }
      HasKeyMore(kept, x, KeyOf(rows[n]));
    }
  }

  lemma {:induction false} NoMembers(rows: seq<Row>, key: Option<Key>)
    requires forall n :: 0 <= n < |rows| ==> KeyOf(rows[n]) != key
    ensures Members(rows, key) == []
  {
    hide KeyOf;
    if rows != [] { NoMembers(rows[..|rows| - 1], key); }
  }

  lemma NewRowSummarizes(out: seq<Row>, front: seq<Row>, e: Row, i: int, x: Row)
    requires SummarizedBy(out, front) && CoveredBy(out, front) && KeyOf(e).Some? && -1 <= i < |out|
    requires i < 0 ==> forall j :: 0 <= j < |out| ==> KeyOf(out[j]) != KeyOf(e)
    requires i < 0 ==>
               && x.requestCount == RequestCount(e) && x.id == e.id && x.time == e.time && LastTime(x) == LastTime(e)
               && EndsAs(x, [e], 0)
    requires i >= 0 ==> KeyOf(out[i]) == KeyOf(e) && x == MergeRows(out[i], e)
    requires KeyOf(x) == KeyOf(e)
    ensures StandsForIts(x, front + [e])
  {
    var ms := Members(front, KeyOf(e));
    MembersOfNext(front, e, KeyOf(e));
    if i >= 0 {
      MergeRowsSummarizes(out[i], e, ms);
    } else {
      assert !HasKey(out, KeyOf(e));
      assert forall n :: 0 <= n < |front| ==> KeyOf(front[n]) != KeyOf(e);
      NoMembers(front, KeyOf(e));
      assert ms + [e] == [e] && e in [e];
      assert Total([e]) == RequestCount(e);
      assert EndsLast([e], 0);
    }
  }

  function WithRates(rows: seq<Row>): (out: seq<Row>)
    ensures |out| == |rows|
  {
    if rows == [] then [] else WithRates(rows[..|rows| - 1]) + [Rated(rows[|rows| - 1])]
  }

  /** Rows without a key pass through unmerged and in order, and no others are added to them,
      exactly when no fold leaves a row without its key. */
  lemma {:induction false} CompactKeepsUnkeyed(rows: seq<Row>)
    ensures Members(Compact(rows), None) == WithRates(Members(rows, None)) <==> NoneLosesKey(rows)
    ensures |Members(Compact(rows), None)| >= |Members(rows, None)|
    ensures |Members(Compact(rows), None)| == |Members(rows, None)| ==> NoneLosesKey(rows)
  {
    hide KeyOf, LosesKey, OutputRate, Merge, Rated;
    if rows != [] {
      var front, e := rows[..|rows| - 1], rows[|rows| - 1];
      CompactKeepsUnkeyed(front);
      UnkeyedStep(Compact(front), Rated(e));
      RateIsIrrelevant(e, OutputRate(e));
      RatedIs(e);
      RatesOfMore(Members(front, None), e);
      var loses := LosesKey(Compact(front), Rated(e));
      assert NoneLosesKey(rows) <==> NoneLosesKey(front) && !loses;
      CompactOfMore(rows);
      assert Members(rows, None) == if KeyOf(e).None? then Members(front, None) + [e] else Members(front, None);
      hide NoneLosesKey, Members, Compact, WithRates;
      Tally(Members(Compact(front), None), WithRates(Members(front, None)), Members(Compact(rows), None),
            WithRates(Members(rows, None)), Rated(e), KeyOf(e).None?, loses, NoneLosesKey(front));
    }
  }

  lemma Tally(before: seq<Row>, plain: seq<Row>, after: seq<Row>, next: seq<Row>, y: Row, unkeyed: bool, loses: bool,
              held: bool)
    requires (before == plain <==> held) && |before| >= |plain| && (|before| == |plain| ==> held)
    requires if loses then |after| == |before| + 1 && !unkeyed else after == if unkeyed then before + [y] else before
    requires next == if unkeyed then plain + [y] else plain
    ensures after == next <==> held && !loses
    ensures |after| >= |next| && (|after| == |next| ==> held && !loses)
  {
    if unkeyed && before + [y] == plain + [y] {
      assert before == (before + [y])[..|before|] && plain == (plain + [y])[..|plain|];
    }
  }

  lemma CompactOfMore(rows: seq<Row>)
    requires rows != []
    ensures Compact(rows) == Merge(Compact(rows[..|rows| - 1]), Rated(rows[|rows| - 1])).rows
  {}

  lemma RatesOfMore(rows: seq<Row>, e: Row)
    ensures WithRates(rows + [e]) == WithRates(rows) + [Rated(e)]
  {
    assert (rows + [e])[..|rows|] == rows;
  }

  lemma UnkeyedStep(out: seq<Row>, y: Row)
    ensures LosesKey(out, y) ==> |Members(Merge(out, y).rows, None)| == |Members(out, None)| + 1 && KeyOf(y).Some?
    ensures !LosesKey(out, y) ==>
              Members(Merge(out, y).rows, None) ==
              if KeyOf(y).None? then Members(out, None) + [y] else Members(out, None)
  {
    var i, x := MergeShape(out, y);
    hide KeyOf, MergeRows;
    MembersOfNext(if i < 0 then out else RemoveAt(out, i), x, None);
    if i >= 0 { MembersWithout(out, i, None); }
  }

  lemma MembersWithout(rows: seq<Row>, i: int, key: Option<Key>)
    requires 0 <= i < |rows| && KeyOf(rows[i]) != key
    ensures Members(RemoveAt(rows, i), key) == Members(rows, key)
  {
    hide KeyOf;
    MembersOfConcat(rows[..i], rows[i + 1..], key);
    MembersOfConcat(rows[..i] + [rows[i]], rows[i + 1..], key);
    MembersOfNext(rows[..i], rows[i], key);
    assert rows == rows[..i] + [rows[i]] + rows[i + 1..];
  }

  lemma {:induction false} MembersOfConcat(a: seq<Row>, b: seq<Row>, key: Option<Key>)
    ensures Members(a + b, key) == Members(a, key) + Members(b, key)
  {
    hide KeyOf;
    if b == [] {
      assert a + b == a;
    } else {
      MembersOfConcat(a, b[..|b| - 1], key);
      assert (a + b)[..|a + b| - 1] == a + b[..|b| - 1];
    }
  }
}
