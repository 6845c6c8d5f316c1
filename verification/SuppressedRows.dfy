/** Which suppressed requests share a log row, told from their fields, and what becomes of them there. */
module SuppressedRows {
  import opened Common
  import opened BackoffLog

  /** `a` names its window by a text that reads like the label `b` gets from its retry instant. */
  predicate ReadsLike(a: Row, b: Row) { a.window.LegacyText? && b.window.NoWindow? && b.retryAt == Some(a.window.at) }

  /** Equal identifiers; or none, and the same retry instant; or a text that reads like the other's label. */
  predicate SameWindow(a: Row, b: Row) {
    || (!a.window.NoWindow? && a.window == b.window)
    || (a.window.NoWindow? && b.window.NoWindow? && a.retryAt.Some? && a.retryAt == b.retryAt)
    || ReadsLike(a, b) || ReadsLike(b, a)
  }

  /** Both were held back for the same credential, model and route, in one window. */
  predicate Alike(a: Row, b: Row) {
    && a.skipped && b.skipped && a.credential == b.credential != "" && a.upstreamModel == b.upstreamModel != ""
    && a.route == b.route && SameWindow(a, b)
  }

  lemma AlikeIsSameKey(a: Row, b: Row)
    ensures Alike(a, b) <==> KeyOf(a).Some? && KeyOf(a) == KeyOf(b)
  {}

  /** A request joins a row exactly when the log has one like it. */
  lemma MergedIff(rows: seq<Row>, e: Row)
    ensures Merge(rows, e).merged <==> exists i :: 0 <= i < |rows| && Alike(rows[i], e)
  {
    forall i | 0 <= i < |rows| ensures Alike(rows[i], e) <==> KeyOf(e).Some? && KeyOf(rows[i]) == KeyOf(e) {
      AlikeIsSameKey(rows[i], e);
    }
    if KeyOf(e).Some? { LastIndexIs(rows, KeyOf(e).value); }
    hide KeyOf, Alike;
  }

  /** The row that stands for `prior` and `e`: the first one's name, both counts, the hull of their
      times, and the outcome of whichever was the last to be held back. */
  predicate StandsForBoth(r: Row, prior: Row, e: Row) {
    var behind := LastTime(prior) > LastTime(e);
    var late := if behind then prior else e;
    && r.id == prior.id && r.requestCount == RequestCount(prior) + RequestCount(e)
    && r.time == Min(prior.time, e.time) && r.lastTime == Some(Max(LastTime(prior), LastTime(e)))
    && r.error == late.error && r.retryAt == late.retryAt
    && r.lastRequestId == (if !behind && e.lastRequestId == "" then e.id else late.lastRequestId)
    && r.attempts == [] && r.rate.None?
    && r.window == e.window && r.completionTokens == e.completionTokens
    && r.durationMs == e.durationMs && r.ttftMs == e.ttftMs
    && r.skipped && r.credential == e.credential && r.upstreamModel == e.upstreamModel && r.route == e.route
  }

  /** It joins the newest such row, which goes to the end of the log; the others stay in order. */
  lemma JoinsNewest(rows: seq<Row>, e: Row) returns (i: nat)
    requires Merge(rows, e).merged
    ensures i < |rows| && Alike(rows[i], e) && forall j :: i < j < |rows| ==> !Alike(rows[j], e)
    ensures var m := Merge(rows, e).rows;
            |m| == |rows| && m[..|m| - 1] == rows[..i] + rows[i + 1..] && StandsForBoth(m[|m| - 1], rows[i], e)
  {
    var key := KeyOf(e).value;
    LastIndexIs(rows, key);
    i := LastIndex(rows, key);
    forall j | i <= j < |rows| ensures Alike(rows[j], e) <==> j == i { AlikeIsSameKey(rows[j], e); }
    JoinedRow(rows[i], e);
    hide KeyOf, Alike, MergeRows, StandsForBoth;
  }

  lemma JoinedRow(prior: Row, e: Row)
    requires KeyOf(e).Some?
    ensures StandsForBoth(MergeRows(prior, e), prior, e)
  {}

  /** Any other request gets a row of its own at the end. */
  lemma StaysAlone(rows: seq<Row>, e: Row)
    requires !Merge(rows, e).merged
    ensures Merge(rows, e).rows ==
            rows + [if Alike(e, e) then e.(requestCount := RequestCount(e), attempts := []) else e]
  {
    AlikeIsSameKey(e, e);
  }

  ghost predicate AllAlike(rows: seq<Row>) { forall a, b :: a in rows && b in rows ==> Alike(a, b) }

  /** However many requests were held back in one window the limiter issued: they share one row,
      which counts them all. */
  lemma {:induction false} OneRowPerWindow(rows: seq<Row>)
    requires rows != [] && AllAlike(rows) && AllPlain(rows)
    ensures |Compact(rows)| == 1 && Compact(rows)[0].requestCount == Total(rows) >= 1
    ensures Plain(Compact(rows)[0]) && forall r :: r in rows ==> KeyOf(Compact(rows)[0]) == KeyOf(r)
  {
    hide KeyOf, Alike;
    var front, e := rows[..|rows| - 1], rows[|rows| - 1];
    assert rows == front + [e];
    forall r | r in rows ensures KeyOf(r).Some? && KeyOf(r) == KeyOf(e) { AlikeIsSameKey(r, e); }
    assert Plain(e);
    if front == [] {
      NothingCompacts();
      OneMore([], e);
      assert Total(front) == 0;
    } else {
      OneRowPerWindow(front);
      assert Compact(front) == [Compact(front)[0]] && front[0] in rows;
      OneMore(Compact(front), e);
    }
    hide Merge, Rated;
  }

  /** A plain row that meets none or one of its kind. */
  lemma OneMore(out: seq<Row>, e: Row)
    requires |out| <= 1 && KeyOf(e).Some? && Plain(e)
    requires out != [] ==> KeyOf(out[0]) == KeyOf(e) && Plain(out[0]) && out[0].requestCount == RequestCount(out[0])
    ensures var m := Merge(out, Rated(e)).rows;
            && |m| == 1 && KeyOf(m[0]) == KeyOf(e) && Plain(m[0])
            && m[0].requestCount == RequestCount(e) + (if out == [] then 0 else out[0].requestCount) >= 1
  {
    RatedIs(e);
    RateIsIrrelevant(e, OutputRate(e));
    hide Rated, OutputRate, KeyOf;
    if out == [] {
      AloneInLog(Rated(e));
    } else {
      MergeKeepsKey(out[0], Rated(e));
      MergeIntoLast(out, Rated(e));
      assert out[..0] == [];
    }
  }

  lemma AloneInLog(e: Row)
    requires KeyOf(e).Some?
    ensures var m := Merge([], e).rows; |m| == 1 && m[0].requestCount == RequestCount(e)
    ensures KeyOf(Merge([], e).rows[0]) == KeyOf(e) && Merge([], e).rows[0].window == e.window
  {}
}
