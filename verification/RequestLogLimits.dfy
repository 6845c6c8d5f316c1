/** How large the request log gets, and how it comes back from storage that fails for a while. */
module RequestLogLimits {
  import opened Common
  import opened BackoffLog
  import opened SuppressedRows
  import opened RequestLogStore
  import opened RequestLogRecovery

  // ---------------------------------------------------------------- rows

  /** Logging keeps the newest rows of the merged log, as many as the retention allows. */
  lemma AppendKeepsNewest(rows: seq<Row>, e: Row, retention: nat)
    requires retention >= 1
    ensures var all, kept := Merge(rows, e).rows, AppendRows(rows, e, retention);
            |kept| == Min(|all|, retention) && kept == all[|all| - |kept|..]
  {
    hide Merge;
  }

  /** The newest of the rows, as many as allowed. */
  function Newest(rows: seq<Row>, most: nat): seq<Row> { rows[|rows| - Min(|rows|, most)..] }

  lemma NewestIs(rows: seq<Row>, most: nat)
    ensures Truncate(rows, most) == Newest(rows, most)
  {}

  /** What rows an event leaves, of those it does not clear: its own goes to the end, in place of the one at
      `i` if it replaces one, and only the newest stay. */
  function Left(kept: seq<Row>, ev: Event, i: int): seq<Row>
    requires ValidRetention(ev.retention)
  {
    Newest(if ev.entry.None? then kept
           else (if ev.merged && 0 <= i < |kept| then kept[..i] + kept[i + 1..] else kept) + [ev.entry.value],
           ev.retention)
  }

  /** The newest row like the given one. */
  predicate NewestLike(kept: seq<Row>, e: Row, i: int) {
    0 <= i < |kept| && Alike(kept[i], e) && forall j :: i < j < |kept| ==> !Alike(kept[j], e)
  }

  /** What replaying an event comes to. It fails exactly if it replaces a row and there is none like its
      own; otherwise it replaces the newest one like that, or none. */
  lemma EventIs(rows: seq<Row>, ev: Event) returns (i: int)
    requires ValidRetention(ev.retention)
    ensures var kept := if ev.clear then [] else rows;
            var r := ApplyEvent(rows, ev);
            && (r.Err? <==>
                  ev.merged && ev.entry.Some? && forall j :: 0 <= j < |kept| ==> !Alike(kept[j], ev.entry.value))
            && (r.Ok? ==> r.value == Left(kept, ev, i))
            && (r.Ok? && ev.merged && ev.entry.Some? ==> NewestLike(kept, ev.entry.value, i))
  {
    var kept := if ev.clear then [] else rows;
    ClearsFirst(rows, ev);
    i := -1;
    if ev.entry.Some? && ev.merged {
      i := Target(kept, ev.entry.value);
      Replaces(kept, ev.(clear := false), i);
    } else {
      PutsLast(kept, ev.(clear := false));
    }
    hide *;
  }

  lemma ClearsFirst(rows: seq<Row>, ev: Event)
    requires ValidRetention(ev.retention)
    ensures ApplyEvent(rows, ev) == ApplyEvent(if ev.clear then [] else rows, ev.(clear := false))
    ensures forall kept, i :: Left(kept, ev.(clear := false), i) == Left(kept, ev, i)
  {
    hide KeyOf, LastIndex, Truncate, Newest, RemoveAt;
  }

  lemma Replaces(kept: seq<Row>, ev: Event, i: int)
    requires ValidRetention(ev.retention) && !ev.clear && ev.entry.Some? && ev.merged && -1 <= i < |kept|
    requires var e := ev.entry.value; i == if KeyOf(e).Some? then LastIndex(kept, KeyOf(e).value) else -1
    ensures if i < 0 then ApplyEvent(kept, ev).Err? else ApplyEvent(kept, ev) == Ok(Left(kept, ev, i))
  {
    hide KeyOf, LastIndex, Truncate, Newest, RemoveAt;
    if i >= 0 {
      WithoutIs(kept, i);
      NewestIs(RemoveAt(kept, i) + [ev.entry.value], ev.retention);
    }
  }

  lemma PutsLast(kept: seq<Row>, ev: Event)
    requires ValidRetention(ev.retention) && !ev.clear && !(ev.entry.Some? && ev.merged)
    ensures forall i :: ApplyEvent(kept, ev) == Ok(Left(kept, ev, i))
  {
    hide KeyOf, LastIndex, Truncate, Newest, RemoveAt;
    NewestIs(if ev.entry.Some? then kept + [ev.entry.value] else kept, ev.retention);
  }

  lemma WithoutIs(rows: seq<Row>, i: int)
    requires 0 <= i < |rows|
    ensures RemoveAt(rows, i) == rows[..i] + rows[i + 1..]
  {}

  /** The row that an event replaces, if there is one like its own. */
  lemma Target(kept: seq<Row>, e: Row) returns (i: int)
    ensures -1 <= i < |kept| && i == if KeyOf(e).Some? then LastIndex(kept, KeyOf(e).value) else -1
    ensures i >= 0 ==> Alike(kept[i], e)
    ensures forall j :: i < j < |kept| ==> !Alike(kept[j], e)
  {
    forall j | 0 <= j < |kept| ensures Alike(kept[j], e) <==> KeyOf(e).Some? && KeyOf(kept[j]) == KeyOf(e) {
      AlikeIsSameKey(kept[j], e);
    }
    hide KeyOf, Alike;
    i := -1;
    if KeyOf(e).Some? {
      LastIndexIs(kept, KeyOf(e).value);
      i := LastIndex(kept, KeyOf(e).value);
    }
  }

  /** Numbers rise from the last one read, and beyond the last one applied none is left out. */
  predicate InOrder(es: seq<Event>, previous: nat, applied: nat) {
    es == [] || (es[0].sequence > previous && es[0].sequence <= applied + 1 && ValidRetention(es[0].retention)
                 && InOrder(es[1..], es[0].sequence, Max(applied, es[0].sequence)))
  }

  /** A load takes nothing but a journal in order; and such a journal can only lack a row to be replaced. */
  lemma {:induction false} OrderIsChecked(c: Codec, es: seq<Event>, st: Replayed)
    ensures Replay(c, es, st).Ok? ==> InOrder(es, st.previous, st.sequence)
    ensures InOrder(es, st.previous, st.sequence) ==>
              Replay(c, es, st).Ok? || Replay(c, es, st).error == MergeTargetMissing
  {
    hide Line;
    if es != [] {
      var r := ReplayLine(st, es[0], |Line(c, es[0])|);
      hide KeyOf, LastIndex;
      if r.Ok? { OrderIsChecked(c, es[1..], r.value); }
    }
  }

  /** The events a load counts are those it goes on by, one for each number. */
  lemma {:induction false} ReplayCounts(c: Codec, es: seq<Event>, st: Replayed)
    requires Replay(c, es, st).Ok?
    ensures var r := Replay(c, es, st).value; r.events - st.events == r.sequence - st.sequence >= 0
  {
    if es != [] { ReplayCounts(c, es[1..], ReplayLine(st, es[0], |Line(c, es[0])|).value); }
  }

  // ---------------------------------------------------------------- the journal

  const LARGEST: int := 67_108_864

  /** A journal that no snapshot has to replace yet. */
  predicate Moderate(s: Store) {
    s.journalBytes < LARGEST && (s.journalEvents < 1024 || s.journalBytes < s.snapshotBytes)
  }

  /** After a flush without error nothing is pending and the journal is moderate: under 64 MiB, and with a
      thousand events and more smaller than a snapshot. */
  lemma FlushIsModerate(c: Codec, d: Disk, s: Store, now: Time, d': Disk, s': Store)
    requires FlushRel(c, d, s, now, d', s', Flushed)
    ensures s'.pending == [] && !s'.needsSnapshot && Moderate(s') && s'.retryAt == 0
  {
    var d1, s1, o1, s2, o2 :| FlushSteps(c, d, s, d1, s1, o1, d', s2, o2) && FinishRel(s2, now, o2, s', Flushed);
    hide JournalAfter;
  }

  /** And it writes a snapshot only if one was needed or the journal would not stay moderate. */
  lemma SnapshotIsDue(c: Codec, d: Disk, s: Store, now: Time, d': Disk, s': Store, result: FlushResult)
    requires FlushRel(c, d, s, now, d', s', result) && !s.needsSnapshot
    requires Moderate(s.(journalBytes := s.journalBytes + |Lines(c, s.pending)|,
                         journalEvents := s.journalEvents + |s.pending|))
    ensures d'.snapshot == d.snapshot && d'.legacy == d.legacy
  {
    var d1, s1, o1, s2, o2 :| FlushSteps(c, d, s, d1, s1, o1, d', s2, o2) && FinishRel(s2, now, o2, s', result);
    hide JournalAfter;
    if s.pending == [] { assert Lines(c, s.pending) == ""; }
  }

  // ---------------------------------------------------------------- storage that fails

  /** A failed flush drops what was pending and asks for a snapshot in two seconds. */
  lemma FailureWaits(c: Codec, d: Disk, s: Store, now: Time, d': Disk, s': Store)
    requires FlushRel(c, d, s, now, d', s', FlushFailed)
    ensures s'.pending == [] && s'.needsSnapshot && s'.retryAt == now + 2 * SECOND && SameRows(s, s')
  {
    var d1, s1, o1, s2, o2 :| FlushSteps(c, d, s, d1, s1, o1, d', s2, o2) && FinishRel(s2, now, o2, s', FlushFailed);
    hide JournalAfter;
  }

  /** Until then requests are logged in memory only: nothing is written and nothing piles up beside the rows. */
  lemma WaitingTouchesNothing(c: Codec, d: Disk, s: Store, e: Row, now: Time, d': Disk, s': Store, result: FlushResult)
    requires s.needsSnapshot && s.pending == [] && !s.stopped && s.retention >= 1 && now < s.retryAt
    requires FlushRel(c, d, Appended(s, e), now, d', s', result)
    ensures d' == d && result == Deferred && s'.pending == [] && s'.needsSnapshot && s'.retryAt == s.retryAt
    ensures s'.logs == AppendRows(s.logs, e, s.retention) && s'.sequence == s.sequence + 1
  {
    hide Merge;
  }

  /** From then on, and at once when the service stops, the next flush that does not fail makes all rows
      durable in one snapshot; and it does try. */
  lemma RecoversOnceDue(c: Codec, d: Disk, s: Store, now: Time, d': Disk, s': Store, result: FlushResult)
    requires s.needsSnapshot && (s.stopped || now >= s.retryAt) && FlushRel(c, d, s, now, d', s', result)
    ensures result != Deferred
    ensures result == Flushed ==>
              && d' == Disk(Some(Snapshot(1, s.sequence, s.logs)), d.legacy, Some(""))
              && SameRows(s, s') && s'.journalBytes == 0 && s'.journalEvents == 0
              && s'.snapshotBytes == c.snapshotSize(Snapshot(1, s.sequence, s.logs))
  {
    var d1, s1, o1, s2, o2 :| FlushSteps(c, d, s, d1, s1, o1, d', s2, o2) && FinishRel(s2, now, o2, s', result);
    hide JournalAfter;
  }

  // ---------------------------------------------------------------- output rates

  /** A rate is known exactly for a request that was sent, got output and took time after its first
      token; over that time it accounts for all tokens. */
  lemma RateIff(e: Row)
    ensures OutputRate(e).Some? <==> !e.skipped && e.completionTokens > 0 && 0 <= e.ttftMs < e.durationMs
    ensures OutputRate(e).Some? ==>
              var r, ms := OutputRate(e).value, e.durationMs - e.ttftMs;
              r.under > 0 && r.over * ms == 1000 * e.completionTokens * r.under
  {}
}
