/**
 Crash recovery of the request log. The steps of the running service are given as
 relations between the disk and the in-memory store, with a failure or a process
 death possible at every file operation; the theorems hold for every run.
 */
module RequestLogRecovery {
  import opened Common
  import opened BackoffLog
  import opened RequestLogStore

  /** Everything the process knows about the log while it lives. */
  datatype Store = Store(
    logs: seq<Row>, sequence: nat, journalBytes: nat, journalEvents: nat, snapshotBytes: nat,
    pending: seq<Event>, needsSnapshot: bool, retryAt: Time, retention: int, stopped: bool)

  datatype Outcome = Done | Failed | Died

  datatype FlushResult = Deferred | Flushed | FlushFailed | Crashed

  function Queue(s: Store, entry: Option<Row>, merged: bool): Store {
    var next := s.(sequence := s.sequence + 1);
    if s.needsSnapshot then next
    else next.(pending := s.pending + [Event(s.sequence + 1, entry, merged, s.retention, false)])
  }

  // ---------------------------------------------------------------- file steps

  /** A write at offset `at`: opening may create the file, bytes behind `at` are cut off,
      and a failure or death leaves any prefix of the data behind. */
  ghost predicate JournalAfter(before: Option<string>, after: Option<string>, at: nat, data: string, outcome: Outcome) {
    var content := Contents(before);
    if outcome == Done then
      |content| >= at && after == Some(content[..at] + data)
    else
      || after == before
      || after == Some(content)
      || (|content| >= at && exists n :: 0 <= n <= |data| && after == Some(content[..at] + data[..n]))
  }

  ghost predicate WriteRel(c: Codec, d: Disk, s: Store, d': Disk, s': Store, outcome: Outcome) {
    if s.pending == [] then d' == d && s' == s && outcome == Done
    else
      && d' == d.(journal := d'.journal)
      && JournalAfter(d.journal, d'.journal, s.journalBytes, Lines(c, s.pending), outcome)
      && (outcome == Failed ==> s' == s)
      && (outcome == Done ==>
            s' == s.(journalBytes := s.journalBytes + |Lines(c, s.pending)|,
                     journalEvents := s.journalEvents + |s.pending|, pending := []))
  }

  /** Snapshot by rename, then an emptied journal; anything may stop in between. */
  ghost predicate CompactRel(c: Codec, d: Disk, s: Store, d': Disk, s': Store, outcome: Outcome) {
    var snap := Snapshot(1, s.sequence, s.logs);
    var renamed := d.(snapshot := Some(snap));
    var emptied := renamed.(journal := Some(""));
    && (d' == emptied || (outcome != Done && (d' == d || d' == renamed)))
    && (outcome == Failed ==> s' == s)
    && (outcome == Done ==>
          s' == s.(journalBytes := 0, journalEvents := 0, snapshotBytes := c.snapshotSize(snap),
                   pending := [], needsSnapshot := false))
  }

  predicate Threshold(s: Store) {
    s.journalBytes >= 64 * 1024 * 1024 || (s.journalEvents >= 1024 && s.journalBytes >= s.snapshotBytes)
  }

  ghost predicate FinishRel(s: Store, now: Time, outcome: Outcome, s': Store, result: FlushResult) {
    match outcome
    case Done => result == Flushed && s' == s.(retryAt := 0)
    case Failed => result == FlushFailed && s' == s.(pending := [], needsSnapshot := true, retryAt := now + 2 * SECOND)
    case Died => result == Crashed
  }

  ghost predicate FlushSteps(c: Codec, d: Disk, s: Store, d1: Disk, s1: Store, o1: Outcome,
                             d2: Disk, s2: Store, o2: Outcome)
  {
    && (if s.needsSnapshot then CompactRel(c, d, s, d1, s1, o1) else WriteRel(c, d, s, d1, s1, o1))
    && (if o1 == Done && Threshold(s1) then CompactRel(c, d1, s1, d2, s2, o2)
        else d2 == d1 && s2 == s1 && o2 == o1)
  }

  ghost predicate FlushRel(c: Codec, d: Disk, s: Store, now: Time, d': Disk, s': Store, result: FlushResult) {
    if s.needsSnapshot && !s.stopped && now < s.retryAt then
      d' == d && s' == s && result == Deferred
    else
      exists d1, s1, o1, s2, o2 ::
        FlushSteps(c, d, s, d1, s1, o1, d', s2, o2) && FinishRel(s2, now, o2, s', result)
  }

  // ---------------------------------------------------------------- the running system

  /** `live` is None while no process runs. `hist[n]` are the live rows at sequence n of the
      current line of history, and `durable` is the last sequence whose flush returned cleanly. */
  datatype Sys = Sys(disk: Disk, live: Option<Store>, hist: seq<seq<Row>>, durable: nat)

  ghost predicate Init(s: Sys) {
    && s.disk.snapshot.None? && s.disk.journal.None? && s.live.None? && s.durable == 0
    && (s.disk.legacy.Some? ==> NoneCollides(s.disk.legacy.value))
    && s.hist == [Base(s.disk).rows]
  }

  ghost predicate FlushedTo(c: Codec, d: Disk, s: Store, hist: seq<seq<Row>>, durable: nat, now: Time, b: Sys) {
    exists s', result ::
      && FlushRel(c, d, s, now, b.disk, s', result)
      && b.hist == hist
      && b.durable == (if result == Flushed then s.sequence else durable)
      && b.live == (if result == Crashed then None else Some(s'))
  }

  /** Retention of a (re)configured service: surplus rows go, as one event of their own. */
  ghost predicate TrimmedTo(c: Codec, d: Disk, s: Store, hist: seq<seq<Row>>, durable: nat, now: Time, b: Sys)
    requires s.retention >= 1
  {
    if |s.logs| > s.retention then
      var s1 := Queue(s.(logs := Truncate(s.logs, s.retention)), None, false);
      FlushedTo(c, d, s1, hist + [s1.logs], durable, now, b)
    else
      b == Sys(d, Some(s), hist, durable)
  }

  function AsRead(c: Codec, d: Disk, l: Replayed, retention: int): Store {
    Store(l.rows, l.sequence, l.bytes, l.events, BaseSize(c, d), [], false, 0, retention, false)
  }

  function Loaded(c: Codec, d: Disk, l: Replayed, retention: int): Store {
    AsRead(c, d, l, retention).(logs := Compact(l.rows))
  }

  /** A start: of a new process, of an instance that was quiesced, or of one whose last start failed
      after the load and which is live all the same. */
  ghost predicate StartStep(c: Codec, a: Sys, b: Sys, retention: int, now: Time) {
    && ValidRetention(retention)
    && match Load(c, a.disk)
       case Err(_) => b == a
       case Ok(l) =>
         TrimmedTo(c, a.disk, Loaded(c, a.disk, l, retention), a.hist[..Min(l.sequence + 1, |a.hist|)], a.durable,
                   now, b)
  }

  /** A start that fails after the load leaves the log live as it was read, neither compacted nor trimmed. */
  ghost predicate LateStartStep(c: Codec, a: Sys, b: Sys, retention: int) {
    && ValidRetention(retention) && Load(c, a.disk).Ok?
    && var l := Load(c, a.disk).value;
       b == Sys(a.disk, Some(AsRead(c, a.disk, l, retention)), a.hist[..Min(l.sequence + 1, |a.hist|)], a.durable)
  }

  /** A start that fails before the load, of an instance that is live, only sets its retention. */
  ghost predicate EarlyStartStep(a: Sys, b: Sys, retention: int) {
    ValidRetention(retention) && a.live.Some? && b == a.(live := Some(a.live.value.(retention := retention)))
  }

  ghost predicate ConfigureStep(c: Codec, a: Sys, b: Sys, retention: int, now: Time) {
    && a.live.Some? && ValidRetention(retention)
    && TrimmedTo(c, a.disk, a.live.value.(retention := retention), a.hist, a.durable, now, b)
  }

  function Appended(s: Store, e: Row): Store
    requires s.retention >= 1
  {
    var rows := AppendRows(s.logs, e, s.retention);
    Queue(s.(logs := rows), Some(LastOf(rows)), Merge(s.logs, e).merged)
  }

  ghost predicate AppendStep(c: Codec, a: Sys, b: Sys, e: Row, now: Time) {
    && a.live.Some? && a.live.value.retention >= 1 && e.rate == OutputRate(e) && !Drifts(a.live.value.logs, e)
    && var s := Appended(a.live.value, e);
       FlushedTo(c, a.disk, s, a.hist + [s.logs], a.durable, now, b)
  }

  ghost predicate TimerStep(c: Codec, a: Sys, b: Sys, now: Time) {
    a.live.Some? && FlushedTo(c, a.disk, a.live.value, a.hist, a.durable, now, b)
  }

  /** Quiescing makes one last attempt; what it leaves in memory is never used again. */
  ghost predicate QuiesceStep(c: Codec, a: Sys, b: Sys, now: Time) {
    && a.live.Some? && b.live.None?
    && exists m: Sys ::
         && b == m.(live := None)
         && FlushedTo(c, a.disk, a.live.value.(stopped := true), a.hist, a.durable, now, m)
  }

  ghost predicate KillStep(a: Sys, b: Sys) { b == a.(live := None) }

  ghost predicate Next(c: Codec, a: Sys, b: Sys) {
    || KillStep(a, b)
    || (exists now :: TimerStep(c, a, b, now))
    || (exists now :: QuiesceStep(c, a, b, now))
    || (exists e, now :: AppendStep(c, a, b, e, now))
    || (exists retention, now :: ConfigureStep(c, a, b, retention, now))
    || (exists retention, now :: StartStep(c, a, b, retention, now))
    || (exists retention :: LateStartStep(c, a, b, retention))
    || (exists retention :: EarlyStartStep(a, b, retention))
  }

  // ---------------------------------------------------------------- the invariant

  /** The disk holds the events `es` and a torn tail, and replays to the rows of sequence `q`. */
  ghost predicate Reads(c: Codec, d: Disk, hist: seq<seq<Row>>, es: seq<Event>, tail: string, q: nat) {
    && q < |hist|
    && Contents(d.journal) == Lines(c, es) + tail && NoNewline(tail)
    && (d.snapshot.Some? ==> d.snapshot.value.version == 1)
    && Base(d).sequence < |hist| && Base(d).rows == hist[Base(d).sequence]
    && var r := Replay(c, es, Base(d));
       r.Ok? && r.value.sequence == q && r.value.rows == hist[q]
  }

  ghost predicate Recoverable(c: Codec, d: Disk, hist: seq<seq<Row>>, durable: nat) {
    exists es, tail, q :: Reads(c, d, hist, es, tail, q) && durable <= q
  }

  /** Pending events continue history from sequence q, one sequence each. */
  ghost predicate Chain(hist: seq<seq<Row>>, q: nat, pending: seq<Event>) {
    && q + |pending| < |hist|
    && forall i :: 0 <= i < |pending| ==>
         && pending[i].sequence == q + 1 + i && ValidRetention(pending[i].retention)
         && ApplyEvent(hist[q + i], pending[i]) == Ok(hist[q + i + 1])
  }

  /** The journal ends, but for a torn tail, at journalBytes, and pending events come next. */
  ghost predicate InStep(c: Codec, d: Disk, s: Store, hist: seq<seq<Row>>, es: seq<Event>, tail: string, q: nat) {
    && Reads(c, d, hist, es, tail, q)
    && s.journalBytes == |Lines(c, es)|
    && Chain(hist, q, s.pending) && q + |s.pending| == s.sequence
  }

  ghost predicate Ready(c: Codec, d: Disk, s: Store, hist: seq<seq<Row>>) {
    && |hist| == s.sequence + 1 && hist[s.sequence] == s.logs
    && ValidRetention(s.retention)
    && (if s.needsSnapshot then s.pending == [] else exists es, tail, q :: InStep(c, d, s, hist, es, tail, q))
  }

  ghost predicate AllNormal(hist: seq<seq<Row>>) {
    forall i :: 0 <= i < |hist| ==> Normal(hist[i])
  }

  ghost predicate Inv(c: Codec, s: Sys) {
    && AllNormal(s.hist)
    && Recoverable(c, s.disk, s.hist, s.durable)
    && (s.live.Some? ==> Ready(c, s.disk, s.live.value, s.hist) && s.live.value.pending == [])
  }

  /** What a start after a crash in this state finds. */
  ghost predicate Recovers(c: Codec, s: Sys) {
    var r := Load(c, s.disk);
    && r.Ok?
    && s.durable <= r.value.sequence < |s.hist|
    && Compact(r.value.rows) == r.value.rows == s.hist[r.value.sequence]
  }

  /** Reading the disk is loading it, so what it reads is determined. */
  lemma ReadsIsLoad(c: Codec, d: Disk, hist: seq<seq<Row>>, es: seq<Event>, tail: string, q: nat)
    requires Lossless(c) && Reads(c, d, hist, es, tail, q)
    ensures Load(c, d).Ok? && Load(c, d).value.sequence == q && Load(c, d).value.rows == hist[q]
    ensures Load(c, d).value.bytes == |Lines(c, es)|
  {
    LoadIsReplay(c, es, tail, Base(d));
    ReplayBounds(c, es, Base(d));
  }

  lemma DurableIsRead(c: Codec, d: Disk, hist: seq<seq<Row>>, durable: nat, es: seq<Event>, tail: string, q: nat)
    requires Lossless(c) && Reads(c, d, hist, es, tail, q) && Recoverable(c, d, hist, durable)
    ensures durable <= q
  {
    var es0, tail0, q0 :| Reads(c, d, hist, es0, tail0, q0) && durable <= q0;
    ReadsIsLoad(c, d, hist, es0, tail0, q0);
    ReadsIsLoad(c, d, hist, es, tail, q);
  }

  // ---------------------------------------------------------------- file steps keep the disk readable

  lemma {:induction false} ReplayChain(c: Codec, hist: seq<seq<Row>>, q: nat, pending: seq<Event>, st: Replayed)
    requires Chain(hist, q, pending) && st.sequence == q && st.previous <= q && st.rows == hist[q]
    ensures Replay(c, pending, st).Ok?
    ensures Replay(c, pending, st).value.sequence == q + |pending|
    ensures Replay(c, pending, st).value.rows == hist[q + |pending|]
    decreases |pending|
  {
    hide RequestLogStore.ApplyEvent, Line;
    if pending != [] {
      var next := ReplayLine(st, pending[0], |Line(c, pending[0])|);
      assert ApplyEvent(hist[q], pending[0]) == Ok(hist[q + 1]);
      assert next.Ok? && next.value.rows == hist[q + 1];
      var rest := pending[1..];
      assert forall i :: 0 <= i < |rest| ==> rest[i] == pending[i + 1];
      ReplayChain(c, hist, q + 1, rest, next.value);
    }
  }

  lemma {:induction false} ReadsMore(c: Codec, d: Disk, hist: seq<seq<Row>>, es: seq<Event>, tail: string, q: nat,
                  more: seq<Event>, d': Disk, tail': string)
    requires Reads(c, d, hist, es, tail, q) && Chain(hist, q, more) && NoNewline(tail')
    requires d' == d.(journal := Some(Lines(c, es) + Lines(c, more) + tail'))
    ensures Reads(c, d', hist, es + more, tail', q + |more|)
  {
    LinesOfConcat(c, es, more);
    ReplayOfConcat(c, es, more, Base(d));
    ReplayBounds(c, es, Base(d));
    ReplayChain(c, hist, q, more, Replay(c, es, Base(d)).value);
  }

  predicate SameRows(s: Store, s': Store) {
    s'.logs == s.logs && s'.sequence == s.sequence && s'.retention == s.retention
  }

  /** A write that stops anywhere, for any reason, loses nothing that was readable before. */
  lemma WriteKeepsReading(c: Codec, d: Disk, s: Store, hist: seq<seq<Row>>, es: seq<Event>, tail: string, q: nat,
                          d': Disk, s': Store, outcome: Outcome)
    returns (es': seq<Event>, tail': string, q': nat)
    requires Lossless(c) && InStep(c, d, s, hist, es, tail, q) && WriteRel(c, d, s, d', s', outcome)
    ensures Reads(c, d', hist, es', tail', q') && q <= q'
    ensures outcome == Done ==> InStep(c, d', s', hist, es', tail', q') && s'.pending == [] && q' == s.sequence
    ensures outcome != Died ==> SameRows(s, s')
  {
    hide Reads, Chain, JournalAfter, Lines;
    es', tail', q' := es, tail, q;
    if s.pending != [] && outcome == Done {
      es', tail', q' := es + s.pending, "", q + |s.pending|;
      WholeWriteIsInStep(c, d, s, hist, es, tail, q, d', s');
    } else if s.pending != [] {
      es', tail', q' := CutWriteKeepsReading(c, d, s, hist, es, tail, q, d', s', outcome);
    }
  }

  lemma CutWriteKeepsReading(c: Codec, d: Disk, s: Store, hist: seq<seq<Row>>, es: seq<Event>, tail: string, q: nat,
                             d': Disk, s': Store, outcome: Outcome)
    returns (es': seq<Event>, tail': string, q': nat)
    requires Lossless(c) && InStep(c, d, s, hist, es, tail, q) && WriteRel(c, d, s, d', s', outcome)
    requires outcome != Done
    ensures Reads(c, d', hist, es', tail', q') && q <= q'
  {
    var file := Contents(d.journal);
    if s.pending == [] || d'.journal == d.journal || d'.journal == Some(file) {
      es', tail', q' := es, tail, q;
    } else {
      assert file[..s.journalBytes] == Lines(c, es);
      var data := Lines(c, s.pending);
      var n :| 0 <= n <= |data| && d'.journal == Some(file[..s.journalBytes] + data[..n]);
      es', tail', q' := PrefixKeepsReading(c, d, s, hist, es, tail, q, n, d');
    }
  }

  lemma WholeWriteIsInStep(c: Codec, d: Disk, s: Store, hist: seq<seq<Row>>, es: seq<Event>, tail: string, q: nat,
                           d': Disk, s': Store)
    requires InStep(c, d, s, hist, es, tail, q) && s.pending != [] && WriteRel(c, d, s, d', s', Done)
    ensures InStep(c, d', s', hist, es + s.pending, "", q + |s.pending|)
  {
    hide Replay, RequestLogStore.ApplyEvent, Base;
    assert Contents(d.journal)[..s.journalBytes] == Lines(c, es);
    assert Lines(c, es) + Lines(c, s.pending) == Lines(c, es) + Lines(c, s.pending) + "";
    ReadsMore(c, d, hist, es, tail, q, s.pending, d', "");
    LinesOfConcat(c, es, s.pending);
  }

  lemma PrefixKeepsReading(c: Codec, d: Disk, s: Store, hist: seq<seq<Row>>, es: seq<Event>, tail: string, q: nat,
                           n: nat, d': Disk)
    returns (es': seq<Event>, tail': string, q': nat)
    requires Lossless(c) && InStep(c, d, s, hist, es, tail, q) && n <= |Lines(c, s.pending)|
    requires d' == d.(journal := Some(Lines(c, es) + Lines(c, s.pending)[..n]))
    ensures Reads(c, d', hist, es', tail', q') && q <= q'
  {
    var k;
    k, tail' := CutLines(c, s.pending, n);
    es', q' := es + s.pending[..k], q + k;
    hide RequestLogStore.ApplyEvent, Replay, Base;
    assert Lines(c, es) + Lines(c, s.pending)[..n] == Lines(c, es) + Lines(c, s.pending[..k]) + tail';
    ReadsMore(c, d, hist, es, tail, q, s.pending[..k], d', tail');
  }

  /** Every stage of a compaction is readable, and from the rename on it reads the live rows. */
  lemma CompactKeepsReading(c: Codec, d: Disk, s: Store, hist: seq<seq<Row>>, es: seq<Event>, tail: string, q: nat,
                            d': Disk, s': Store, outcome: Outcome)
    returns (es': seq<Event>, tail': string, q': nat)
    requires Reads(c, d, hist, es, tail, q) && |hist| == s.sequence + 1 && hist[s.sequence] == s.logs
    requires CompactRel(c, d, s, d', s', outcome)
    ensures Reads(c, d', hist, es', tail', q') && q <= q'
    ensures outcome == Done ==> InStep(c, d', s', hist, es', tail', q') && s'.pending == [] && q' == s.sequence
    ensures outcome != Died ==> SameRows(s, s')
  {
    if d' == d {
      es', tail', q' := es, tail, q;
    } else if d'.journal == Some("") {
      es', tail', q' := [], "", s.sequence;
      assert Lines(c, []) + "" == "";
    } else {
      es', tail', q' := es, tail, s.sequence;
      ReplayOverNewerBase(c, es, Base(d), Base(d'));
    }
  }

  /** The first of the two file operations of a flush. */
  lemma PersistKeepsReading(c: Codec, d: Disk, s: Store, hist: seq<seq<Row>>, durable: nat,
                            d': Disk, s': Store, outcome: Outcome)
    returns (es: seq<Event>, tail: string, q: nat)
    requires Lossless(c) && Ready(c, d, s, hist) && Recoverable(c, d, hist, durable)
    requires if s.needsSnapshot then CompactRel(c, d, s, d', s', outcome) else WriteRel(c, d, s, d', s', outcome)
    ensures Reads(c, d', hist, es, tail, q) && durable <= q
    ensures outcome == Done ==> InStep(c, d', s', hist, es, tail, q) && s'.pending == [] && q == s.sequence
    ensures outcome != Died ==> SameRows(s, s')
  {
    if s.needsSnapshot {
      es, tail, q :| Reads(c, d, hist, es, tail, q) && durable <= q;
      hide Reads, CompactRel;
      es, tail, q := CompactKeepsReading(c, d, s, hist, es, tail, q, d', s', outcome);
    } else {
      es, tail, q :| InStep(c, d, s, hist, es, tail, q);
      hide Reads, WriteRel, Recoverable;
      DurableIsRead(c, d, hist, durable, es, tail, q);
      es, tail, q := WriteKeepsReading(c, d, s, hist, es, tail, q, d', s', outcome);
    }
  }

  /** One flush, whatever happens in it. */
  lemma {:induction false} FlushKeepsReading(c: Codec, d: Disk, s: Store, hist: seq<seq<Row>>, durable: nat, now: Time,
                          d': Disk, s': Store, result: FlushResult)
    requires Lossless(c) && Ready(c, d, s, hist) && Recoverable(c, d, hist, durable)
    requires FlushRel(c, d, s, now, d', s', result)
    ensures Recoverable(c, d', hist, if result == Flushed then s.sequence else durable)
    ensures result != Crashed ==> Ready(c, d', s', hist) && s'.pending == []
  {
    hide Reads, CompactRel, WriteRel, Chain, Lines, Threshold;
    if result != Deferred {
      var d1, s1, o1, s2, o2 :| FlushSteps(c, d, s, d1, s1, o1, d', s2, o2) && FinishRel(s2, now, o2, s', result);
      var es, tail, q := PersistKeepsReading(c, d, s, hist, durable, d1, s1, o1);
      if o1 == Done && Threshold(s1) {
        es, tail, q := CompactKeepsReading(c, d1, s1, hist, es, tail, q, d', s2, o2);
      }
      assert Reads(c, d', hist, es, tail, q);
      assert o2 == Done ==> InStep(c, d', s', hist, es, tail, q);
    }
  }

  // ---------------------------------------------------------------- steps keep the invariant

  lemma HistoryGrows(c: Codec, d: Disk, hist: seq<seq<Row>>, rows: seq<Row>, es: seq<Event>, tail: string, q: nat)
    requires Reads(c, d, hist, es, tail, q)
    ensures Reads(c, d, hist + [rows], es, tail, q)
  {}

  lemma HistoryIsCut(c: Codec, d: Disk, hist: seq<seq<Row>>, es: seq<Event>, tail: string, q: nat)
    requires Reads(c, d, hist, es, tail, q)
    ensures q < |hist| && Reads(c, d, hist[..q + 1], es, tail, q)
  {
    ReplayBounds(c, es, Base(d));
  }

  /** Queueing the event that explains the new rows. */
  lemma QueueIsReady(c: Codec, d: Disk, s: Store, hist: seq<seq<Row>>, rows: seq<Row>, entry: Option<Row>, merged: bool)
    requires Ready(c, d, s, hist) && s.pending == []
    requires ApplyEvent(s.logs, Event(s.sequence + 1, entry, merged, s.retention, false)) == Ok(rows)
    ensures Ready(c, d, Queue(s.(logs := rows), entry, merged), hist + [rows])
  {
    if !s.needsSnapshot {
      var es, tail, q :| InStep(c, d, s, hist, es, tail, q);
      HistoryGrows(c, d, hist, rows, es, tail, q);
      assert InStep(c, d, Queue(s.(logs := rows), entry, merged), hist + [rows], es, tail, q);
    }
  }

  lemma RecoverableGrows(c: Codec, d: Disk, hist: seq<seq<Row>>, durable: nat, rows: seq<Row>)
    requires Recoverable(c, d, hist, durable)
    ensures Recoverable(c, d, hist + [rows], durable)
  {
    var es, tail, q :| Reads(c, d, hist, es, tail, q) && durable <= q;
    HistoryGrows(c, d, hist, rows, es, tail, q);
  }

  lemma {:induction false} FlushKeepsInv(c: Codec, d: Disk, s: Store, hist: seq<seq<Row>>, durable: nat, now: Time,
                                         b: Sys)
    requires Lossless(c) && AllNormal(hist) && Ready(c, d, s, hist) && Recoverable(c, d, hist, durable)
    requires FlushedTo(c, d, s, hist, durable, now, b)
    ensures Inv(c, b)
  {
    var s', result :|
      && FlushRel(c, d, s, now, b.disk, s', result) && b.hist == hist
      && b.durable == (if result == Flushed then s.sequence else durable)
      && b.live == (if result == Crashed then None else Some(s'));
    FlushKeepsReading(c, d, s, hist, durable, now, b.disk, s', result);
  }

  lemma {:induction false} TrimKeepsInv(c: Codec, d: Disk, s: Store, hist: seq<seq<Row>>, durable: nat, now: Time,
                                        b: Sys)
    requires Lossless(c) && AllNormal(hist) && Ready(c, d, s, hist) && s.pending == []
             && Recoverable(c, d, hist, durable)
    requires TrimmedTo(c, d, s, hist, durable, now, b)
    ensures Inv(c, b)
  {
    assert Normal(s.logs);
    hide Normal, Reads, InStep, FlushedTo;
    if |s.logs| > s.retention {
      var rows := Truncate(s.logs, s.retention);
      TruncateKeepsNormal(s.logs, s.retention);
      QueueIsReady(c, d, s, hist, rows, None, false);
      RecoverableGrows(c, d, hist, durable, rows);
      FlushKeepsInv(c, d, Queue(s.(logs := rows), None, false), hist + [rows], durable, now, b);
    }
  }

  lemma AppendedRows(rows: seq<Row>, e: Row, sequence: nat, retention: nat)
    requires Normal(rows) && !Drifts(rows, e) && e.rate == OutputRate(e) && ValidRetention(retention)
    ensures Normal(AppendRows(rows, e, retention)) && AppendRows(rows, e, retention) != []
    ensures ApplyEvent(rows, AppendEvent(rows, e, sequence, retention)) == Ok(AppendRows(rows, e, retention))
  {
    hide KeyOf, OutputRate, MergeRows, LastIndex, RequestLogStore.ApplyEvent, Drifts, Collides;
    MergeKeepsNormal(rows, e);
    TruncateKeepsNormal(Merge(rows, e).rows, retention);
    ReplayRefinesAppend(rows, e, sequence, retention);
  }

  lemma AppendKeepsInv(c: Codec, a: Sys, b: Sys, e: Row, now: Time)
    requires Lossless(c) && Inv(c, a) && AppendStep(c, a, b, e, now)
    ensures Inv(c, b)
  {
    hide KeyOf, OutputRate, Merge, Normal, Drifts, RequestLogStore.ApplyEvent, Recoverable, FlushedTo, InStep, Truncate;
    var s := a.live.value;
    LiveIsNormal(c, a);
    AppendedRows(s.logs, e, s.sequence + 1, s.retention);
    var next := Appended(s, e);
    QueueIsReady(c, a.disk, s, a.hist, next.logs, Some(LastOf(next.logs)), Merge(s.logs, e).merged);
    hide Ready, AppendRows;
    RecoverableGrows(c, a.disk, a.hist, a.durable, next.logs);
    FlushKeepsInv(c, a.disk, next, a.hist + [next.logs], a.durable, now, b);
  }

  lemma LiveIsNormal(c: Codec, a: Sys)
    requires Inv(c, a) && a.live.Some?
    ensures Normal(a.live.value.logs)
  {
    hide Normal, Recoverable, InStep;
  }

  /** A fresh load is in step with the disk, and compaction finds nothing left to merge. */
  lemma LoadedIsReady(c: Codec, d: Disk, hist: seq<seq<Row>>, es: seq<Event>, tail: string, q: nat, l: Replayed,
                      retention: int)
    requires Reads(c, d, hist, es, tail, q) && Normal(hist[q]) && ValidRetention(retention)
    requires l.sequence == q && l.rows == hist[q] && l.bytes == |Lines(c, es)|
    ensures Ready(c, d, Loaded(c, d, l, retention), hist[..q + 1])
    ensures Loaded(c, d, l, retention) == AsRead(c, d, l, retention)
    ensures Reads(c, d, hist[..q + 1], es, tail, q)
  {
    hide Reads, Normal, Compact, Lines, BaseSize, RequestLogStore.ApplyEvent;
    HistoryIsCut(c, d, hist, es, tail, q);
    CompactFixesNormal(hist[q]);
    assert InStep(c, d, Loaded(c, d, l, retention), hist[..q + 1], es, tail, q);
  }

  /** Whatever is live, a load finds a line of history to go on from. */
  lemma LoadKeepsInv(c: Codec, a: Sys, retention: int)
    requires Lossless(c) && Inv(c, a) && ValidRetention(retention)
    ensures Load(c, a.disk).Ok?
    ensures var l := Load(c, a.disk).value;
            var hist := a.hist[..Min(l.sequence + 1, |a.hist|)];
            && Loaded(c, a.disk, l, retention) == AsRead(c, a.disk, l, retention)
            && AllNormal(hist) && Ready(c, a.disk, AsRead(c, a.disk, l, retention), hist)
            && Recoverable(c, a.disk, hist, a.durable)
  {
    var es, tail, q: nat :| Reads(c, a.disk, a.hist, es, tail, q) && a.durable <= q;
    assert Normal(a.hist[q]);
    assert q < |a.hist| && AllNormal(a.hist[..q + 1]);
    hide Reads, Normal, Compact, Load, Base, BaseSize, Lines, Ready, InStep, AllNormal, Lossless;
    ReadsIsLoad(c, a.disk, a.hist, es, tail, q);
    LoadedIsReady(c, a.disk, a.hist, es, tail, q, Load(c, a.disk).value, retention);
  }

  lemma StartKeepsInv(c: Codec, a: Sys, b: Sys, retention: int, now: Time)
    requires Lossless(c) && Inv(c, a) && StartStep(c, a, b, retention, now)
    ensures Inv(c, b)
  {
    hide Inv, Load, TrimmedTo, Ready, AllNormal, Lossless, Recoverable;
    LoadKeepsInv(c, a, retention);
    var l := Load(c, a.disk).value;
    TrimKeepsInv(c, a.disk, Loaded(c, a.disk, l, retention), a.hist[..Min(l.sequence + 1, |a.hist|)], a.durable, now,
                 b);
  }

  lemma LateStartKeepsInv(c: Codec, a: Sys, b: Sys, retention: int)
    requires Lossless(c) && Inv(c, a) && LateStartStep(c, a, b, retention)
    ensures Inv(c, b)
  {
    LoadKeepsInv(c, a, retention);
    hide Load, Ready, AllNormal, Lossless, Recoverable;
  }

  /** Only the needs of the next flush are left in a store whose retention or stop flag changes. */
  lemma SettingsKeepReady(c: Codec, d: Disk, s: Store, hist: seq<seq<Row>>, retention: int, stopped: bool)
    requires Ready(c, d, s, hist) && ValidRetention(retention)
    ensures Ready(c, d, s.(retention := retention, stopped := stopped), hist)
  {
    if !s.needsSnapshot {
      var es, tail, q :| InStep(c, d, s, hist, es, tail, q);
      assert InStep(c, d, s.(retention := retention, stopped := stopped), hist, es, tail, q);
    }
  }

  lemma NextKeepsInv(c: Codec, a: Sys, b: Sys)
    requires Lossless(c) && Inv(c, a) && Next(c, a, b)
    ensures Inv(c, b)
  {
    if KillStep(a, b) {
    } else if now :| TimerStep(c, a, b, now) {
      FlushKeepsInv(c, a.disk, a.live.value, a.hist, a.durable, now, b);
    } else if now :| QuiesceStep(c, a, b, now) {
      var s := a.live.value.(stopped := true);
      var m: Sys :| b == m.(live := None) && FlushedTo(c, a.disk, s, a.hist, a.durable, now, m);
      SettingsKeepReady(c, a.disk, a.live.value, a.hist, a.live.value.retention, true);
      FlushKeepsInv(c, a.disk, s, a.hist, a.durable, now, m);
    } else if e, now :| AppendStep(c, a, b, e, now) {
      AppendKeepsInv(c, a, b, e, now);
    } else if retention, now :| ConfigureStep(c, a, b, retention, now) {
      SettingsKeepReady(c, a.disk, a.live.value, a.hist, retention, a.live.value.stopped);
      TrimKeepsInv(c, a.disk, a.live.value.(retention := retention), a.hist, a.durable, now, b);
    } else if retention, now :| StartStep(c, a, b, retention, now) {
      StartKeepsInv(c, a, b, retention, now);
    } else if retention :| LateStartStep(c, a, b, retention) {
      LateStartKeepsInv(c, a, b, retention);
    } else {
      var retention :| EarlyStartStep(a, b, retention);
      SettingsKeepReady(c, a.disk, a.live.value, a.hist, retention, a.live.value.stopped);
    }
  }

  // ---------------------------------------------------------------- every run

  ghost predicate StepAt(c: Codec, run: seq<Sys>, i: nat) { i + 1 < |run| ==> Next(c, run[i], run[i + 1]) }

  ghost predicate IsRun(c: Codec, run: seq<Sys>) { run != [] && Init(run[0]) && forall i: nat :: StepAt(c, run, i) }

  lemma InitHasInv(c: Codec, s: Sys)
    requires Init(s)
    ensures Inv(c, s)
  {
    hide Normal, Compact, NoneCollides;
    CompactIsNormal(if s.disk.legacy.Some? then s.disk.legacy.value else []);
    EmptyIsNormal();
    assert Lines(c, []) + "" == "";
    assert Reads(c, s.disk, s.hist, [], "", 0);
  }

  lemma {:induction false} RunKeepsInv(c: Codec, run: seq<Sys>, i: nat)
    requires Lossless(c) && IsRun(c, run) && i < |run|
    ensures Inv(c, run[i])
  {
    hide Next, Inv, Init, Lossless;
    if i == 0 {
      InitHasInv(c, run[0]);
    } else {
      RunKeepsInv(c, run, i - 1);
      assert StepAt(c, run, i - 1);
      NextKeepsInv(c, run[i - 1], run[i]);
    }
  }

  /** In every state of every run, a start would load without error exactly the live rows of
      some sequence that is no older than the last clean flush. */
  lemma EveryCrashRecovers(c: Codec, run: seq<Sys>, i: nat)
    requires Lossless(c) && IsRun(c, run) && i < |run|
    ensures Recovers(c, run[i])
    ensures run[i].live.Some? ==>
              |run[i].hist| == run[i].live.value.sequence + 1
                && run[i].hist[run[i].live.value.sequence] == run[i].live.value.logs
  {
    RunKeepsInv(c, run, i);
    var s := run[i];
    var es, tail, q: nat :| Reads(c, s.disk, s.hist, es, tail, q) && s.durable <= q;
    ReadsIsLoad(c, s.disk, s.hist, es, tail, q);
    CompactFixesNormal(s.hist[q]);
  }
}
