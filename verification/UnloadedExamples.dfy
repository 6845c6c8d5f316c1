/** Two disks on which a failed start makes the next request cost an earlier one. */
module UnloadedExamples {
  import opened Common
  import opened BackoffLog
  import opened RequestLogStore
  import opened RequestLogRecovery
  import opened UnloadedLog

  /** A row that no other is ever merged with. */
  function Lone(id: string): Row { Suppressed(id, 1, 1, NoWindow).(skipped := false) }

  lemma LoneAppends(rows: seq<Row>, id: string)
    requires |rows| < 50
    ensures AppendRows(rows, Lone(id), 50) == rows + [Lone(id)] && !Merge(rows, Lone(id)).merged
    ensures !Drifts(rows, Lone(id)) && Lone(id).rate == OutputRate(Lone(id))
  {}

  lemma LoneIsStored(id: string)
    ensures Stored(Lone(id), 50) == Lone(id)
  {
    LoneAppends([], id);
    assert [] + [Lone(id)] == [Lone(id)];
  }

  /** One request logged by an ordinary process, the only one on disk. */
  function OneLine(c: Codec): Disk {
    Disk(None, None, Some(Line(c, Event(1, Some(Lone("a")), false, 50, false))))
  }

  lemma OneLineReads(c: Codec)
    requires Lossless(c)
    ensures Load(c, OneLine(c)).Ok? && Load(c, OneLine(c)).value.rows == [Lone("a")]
    ensures Base(OneLine(c)) == Replayed([], 0, 0, 0, 0)
  {
    var ev := Event(1, Some(Lone("a")), false, 50, false);
    var d := OneLine(c);
    assert Contents(d.journal)[..0] == "" && Cut(d, 0) == d.(journal := Some(""));
    assert WithLine(c, d, 0, ev) == d by { assert "" + Line(c, ev) == Line(c, ev); }
    LineReads(c, d, 0, ev);
    OwnLine(c, d, 0, ev);
    NothingToLoad(c, Base(d));
    assert [] + [Lone("a")] == [Lone("a")];
  }

  /** A new process in that place, whose start failed, logs another request: the first one is gone. */
  lemma BareLosesRow(c: Codec) returns (d': Disk, s': Store)
    requires Lossless(c)
    ensures FlushRel(c, OneLine(c), Appended(Bare(50), Lone("b")), 0, d', s', Flushed)
    ensures Load(c, OneLine(c)).Ok? && Load(c, OneLine(c)).value.rows == [Lone("a")]
    ensures Load(c, d').Ok? && Load(c, d').value.rows == [Lone("b")]
    ensures !StillReads(c, d', [Lone("a")], Lone("b"), 50)
  {
    OneLineReads(c);
    LoneIsStored("b");
    d', s' := LogWorks(c, OneLine(c), Bare(50), Lone("b"), 0);
    BareCut(c, OneLine(c), Lone("b"), 50);
    hide AppendRows, EventOf, FlushRel, Load, Line, Stored;
    BareSurviveIff(c, OneLine(c), Lone("b"), 50, 0, d', s');
    UnloadedSurviveIff(c, OneLine(c), Bare(50), Lone("b"), 0, d', s');
  }

  /** Logging can succeed wherever the journal is long enough. */
  lemma LogWorks(c: Codec, d: Disk, s: Store, e: Row, now: Time) returns (d': Disk, s': Store)
    requires s.retention >= 1 && s.pending == [] && (s.needsSnapshot ==> s.retryAt <= now)
    requires s.needsSnapshot || s.journalBytes <= |Contents(d.journal)|
    ensures FlushRel(c, d, Appended(s, e), now, d', s', Flushed)
  {
    var t := Appended(s, e);
    QueuedOne(c, s, e);
    hide AppendRows, EventOf, Lines, Line, Appended;
    var d1, s1;
    var snap := Snapshot(1, t.sequence, t.logs);
    if s.needsSnapshot {
      d1 := Snapped(d, t);
      s1 := t.(journalBytes := 0, journalEvents := 0, snapshotBytes := c.snapshotSize(snap), pending := [],
               needsSnapshot := false);
      assert CompactRel(c, d, t, d1, s1, Done);
    } else {
      d1 := WithLine(c, d, s.journalBytes, EventOf(s, e));
      s1 := t.(journalBytes := s.journalBytes + |Line(c, EventOf(s, e))|, journalEvents := s.journalEvents + 1,
               pending := []);
      assert WriteRel(c, d, t, d1, s1, Done);
    }
    var s2 := s1;
    d' := d1;
    if Threshold(s1) {
      d' := Snapped(d1, s1);
      s2 := s1.(journalBytes := 0, journalEvents := 0,
                snapshotBytes := c.snapshotSize(Snapshot(1, s1.sequence, s1.logs)),
                pending := [], needsSnapshot := false);
      assert CompactRel(c, d1, s1, d', s2, Done);
    }
    s' := s2.(retryAt := 0);
    assert FlushSteps(c, d, t, d1, s1, Done, d', s2, Done);
    assert FinishRel(s2, now, Done, s', Flushed);
  }

  // ---------------------------------------------------------------- an instance

  /** A flush that fails before it has changed anything. */
  lemma FlushCanFail(c: Codec, d: Disk, s: Store, now: Time) returns (s': Store)
    requires s.needsSnapshot ==> s.stopped || s.retryAt <= now
    requires s.needsSnapshot || s.pending != []
    ensures FlushRel(c, d, s, now, d, s', FlushFailed)
    ensures s' == s.(pending := [], needsSnapshot := true, retryAt := now + 2 * SECOND)
  {
    hide Lines, Threshold;
    s' := s.(pending := [], needsSnapshot := true, retryAt := now + 2 * SECOND);
    assert FlushSteps(c, d, s, d, s, Failed, d, s, Failed) && FinishRel(s, now, Failed, s', FlushFailed);
  }

  lemma SnapshotCanWork(c: Codec, d: Disk, s: Store, now: Time) returns (s': Store)
    requires s.needsSnapshot && s.retryAt <= now
    ensures FlushRel(c, d, s, now, Snapped(d, s), s', Flushed)
    ensures s' == s.(journalBytes := 0, journalEvents := 0, snapshotBytes := s'.snapshotBytes, pending := [],
                     needsSnapshot := false, retryAt := 0)
  {
    var s1 := s.(journalBytes := 0, journalEvents := 0,
                 snapshotBytes := c.snapshotSize(Snapshot(1, s.sequence, s.logs)), pending := [],
                 needsSnapshot := false);
    s' := s1.(retryAt := 0);
    assert CompactRel(c, d, s, Snapped(d, s), s1, Done) && !Threshold(s1);
    assert FlushSteps(c, d, s, Snapped(d, s), s1, Done, Snapped(d, s), s1, Done);
    assert FinishRel(s1, now, Done, s', Flushed);
  }

  lemma RunMore(c: Codec, run: seq<Sys>, next: Sys)
    requires IsRun(c, run) && Next(c, run[|run| - 1], next)
    ensures IsRun(c, run + [next])
  {
    hide Next, Init;
    var more := run + [next];
    forall i: nat ensures StepAt(c, more, i) {
      if i + 1 < |run| { assert StepAt(c, run, i); }
    }
  }

  const EMPTY := Disk(None, None, None)

  function Failing(rows: seq<Row>, sequence: nat, now: Time): Store {
    Store(rows, sequence, 0, 0, 0, [], true, now + 2 * SECOND, 50, false)
  }

  lemma Starts(c: Codec) returns (run: seq<Sys>)
    ensures IsRun(c, run) && run[|run| - 1] == Sys(EMPTY, Some(Bare(50)), [[]], 0)
  {
    var first, second := Sys(EMPTY, None, [[]], 0), Sys(EMPTY, Some(Bare(50)), [[]], 0);
    NothingToLoad(c, Base(EMPTY));
    assert StartStep(c, first, second, 50, 0);
    run := [first];
    hide Next;
    assert Next(c, first, second) by { NextStart(c, first, second); }
    RunMore(c, run, second);
    run := run + [second];
  }

  lemma NextStart(c: Codec, a: Sys, b: Sys)
    requires StartStep(c, a, b, 50, 0)
    ensures Next(c, a, b)
  {
    hide StartStep;
  }

  /** A request that cannot be written while the service is in order. */
  lemma AppendFails(c: Codec, run: seq<Sys>, id: string, now: Time) returns (more: seq<Sys>)
    requires IsRun(c, run) && run[|run| - 1].live.Some?
    requires var s := run[|run| - 1].live.value;
             !s.needsSnapshot && s.pending == [] && s.retention == 50 && |s.logs| < 50
    ensures IsRun(c, more)
    ensures var a := run[|run| - 1];
            var s := a.live.value;
            more[|more| - 1] ==
              Sys(a.disk, Some(s.(logs := s.logs + [Lone(id)], sequence := s.sequence + 1, pending := [],
                                  needsSnapshot := true, retryAt := now + 2 * SECOND)),
                  a.hist + [s.logs + [Lone(id)]], a.durable)
  {
    var a := run[|run| - 1];
    var s := a.live.value;
    LoneAppends(s.logs, id);
    QueuedOne(c, s, Lone(id));
    hide AppendRows, EventOf, Lines, Drifts, Merge, FlushRel, IsRun;
    var t := Appended(s, Lone(id));
    var s' := FlushCanFail(c, a.disk, t, now);
    var b := Sys(a.disk, Some(s'), a.hist + [t.logs], a.durable);
    assert FlushedTo(c, a.disk, t, a.hist + [t.logs], a.durable, now, b);
    assert AppendStep(c, a, b, Lone(id), now);
    hide AppendStep, Appended;
    RunMore(c, run, b);
    more := run + [b];
  }

  lemma TimerWorks(c: Codec, run: seq<Sys>, now: Time) returns (more: seq<Sys>, size: nat)
    requires IsRun(c, run) && run[|run| - 1].live.Some?
    requires var s := run[|run| - 1].live.value; s.needsSnapshot && s.retryAt <= now
    ensures IsRun(c, more)
    ensures var a := run[|run| - 1];
            var s := a.live.value;
            more[|more| - 1] ==
              Sys(Snapped(a.disk, s),
                  Some(s.(journalBytes := 0, journalEvents := 0, snapshotBytes := size, pending := [],
                          needsSnapshot := false, retryAt := 0)),
                  a.hist, s.sequence)
  {
    var a := run[|run| - 1];
    var s := a.live.value;
    var s' := SnapshotCanWork(c, a.disk, s, now);
    size := s'.snapshotBytes;
    var b := Sys(Snapped(a.disk, s), Some(s'), a.hist, s.sequence);
    hide FlushRel;
    assert FlushedTo(c, a.disk, s, a.hist, a.durable, now, b);
    assert TimerStep(c, a, b, now);
    hide TimerStep, FlushedTo, Snapped;
    RunMore(c, run, b);
    more := run + [b];
  }

  /** A request is made durable by a snapshot, a later one cannot be written, the last attempt to do
      so on quiescing fails, and so does the restart. The next request replaces them all. */
  lemma InstanceLosesRow(c: Codec) returns (run: seq<Sys>, m: Sys, d': Disk, s': Store)
    requires Lossless(c)
    ensures IsRun(c, run) && run[|run| - 1].live.Some? && m.live.Some?
    ensures var a := run[|run| - 1];
            FlushedTo(c, a.disk, a.live.value.(stopped := true), a.hist, a.durable, 2 * SECOND, m)
    ensures FlushRel(c, m.disk, Appended(Emptied(m.live.value, 50), Lone("b")), 4 * SECOND, d', s', Flushed)
    ensures m.durable == 1 < |m.hist| && Load(c, m.disk).Ok? && Load(c, m.disk).value.rows == [Lone("a")] == m.hist[1]
    ensures Load(c, d').Ok? && Load(c, d').value.rows == [Lone("b")] == s'.logs
    ensures !StillReads(c, d', [Lone("a")], Lone("b"), 50)
  {
    run := DurableThenFailing(c);
    var a := run[|run| - 1];
    var stopped := a.live.value.(stopped := true);
    var last := FlushCanFail(c, a.disk, stopped, 2 * SECOND);
    m := Sys(a.disk, Some(last), a.hist, a.durable);
    var s := Emptied(last, 50);
    LoneIsStored("b");
    SnapshotReads(c, EMPTY, Failing([Lone("a")], 1, 0));
    d', s' := LogWorks(c, m.disk, s, Lone("b"), 4 * SECOND);
    hide FlushRel, IsRun, AppendRows, EventOf, Load, Stored, Appended;
    assert FlushedTo(c, a.disk, stopped, a.hist, a.durable, 2 * SECOND, m);
    InstanceSurviveIff(c, run, |run| - 1, 2 * SECOND, m, Lone("b"), 50, 4 * SECOND, d', s');
  }

  lemma DurableThenFailing(c: Codec) returns (run: seq<Sys>)
    ensures IsRun(c, run) && run[|run| - 1].live.Some?
    ensures var a := run[|run| - 1];
            && a.disk == Snapped(EMPTY, Failing([Lone("a")], 1, 0)) && a.durable == 1 && |a.hist| == 3
            && a.hist[1] == [Lone("a")] && a.live.value.needsSnapshot && !a.live.value.stopped
  {
    hide IsRun;
    var none: seq<Row> := [];
    run := Starts(c);
    run := AppendFails(c, run, "a", 0);
    assert none + [Lone("a")] == [Lone("a")];
    var size;
    run, size := TimerWorks(c, run, 2 * SECOND);
    run := AppendFails(c, run, "z", 2 * SECOND);
  }
}
