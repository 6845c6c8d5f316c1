/**
 Requests that are logged by a process which has not loaded the log, because its start failed
 before or in the load. The log in memory is then empty or shorter than the one on disk, and the
 counters are those of an earlier life, or zero.
 */
module UnloadedLog {
  import opened Common
  import opened BackoffLog
  import opened RequestLogStore
  import opened RequestLogRecovery

  /** What a new process has in memory when its start fails before the log is loaded. */
  function Bare(retention: int): Store { Store([], 0, 0, 0, 0, [], false, 0, retention, false) }

  /** What an instance has then: it keeps its counters, and its rows unless it was quiesced. */
  function Emptied(s: Store, retention: int): Store {
    s.(logs := if s.stopped then [] else s.logs, stopped := false, retention := retention)
  }

  /** What a start that fails in the load leaves: the rows and counters up to there. */
  function Held(c: Codec, d: Disk, retention: int, stopped: bool): Store {
    if d.snapshot.Some? && d.snapshot.value.version != 1
    then Store([], 0, 0, 0, 0, [], false, 0, retention, stopped)
    else
      var l := ReadSoFar(c, Contents(d.journal), Base(d));
      Store(l.rows, l.sequence, l.bytes, l.events, BaseSize(c, d), [], false, 0, retention, stopped)
  }

  // ---------------------------------------------------------------- where the row goes

  function EventOf(s: Store, e: Row): Event
    requires s.retention >= 1
  {
    AppendEvent(s.logs, e, s.sequence + 1, s.retention)
  }

  /** The row as it is stored by a process that remembers no other. */
  function Stored(e: Row, retention: int): Row
    requires retention >= 1
  {
    LastOf(AppendRows([], e, retention))
  }

  /** Logging ends with a snapshot of the rows in memory, and not with a line in the journal alone. */
  predicate Snapshots(c: Codec, s: Store, e: Row)
    requires s.retention >= 1
  {
    s.needsSnapshot
      || Threshold(s.(journalBytes := s.journalBytes + |Line(c, EventOf(s, e))|, journalEvents := s.journalEvents + 1))
  }

  function Cut(d: Disk, at: nat): Disk
    requires at <= |Contents(d.journal)|
  {
    d.(journal := Some(Contents(d.journal)[..at]))
  }

  function WithLine(c: Codec, d: Disk, at: nat, ev: Event): Disk
    requires at <= |Contents(d.journal)|
  {
    d.(journal := Some(Contents(d.journal)[..at] + Line(c, ev)))
  }

  function Snapped(d: Disk, s: Store): Disk {
    d.(snapshot := Some(Snapshot(1, s.sequence, s.logs)), journal := Some(""))
  }

  lemma QueuedOne(c: Codec, s: Store, e: Row)
    requires s.retention >= 1 && s.pending == []
    ensures var t := Appended(s, e);
            && t.logs == AppendRows(s.logs, e, s.retention) && t.sequence == s.sequence + 1
            && t == s.(logs := t.logs, sequence := t.sequence, pending := t.pending)
            && t.pending == (if s.needsSnapshot then [] else [EventOf(s, e)])
            && Lines(c, [EventOf(s, e)]) == Line(c, EventOf(s, e))
  {
    hide Merge, AppendRows, LastOf;
    var ev := EventOf(s, e);
    assert [] + [ev] == [ev] && [ev][1..] == [] && Line(c, ev) + "" == Line(c, ev);
  }

  /** A request logged without an error: what is on disk then, from any memory and any disk. */
  lemma LoggedDisk(c: Codec, d: Disk, s: Store, e: Row, now: Time, d': Disk, s': Store)
    requires s.retention >= 1 && s.pending == []
    requires FlushRel(c, d, Appended(s, e), now, d', s', Flushed)
    ensures s'.logs == AppendRows(s.logs, e, s.retention)
    ensures s.needsSnapshot || s.journalBytes <= |Contents(d.journal)|
    ensures d' == if Snapshots(c, s, e) then Snapped(d, Appended(s, e))
                  else WithLine(c, d, s.journalBytes, EventOf(s, e))
  {
    var t := Appended(s, e);
    QueuedOne(c, s, e);
    hide AppendRows, EventOf, Lines, Line, Appended;
    var d1, s1, o1, s2, o2 :| FlushSteps(c, d, t, d1, s1, o1, d', s2, o2) && FinishRel(s2, now, o2, s', Flushed);
  }

  // ---------------------------------------------------------------- what a load then reads

  predicate AtLineEnd(file: string, at: nat)
    requires at <= |file|
  {
    at == 0 || file[at - 1] == '\n'
  }

  lemma LineEndOfMore(a: string, b: string)
    requires a != "" && AtLineEnd(a, |a|)
    ensures LineEnd(a + b) == LineEnd(a) < |a|
  {
    var n := LineEnd(a);
    assert a[..|a|] == a && a[|a| - 1] == '\n';
    assert n < |a| && [a[n]] == "\n";
    hide LineEnd;
    assert a == a[..n] + "\n" + a[n + 1..];
    assert a + b == a[..n] + "\n" + (a[n + 1..] + b);
    LineEndOfLine(a[..n], a[n + 1..] + b);
  }

  /** Behind complete lines a reading goes on from where they lead. */
  lemma {:induction false} LoadOfConcat(c: Codec, a: string, b: string, st: Replayed)
    requires AtLineEnd(a, |a|)
    ensures LoadJournal(c, a + b, st) ==
            match LoadJournal(c, a, st) case Err(x) => Err(x) case Ok(m) => LoadJournal(c, b, m)
    decreases |a|
  {
    if a == "" {
      assert a + b == b;
    } else {
      FirstLineOfMore(a, b);
      LoadStep(c, a + b, st);
      LoadStep(c, a, st);
      hide LoadJournal, ReadSoFar, LineEnd, ReplayLine, AtLineEnd;
      var n := LineEnd(a);
      if c.dec(a[..n]).Some? {
        var next := ReplayLine(st, c.dec(a[..n]).value, n + 1);
        if next.Ok? { LoadOfConcat(c, a[n + 1..], b, next.value); }
      }
    }
  }

  /** More text behind complete lines leaves the first of them as it is. */
  lemma FirstLineOfMore(a: string, b: string)
    requires a != "" && AtLineEnd(a, |a|)
    ensures var n := LineEnd(a);
            && n < |a| && LineEnd(a + b) == n && (a + b)[..n] == a[..n] && (a + b)[n + 1..] == a[n + 1..] + b
            && AtLineEnd(a[n + 1..], |a[n + 1..]|)
  {
    LineEndOfMore(a, b);
    hide LineEnd;
    var rest := a[LineEnd(a) + 1..];
    assert rest != "" ==> rest[|rest| - 1] == a[|a| - 1];
  }

  /** The rows a journal has read up to one of its line ends, when all of it reads. */
  lemma CutReads(c: Codec, d: Disk, at: nat)
    requires Load(c, d).Ok? && at <= |Contents(d.journal)| && AtLineEnd(Contents(d.journal), at)
    ensures Load(c, Cut(d, at)).Ok?
    ensures Load(c, d) == LoadJournal(c, Contents(d.journal)[at..], Load(c, Cut(d, at)).value)
  {
    var file := Contents(d.journal);
    assert file == file[..at] + file[at..];
    assert AtLineEnd(file[..at], at);
    LoadOfConcat(c, file[..at], file[at..], Base(d));
  }

  /** The last line end up to a place in a file. */
  function LinesUpTo(file: string, at: nat): (from: nat)
    requires at <= |file|
    ensures from <= at
  {
    if AtLineEnd(file, at) then at else LinesUpTo(file, at - 1)
  }

  lemma {:induction false} LinesUpToIs(file: string, at: nat)
    requires at <= |file|
    ensures var from := LinesUpTo(file, at); AtLineEnd(file, from) && NoNewline(file[from..at])
  {
    if !AtLineEnd(file, at) {
      LinesUpToIs(file, at - 1);
      var from := LinesUpTo(file, at - 1);
      assert forall i :: 0 <= i < at - 1 - from ==> file[from..at][i] == file[from..at - 1][i];
    }
  }

  /** The line that comes about when one is written behind a torn one. */
  function Spliced(c: Codec, d: Disk, at: nat, ev: Event): string
    requires at <= |Contents(d.journal)|
  {
    Contents(d.journal)[LinesUpTo(Contents(d.journal), at)..at] + c.enc(ev)
  }

  /** Cutting a journal anywhere and writing a line there: what precedes is read, then the spliced line. */
  lemma LineReads(c: Codec, d: Disk, at: nat, ev: Event)
    requires OneLineEach(c) && at <= |Contents(d.journal)|
    ensures Load(c, WithLine(c, d, at, ev)) ==
            match Load(c, Cut(d, LinesUpTo(Contents(d.journal), at))) case Err(x) => Err(x)
            case Ok(m) =>
              match c.dec(Spliced(c, d, at, ev)) case None => Err(MalformedLine(m.bytes))
              case Some(read) => ReplayLine(m, read, |Spliced(c, d, at, ev)| + 1)
  {
    var from, line := LinesUpTo(Contents(d.journal), at), Spliced(c, d, at, ev);
    SplicedIs(c, d, at, ev);
    LoadOfText(c, d, Contents(d.journal)[..from]);
    LoadOfText(c, d, Contents(d.journal)[..at] + Line(c, ev));
    hide Load, Base, LoadJournal, LineEnd, ReplayLine, Spliced, LinesUpTo, Line, Contents, AtLineEnd;
    LoadOfConcat(c, Contents(d.journal)[..from], line + "\n", Base(d));
    if Load(c, Cut(d, from)).Ok? { LastLineReads(c, line, Load(c, Cut(d, from)).value); }
  }

  lemma LoadOfText(c: Codec, d: Disk, text: string)
    ensures Load(c, d.(journal := Some(text))) ==
            if d.snapshot.Some? && d.snapshot.value.version != 1 then Err(UnsupportedSnapshot)
            else LoadJournal(c, text, Base(d))
  {
    hide Compact, LoadJournal;
  }

  lemma SplicedIs(c: Codec, d: Disk, at: nat, ev: Event)
    requires OneLineEach(c) && at <= |Contents(d.journal)|
    ensures var from, line := LinesUpTo(Contents(d.journal), at), Spliced(c, d, at, ev);
            && NoNewline(line) && AtLineEnd(Contents(d.journal)[..from], from)
            && Contents(d.journal)[..at] + Line(c, ev) == Contents(d.journal)[..from] + (line + "\n")
  {
    LinesUpToIs(Contents(d.journal), at);
    hide LinesUpTo;
    var from := LinesUpTo(Contents(d.journal), at);
    assert Contents(d.journal)[..at] == Contents(d.journal)[..from] + Contents(d.journal)[from..at];
  }

  lemma LastLineReads(c: Codec, line: string, st: Replayed)
    requires NoNewline(line)
    ensures LoadJournal(c, line + "\n", st) ==
            match c.dec(line) case None => Err(MalformedLine(st.bytes)) case Some(ev) => ReplayLine(st, ev, |line| + 1)
  {
    assert line + "\n" == line + "\n" + "";
    LineEndOfLine(line, "");
    LoadStep(c, line + "\n", st);
    hide LoadJournal, LineEnd, ReplayLine, ReadSoFar;
    assert (line + "\n")[..|line|] == line && (line + "\n")[|line| + 1..] == "";
    if c.dec(line).Some? {
      var next := ReplayLine(st, c.dec(line).value, |line| + 1);
      if next.Ok? { NothingToLoad(c, next.value); }
    }
  }

  lemma OwnLine(c: Codec, d: Disk, at: nat, ev: Event)
    requires at <= |Contents(d.journal)| && AtLineEnd(Contents(d.journal), at)
    ensures LinesUpTo(Contents(d.journal), at) == at && Spliced(c, d, at, ev) == c.enc(ev)
  {}

  /** Counters of a successful reading are in order. */
  lemma {:induction false} LoadBounds(c: Codec, file: string, st: Replayed)
    requires LoadJournal(c, file, st).Ok? && st.previous <= st.sequence
    ensures st.sequence <= LoadJournal(c, file, st).value.sequence
    ensures LoadJournal(c, file, st).value.previous <= LoadJournal(c, file, st).value.sequence
    decreases |file|
  {
    var n := LineEnd(file);
    if n < |file| { LoadBounds(c, file[n + 1..], ReplayLine(st, c.dec(file[..n]).value, n + 1).value); }
  }

  lemma SnapshotReads(c: Codec, d: Disk, s: Store)
    ensures Load(c, Snapped(d, s)) == Ok(Replayed(s.logs, s.sequence, 0, 0, 0))
  {
    NothingToLoad(c, Base(Snapped(d, s)));
  }

  // ---------------------------------------------------------------- when earlier rows survive

  /** Earlier rows are still read: as they were, or followed by the new row within the retention. */
  predicate StillReads(c: Codec, d: Disk, rows: seq<Row>, x: Row, retention: nat) {
    var r := Load(c, d);
    r.Ok? && (r.value.rows == rows || r.value.rows == Truncate(rows + [x], retention))
  }

  /** What the journal reads up to where the process takes its end to be. */
  function UpTo(c: Codec, d: Disk, s: Store): Result<Replayed, LoadError>
    requires s.journalBytes <= |Contents(d.journal)|
  {
    Load(c, Cut(d, s.journalBytes))
  }

  /** The line continues what is read up to there; or it repeats a number and is passed over. */
  predicate Continues(m: Replayed, s: Store) { m.sequence == s.sequence }
  predicate Repeats(m: Replayed, s: Store) { m.previous <= s.sequence < m.sequence }

  /** The newest of the earlier rows that the retention keeps beside a new one. */
  function Beside(rows: seq<Row>, retention: nat): seq<Row>
    requires retention >= 1
  {
    Truncate(rows, retention - 1)
  }

  predicate Survive(c: Codec, d: Disk, s: Store, e: Row, rows: seq<Row>)
    requires s.retention >= 1
  {
    if Snapshots(c, s, e) then rows == [] || s.retention == 1
    else
      && s.journalBytes <= |Contents(d.journal)| && AtLineEnd(Contents(d.journal), s.journalBytes) && UpTo(c, d, s).Ok?
      && var m := UpTo(c, d, s).value;
         || (Continues(m, s) && Beside(m.rows, s.retention) == Beside(rows, s.retention))
         || (Repeats(m, s) && m.rows == rows)
  }

  /** The load reads the one row the process itself has. */
  predicate ReadsOwn(c: Codec, d: Disk, s: Store, e: Row)
    requires s.retention >= 1
  {
    || Snapshots(c, s, e)
    || (s.journalBytes <= |Contents(d.journal)| && AtLineEnd(Contents(d.journal), s.journalBytes) && UpTo(c, d, s).Ok?
        && Continues(UpTo(c, d, s).value, s) && (UpTo(c, d, s).value.rows == [] || s.retention == 1))
  }

  /** The row is in none of those the disk reads, since a request's identifier is its own; and no
      line reads that begins with a piece of another. */
  predicate New(c: Codec, d: Disk, s: Store, e: Row)
    requires s.retention >= 1
  {
    && (Load(c, d).Ok? ==> Stored(e, s.retention) !in Load(c, d).value.rows)
    && (!Snapshots(c, s, e) && s.journalBytes <= |Contents(d.journal)| ==>
          if AtLineEnd(Contents(d.journal), s.journalBytes)
          then UpTo(c, d, s).Ok? ==> Stored(e, s.retention) !in UpTo(c, d, s).value.rows
          else c.dec(Spliced(c, d, s.journalBytes, EventOf(s, e))).None?)
  }

  lemma TruncateOfMore(rows: seq<Row>, x: Row, retention: nat)
    requires retention >= 1
    ensures Truncate(rows + [x], retention) == Beside(rows, retention) + [x]
  {}

  lemma SameBeside(a: seq<Row>, b: seq<Row>, x: Row, retention: nat)
    requires retention >= 1
    ensures Truncate(a + [x], retention) == Truncate(b + [x], retention) <==>
              Beside(a, retention) == Beside(b, retention)
    ensures Truncate(a + [x], retention) == [x] <==> a == [] || retention == 1
    ensures x in Truncate(a + [x], retention)
  {
    TruncateOfMore(a, x, retention);
    TruncateOfMore(b, x, retention);
    var p, q := Beside(a, retention), Beside(b, retention);
    assert p == (p + [x])[..|p|] && q == (q + [x])[..|q|];
    assert (p + [x])[|p|] == x;
  }

  lemma StoredAlone(s: Store, e: Row)
    requires s.logs == [] && ValidRetention(s.retention)
    ensures AppendRows([], e, s.retention) == [Stored(e, s.retention)]
    ensures EventOf(s, e) == Event(s.sequence + 1, Some(Stored(e, s.retention)), false, s.retention, false)
  {
    var i, x := MergeShape([], e);
    assert [] + [x] == [x];
  }

  /** A line that continues the disk's rows, or repeats one of its numbers, reads; any other ends the load. */
  lemma OwnLineReads(c: Codec, d: Disk, s: Store, e: Row)
    requires Lossless(c) && s.logs == [] && ValidRetention(s.retention) && Load(c, d).Ok?
    requires s.journalBytes <= |Contents(d.journal)| && AtLineEnd(Contents(d.journal), s.journalBytes)
    ensures UpTo(c, d, s).Ok?
    ensures var m, after := UpTo(c, d, s).value, Load(c, WithLine(c, d, s.journalBytes, EventOf(s, e)));
            && (after.Ok? <==> Continues(m, s) || Repeats(m, s))
            && (Continues(m, s) ==>
                  after.value.rows == Truncate(m.rows + [Stored(e, s.retention)], s.retention))
            && (Repeats(m, s) ==> after.value.rows == m.rows)
  {
    hide AppendRows, EventOf, Stored, Compact, LoadJournal, Truncate;
    CutReads(c, d, s.journalBytes);
    LineReads(c, d, s.journalBytes, EventOf(s, e));
    OwnLine(c, d, s.journalBytes, EventOf(s, e));
    LoadBounds(c, Contents(Cut(d, s.journalBytes).journal), Base(d));
    StoredAlone(s, e);
  }

  /** A process with an empty log has logged a request without an error. Exactly then do the rows
      that were on disk survive; and exactly then does a load read the process's own. */
  lemma UnloadedSurviveIff(c: Codec, d: Disk, s: Store, e: Row, now: Time, d': Disk, s': Store)
    requires Lossless(c) && s.logs == [] && s.pending == [] && ValidRetention(s.retention) && Load(c, d).Ok?
    requires FlushRel(c, d, Appended(s, e), now, d', s', Flushed) && New(c, d, s, e)
    ensures var rows := Load(c, d).value.rows;
            StillReads(c, d', rows, Stored(e, s.retention), s.retention) <==> Survive(c, d, s, e, rows)
    ensures s'.logs == [Stored(e, s.retention)]
    ensures Load(c, d').Ok? && Load(c, d').value.rows == s'.logs <==> ReadsOwn(c, d, s, e)
  {
    LoggedDisk(c, d, s, e, now, d', s');
    StoredAlone(s, e);
    var x, rows := Stored(e, s.retention), Load(c, d).value.rows;
    SameBeside(rows, rows, x, s.retention);
    hide AppendRows, EventOf, Stored, Base, Load, Truncate, Beside, FlushRel;
    if Snapshots(c, s, e) {
      QueuedOne(c, s, e);
      SnapshotReads(c, d, Appended(s, e));
    } else if !AtLineEnd(Contents(d.journal), s.journalBytes) {
      LineReads(c, d, s.journalBytes, EventOf(s, e));
    } else {
      OwnLineReads(c, d, s, e);
      var m := UpTo(c, d, s).value;
      SameBeside(m.rows, rows, x, s.retention);
    }
  }

  // ---------------------------------------------------------------- when logging fails or dies

  /** The snapshot is in place and the journal is not emptied yet. */
  function Renamed(d: Disk, s: Store): Disk { d.(snapshot := Some(Snapshot(1, s.sequence, s.logs))) }

  lemma TornReads(c: Codec, d: Disk, at: nat, torn: string)
    requires at <= |Contents(d.journal)| && NoNewline(torn)
    ensures Load(c, d.(journal := Some(Contents(d.journal)[..at] + torn))) == Load(c, Cut(d, at))
  {
    var file := Contents(d.journal);
    var from := LinesUpTo(file, at);
    LinesUpToIs(file, at);
    var rest := file[from..at];
    assert file[..at] == file[..from] + rest && file[..at] + torn == file[..from] + (rest + torn);
    assert AtLineEnd(file[..from], from);
    LoadOfConcat(c, file[..from], rest, Base(d));
    LoadOfConcat(c, file[..from], rest + torn, Base(d));
    NoLineReads(c, rest);
    NoLineReads(c, rest + torn);
  }

  lemma NoLineReads(c: Codec, s: string)
    requires NoNewline(s)
    ensures forall st :: LoadJournal(c, s, st) == Ok(st)
  {
    assert LineEnd(s) == |s|;
  }

  /** Whatever becomes of a logged request, a load then reads what it did before, or the journal up
      to where the process took its end to be, or that and the line, or one of the stages of a snapshot. */
  lemma AnyOutcomeReads(c: Codec, d: Disk, s: Store, e: Row, now: Time, d': Disk, s': Store, result: FlushResult)
    requires OneLineEach(c) && s.retention >= 1 && s.pending == []
    requires FlushRel(c, d, Appended(s, e), now, d', s', result)
    ensures result == Deferred ==> d' == d
    ensures s.needsSnapshot ==> d' == d || d' == Renamed(d, Appended(s, e)) || d' == Snapped(d, Appended(s, e))
    ensures !s.needsSnapshot && Load(c, d') != Load(c, d) ==>
              && s.journalBytes <= |Contents(d.journal)|
              && var lined := WithLine(c, d, s.journalBytes, EventOf(s, e));
                 || Load(c, d') == Load(c, Cut(d, s.journalBytes))
                 || d' == lined
                 || (Snapshots(c, s, e) && (d' == Renamed(lined, Appended(s, e)) || d' == Snapped(d, Appended(s, e))))
  {
    var t := Appended(s, e);
    QueuedOne(c, s, e);
    hide AppendRows, EventOf, Lines, Appended, Load, JournalAfter, Threshold, Line, Cut;
    if result != Deferred {
      var d1, s1, o1, s2, o2 :| FlushSteps(c, d, t, d1, s1, o1, d', s2, o2) && FinishRel(s2, now, o2, s', result);
      if s.needsSnapshot {
        ShotReads(c, d, s, e, d1, s1, o1, d', s2, o2);
      } else {
        WrittenReads(c, d, s, e, d1, s1, o1);
        hide FinishRel, WriteRel;
      }
    }
  }

  /** A snapshot that is asked for is all that a flush does. */
  lemma ShotReads(c: Codec, d: Disk, s: Store, e: Row, d1: Disk, s1: Store, o1: Outcome, d2: Disk, s2: Store,
                  o2: Outcome)
    requires s.retention >= 1 && s.needsSnapshot && FlushSteps(c, d, Appended(s, e), d1, s1, o1, d2, s2, o2)
    ensures d2 == d || d2 == Renamed(d, Appended(s, e)) || d2 == Snapped(d, Appended(s, e))
  {
    hide AppendRows;
  }

  lemma WrittenReads(c: Codec, d: Disk, s: Store, e: Row, d': Disk, s': Store, outcome: Outcome)
    requires OneLineEach(c) && s.retention >= 1 && s.pending == [] && !s.needsSnapshot
    requires WriteRel(c, d, Appended(s, e), d', s', outcome)
    ensures Load(c, d') == Load(c, d)
            || (s.journalBytes <= |Contents(d.journal)|
                && (Load(c, d') == Load(c, Cut(d, s.journalBytes))
                    || d' == WithLine(c, d, s.journalBytes, EventOf(s, e))))
    ensures outcome == Done ==>
              s.journalBytes <= |Contents(d.journal)| && d' == WithLine(c, d, s.journalBytes, EventOf(s, e))
  {
    QueuedOne(c, s, e);
    hide AppendRows, EventOf, Lines, Appended, LoadJournal, Compact;
    var line := Line(c, EventOf(s, e));
    var file := Contents(d.journal);
    if outcome != Done && d'.journal != d.journal && d'.journal != Some(file) {
      var n :| 0 <= n <= |line| && d'.journal == Some(file[..s.journalBytes] + line[..n]);
      if n == |line| {
        assert line[..n] == line;
      } else {
        assert NoNewline(c.enc(EventOf(s, e))) && line[..n] == c.enc(EventOf(s, e))[..n];
        TornReads(c, d, s.journalBytes, line[..n]);
      }
    }
  }

  // ---------------------------------------------------------------- a new process

  const LARGE := 64 * 1024 * 1024

  lemma BareCut(c: Codec, d: Disk, e: Row, retention: int)
    requires ValidRetention(retention) && Load(c, d).Ok?
    ensures UpTo(c, d, Bare(retention)) == Ok(Base(d))
    ensures Snapshots(c, Bare(retention), e) <==> |Line(c, EventOf(Bare(retention), e))| >= LARGE
  {
    hide Compact, AppendRows;
    assert Contents(d.journal)[..0] == "";
    NothingToLoad(c, Base(d));
  }

  /** A new process whose start failed before the load: its first row replaces the whole journal. What
      was on disk survives exactly when the journal had added nothing to the base, or nothing that
      the retention would keep; under a snapshot the new row itself is passed over. */
  lemma BareSurviveIff(c: Codec, d: Disk, e: Row, retention: int, now: Time, d': Disk, s': Store)
    requires Lossless(c) && ValidRetention(retention) && Load(c, d).Ok?
    requires FlushRel(c, d, Appended(Bare(retention), e), now, d', s', Flushed) && New(c, d, Bare(retention), e)
    ensures var rows, base := Load(c, d).value.rows, Base(d);
            StillReads(c, d', rows, Stored(e, retention), retention) <==>
              if |Line(c, EventOf(Bare(retention), e))| >= LARGE then rows == [] || retention == 1
              else if base.sequence == 0 then Beside(base.rows, retention) == Beside(rows, retention)
              else base.rows == rows
    ensures Load(c, d').Ok? && Load(c, d').value.rows == s'.logs <==>
              || |Line(c, EventOf(Bare(retention), e))| >= LARGE
              || (Base(d).sequence == 0 && (Base(d).rows == [] || retention == 1))
  {
    BareCut(c, d, e, retention);
    UnloadedSurviveIff(c, d, Bare(retention), e, now, d', s');
    hide Compact, AppendRows, EventOf, FlushRel, Load, New, StillReads, Beside;
  }

  // ---------------------------------------------------------------- an instance that was quiesced

  lemma {:induction false} LinesEndLines(c: Codec, es: seq<Event>)
    ensures AtLineEnd(Lines(c, es), |Lines(c, es)|)
  {
    if es != [] {
      LinesEndLines(c, es[1..]);
      assert Lines(c, es) == Line(c, es[0]) + Lines(c, es[1..]);
      assert Line(c, es[0])[|Line(c, es[0])| - 1] == '\n';
    }
  }

  /** Memory in step with the disk: cutting the journal where memory has its end loses no row. */
  lemma InStepReads(c: Codec, d: Disk, s: Store, hist: seq<seq<Row>>)
    requires Lossless(c) && Ready(c, d, s, hist) && s.pending == [] && !s.needsSnapshot
    ensures Load(c, d).Ok? && s.journalBytes <= |Contents(d.journal)|
    ensures AtLineEnd(Contents(d.journal), s.journalBytes) && UpTo(c, d, s).Ok?
    ensures Continues(UpTo(c, d, s).value, s) && UpTo(c, d, s).value.rows == Load(c, d).value.rows
  {
    hide Compact, Replay, RequestLogStore.ApplyEvent, Line;
    var es, tail, q :| InStep(c, d, s, hist, es, tail, q);
    var file := Contents(d.journal);
    ReadsIsLoad(c, d, hist, es, tail, q);
    LinesEndLines(c, es);
    assert file[..s.journalBytes] == Lines(c, es);
    LoadIsReplay(c, es, "", Base(d));
    assert Lines(c, es) + "" == Lines(c, es);
  }

  lemma {:induction false} FlushKeepsStop(c: Codec, d: Disk, s: Store, now: Time, d': Disk, s': Store,
                                          result: FlushResult)
    requires FlushRel(c, d, s, now, d', s', result) && result != Crashed
    ensures s'.stopped == s.stopped
  {
    hide Lines, Threshold, JournalAfter;
    if result != Deferred {
      var d1, s1, o1, s2, o2 :| FlushSteps(c, d, s, d1, s1, o1, d', s2, o2) && FinishRel(s2, now, o2, s', result);
    }
  }

  /** What an instance knows once it is quiesced, in any run of the service. */
  lemma QuiescedIsReady(c: Codec, run: seq<Sys>, i: nat, now: Time, m: Sys)
    requires Lossless(c) && IsRun(c, run) && i < |run| && run[i].live.Some? && m.live.Some?
    requires FlushedTo(c, run[i].disk, run[i].live.value.(stopped := true), run[i].hist, run[i].durable, now, m)
    ensures Inv(c, m) && m.live.value.stopped && Load(c, m.disk).Ok?
    ensures var q := Load(c, m.disk).value.sequence;
            m.durable <= q < |m.hist| && Load(c, m.disk).value.rows == m.hist[q]
  {
    var a := run[i];
    RunKeepsInv(c, run, i);
    var s := a.live.value.(stopped := true);
    SettingsKeepReady(c, a.disk, a.live.value, a.hist, a.live.value.retention, true);
    FlushKeepsInv(c, a.disk, s, a.hist, a.durable, now, m);
    hide FlushRel, Ready, AllNormal, Reads, IsRun;
    var s', result :| FlushRel(c, a.disk, s, now, m.disk, s', result)
      && m.live == (if result == Crashed then None else Some(s'));
    FlushKeepsStop(c, a.disk, s, now, m.disk, s', result);
    var es, tail, q: nat :| Reads(c, m.disk, m.hist, es, tail, q) && m.durable <= q;
    ReadsIsLoad(c, m.disk, m.hist, es, tail, q);
    ReadsWithin(c, m.disk, m.hist, es, tail, q);
  }

  lemma ReadsWithin(c: Codec, d: Disk, hist: seq<seq<Row>>, es: seq<Event>, tail: string, q: nat)
    requires Reads(c, d, hist, es, tail, q)
    ensures q < |hist|
  {}

  /** In any run: an instance is quiesced, its restart fails before the load, and it logs a request.
      What was durable survives exactly when that does not end in a snapshot, or when there was
      nothing, or one row is kept; and a load reads the instance's own row exactly when it does, or
      there was nothing, or one row is kept. */
  lemma InstanceSurviveIff(c: Codec, run: seq<Sys>, i: nat, stop: Time, m: Sys, e: Row, retention: int, now: Time,
                           d': Disk, s': Store)
    requires Lossless(c) && IsRun(c, run) && i < |run| && run[i].live.Some? && m.live.Some? && ValidRetention(retention)
    requires FlushedTo(c, run[i].disk, run[i].live.value.(stopped := true), run[i].hist, run[i].durable, stop, m)
    requires FlushRel(c, m.disk, Appended(Emptied(m.live.value, retention), e), now, d', s', Flushed)
    requires Load(c, m.disk).Ok? ==> Stored(e, retention) !in Load(c, m.disk).value.rows
    ensures Load(c, m.disk).Ok? && s'.logs == [Stored(e, retention)]
    ensures var s, rows := Emptied(m.live.value, retention), Load(c, m.disk).value.rows;
            && (StillReads(c, d', rows, Stored(e, retention), retention) <==>
                  !Snapshots(c, s, e) || rows == [] || retention == 1)
            && (Load(c, d').Ok? && Load(c, d').value.rows == s'.logs <==>
                  Snapshots(c, s, e) || rows == [] || retention == 1)
  {
    hide FlushRel, FlushedTo, IsRun, Appended, Load, Stored, Lossless, StillReads, Snapshots, New, Survive, ReadsOwn,
         Ready, Recoverable, AllNormal;
    QuiescedIsReady(c, run, i, stop, m);
    var s := Emptied(m.live.value, retention);
    InStepSurvives(c, m.disk, m.live.value, m.hist, e, retention);
    UnloadedSurviveIff(c, m.disk, s, e, now, d', s');
  }

  /** What survives where memory and disk are in step. */
  lemma InStepSurvives(c: Codec, d: Disk, t: Store, hist: seq<seq<Row>>, e: Row, retention: int)
    requires Lossless(c) && Ready(c, d, t, hist) && t.pending == [] && t.stopped && ValidRetention(retention)
    requires Load(c, d).Ok? && Stored(e, retention) !in Load(c, d).value.rows
    ensures var s, rows := Emptied(t, retention), Load(c, d).value.rows;
            && New(c, d, s, e)
            && (Survive(c, d, s, e, rows) <==> !Snapshots(c, s, e) || rows == [] || retention == 1)
            && (ReadsOwn(c, d, s, e) <==> Snapshots(c, s, e) || rows == [] || retention == 1)
  {
    var s := Emptied(t, retention);
    if !t.needsSnapshot {
      InStepReads(c, d, t, hist);
      assert UpTo(c, d, s) == UpTo(c, d, t);
      hide AppendRows, EventOf, Load, Stored, Lossless, Ready, UpTo, LineEnd, AtLineEnd, Threshold, Beside;
    } else {
      hide Ready, Load, Stored, UpTo, Lossless, AppendRows, Threshold;
    }
  }

  // ---------------------------------------------------------------- a start that fails in the load

  /** A load stops at a line end, and what it has read is what the journal reads when cut there,
      unless the line it fails on has cleared it. */
  lemma {:induction false} ReadSoFarIsCut(c: Codec, file: string, st: Replayed)
    requires LoadJournal(c, file, st).Err?
    ensures var l := ReadSoFar(c, file, st);
            && 0 <= l.bytes - st.bytes <= |file| && AtLineEnd(file, l.bytes - st.bytes)
            && var cut := LoadJournal(c, file[..l.bytes - st.bytes], st);
               cut.Ok? && cut.value == l.(rows := cut.value.rows) && (l.rows == cut.value.rows || l.rows == [])
    decreases |file|
  {
    var n := LineEnd(file);
    LoadStep(c, file, st);
    hide LoadJournal, ReadSoFar, Replay, RequestLogStore.ApplyEvent;
    assert n < |file|;
    var line := c.dec(file[..n]);
    if line.Some? && ReplayLine(st, line.value, n + 1).Ok? {
      var next := ReplayLine(st, line.value, n + 1).value;
      var rest := file[n + 1..];
      ReadSoFarIsCut(c, rest, next);
      hide ReplayLine;
      var k := ReadSoFar(c, rest, next).bytes - next.bytes;
      CutBehindLine(c, file, k, st);
    } else {
      NothingToLoad(c, st);
      assert file[..0] == "";
    }
  }

  /** A file cut somewhere behind its first line still begins with that line. */
  lemma CutBehindLine(c: Codec, file: string, k: nat, st: Replayed)
    requires LineEnd(file) < |file| && LineEnd(file) + 1 + k <= |file| && c.dec(file[..LineEnd(file)]).Some?
    requires ReplayLine(st, c.dec(file[..LineEnd(file)]).value, LineEnd(file) + 1).Ok?
    requires AtLineEnd(file[LineEnd(file) + 1..], k)
    ensures var n := LineEnd(file);
            && AtLineEnd(file, n + 1 + k)
            && LoadJournal(c, file[..n + 1 + k], st) ==
               LoadJournal(c, file[n + 1..][..k], ReplayLine(st, c.dec(file[..n]).value, n + 1).value)
  {
    hide ReplayLine, LoadJournal, LineEnd, ReadSoFar;
    var n := LineEnd(file);
    var kept, rest := file[..n + 1 + k], file[n + 1..][..k];
    assert kept == file[..n] + "\n" + rest;
    LineEndOfLine(file[..n], rest);
    assert kept[..n] == file[..n] && kept[n + 1..] == rest;
    LoadStep(c, kept, st);
  }

  /** What memory and disk have in common after a load that failed. */
  lemma HeldIsCut(c: Codec, d: Disk, retention: int, stopped: bool)
    requires Load(c, d).Err? && (d.snapshot.Some? ==> d.snapshot.value.version == 1)
    ensures var s := Held(c, d, retention, stopped);
            && s.pending == [] && !s.needsSnapshot && s.retention == retention
            && s.journalBytes <= |Contents(d.journal)| && AtLineEnd(Contents(d.journal), s.journalBytes)
            && UpTo(c, d, s).Ok? && (s.logs == UpTo(c, d, s).value.rows || s.logs == [])
            && UpTo(c, d, s).value.previous <= UpTo(c, d, s).value.sequence == s.sequence
  {
    hide LoadJournal, ReadSoFar, Compact, BaseSize;
    ReadSoFarIsCut(c, Contents(d.journal), Base(d));
    LoadBounds(c, Contents(d.journal)[..Held(c, d, retention, stopped).journalBytes], Base(d));
  }

  /** A line that continues what is read up to there rebuilds the rows of a process that has those. */
  lemma ContinuingLineReads(c: Codec, d: Disk, s: Store, e: Row)
    requires Lossless(c) && ValidRetention(s.retention) && !Drifts(s.logs, e)
    requires s.journalBytes <= |Contents(d.journal)| && AtLineEnd(Contents(d.journal), s.journalBytes)
    requires UpTo(c, d, s).Ok? && UpTo(c, d, s).value.rows == s.logs
    requires UpTo(c, d, s).value.previous <= UpTo(c, d, s).value.sequence == s.sequence
    ensures var after := Load(c, WithLine(c, d, s.journalBytes, EventOf(s, e)));
            after.Ok? && after.value.rows == AppendRows(s.logs, e, s.retention)
  {
    hide Merge, Drifts, Load, AppendRows, Cut, LastOf, RequestLogStore.ApplyEvent;
    LineReads(c, d, s.journalBytes, EventOf(s, e));
    OwnLine(c, d, s.journalBytes, EventOf(s, e));
    ReplayRefinesAppend(s.logs, e, s.sequence + 1, s.retention);
  }

  /** The next request of a process whose load failed cuts the journal before the line that failed.
      From then on a load succeeds, and reads the rows the process has, if the row keeps its key and
      that line had not cleared them; everything from that line on is gone. */
  lemma FailedLoadIsCut(c: Codec, d: Disk, e: Row, retention: int, stopped: bool, now: Time, d': Disk, s': Store)
    requires Lossless(c) && ValidRetention(retention) && Load(c, d).Err?
    requires d.snapshot.Some? ==> d.snapshot.value.version == 1
    requires FlushRel(c, d, Appended(Held(c, d, retention, stopped), e), now, d', s', Flushed)
    ensures var s := Held(c, d, retention, stopped);
            && s.journalBytes <= |Contents(d.journal)| && AtLineEnd(Contents(d.journal), s.journalBytes)
            && UpTo(c, d, s).Ok? && (s.logs == UpTo(c, d, s).value.rows || s.logs == [])
            && d' == (if Snapshots(c, s, e) then Snapped(d, Appended(s, e))
                      else WithLine(c, d, s.journalBytes, EventOf(s, e)))
            && (!Drifts(s.logs, e) && (s.logs == UpTo(c, d, s).value.rows || Snapshots(c, s, e)) ==>
                  Load(c, d').Ok? && Load(c, d').value.rows == s'.logs == AppendRows(s.logs, e, retention))
  {
    var s := Held(c, d, retention, stopped);
    HeldIsCut(c, d, retention, stopped);
    hide Held, Merge, Drifts, FlushRel, Load, AppendRows, EventOf;
    LoggedDisk(c, d, s, e, now, d', s');
    if Snapshots(c, s, e) {
      QueuedOne(c, s, e);
      SnapshotReads(c, d, Appended(s, e));
    } else if !Drifts(s.logs, e) && s.logs == UpTo(c, d, s).value.rows {
      ContinuingLineReads(c, d, s, e);
    }
  }
}
