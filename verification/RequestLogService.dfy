/**
 The request log as the service runs it: fields updated in place, files written step by
 step. Every file operation may fail or be the last thing the process does, as the fault
 given to the method says; the contracts are the step relations of RequestLogRecovery.
 */
module RequestLogService {
  import opened Common
  import opened BackoffLog
  import opened RequestLogStore
  import opened RequestLogRecovery
  import opened UnloadedLog

  /** Where an append to the journal is interrupted; a write may stop after some bytes. */
  datatype AppendPoint = AtOpen | AtStat | AtTruncate | AtSeek | AtWrite(written: nat) | AtClose

  /** Where a compaction is interrupted. */
  datatype CompactPoint = AtTemporary | AtRename | AtDirectorySync | AtJournalReset | AtJournalClose

  datatype Fault<+P> = NoFault | Fails(at: P) | Dies(at: P)

  function Strikes<P(==)>(fault: Fault<P>, at: P): Outcome {
    if fault == Fails(at) then Failed else if fault == Dies(at) then Died else Done
  }

  method EncodeEvents(c: Codec, events: seq<Event>) returns (data: string)
    ensures data == Lines(c, events)
  {
    data := "";
    for i := 0 to |events|
      invariant data == Lines(c, events[..i])
    {
      data := data + Line(c, events[i]);
      assert events[..i + 1] == events[..i] + [events[i]];
      LinesOfConcat(c, events[..i], [events[i]]);
      assert Lines(c, [events[i]]) == Line(c, events[i]) + "" == Line(c, events[i]);
    }
    assert events[..|events|] == events;
  }

  class RequestLog {
    const codec: Codec
    var snapshotFile: Option<Snapshot>
    var legacyFile: Option<seq<Row>>
    var journalFile: Option<string>

    var logs: seq<Row>
    var retention: int
    var stopped: bool

    var sequence: nat
    var journalBytes: nat
    var journalEvents: nat
    var snapshotBytes: nat
    var pending: seq<Event>
    var needsSnapshot: bool
    var retryAt: Time

    constructor (c: Codec, legacy: Option<seq<Row>>)
      ensures codec == c && Files() == Disk(None, legacy, None)
    {
      codec := c;
      snapshotFile, legacyFile, journalFile := None, legacy, None;
      logs, retention, stopped := [], 1000, false;
      sequence, journalBytes, journalEvents, snapshotBytes := 0, 0, 0, 0;
      pending, needsSnapshot, retryAt := [], false, 0;
    }

    function Files(): Disk
      reads this
    {
      Disk(snapshotFile, legacyFile, journalFile)
    }

    function Memory(): Store
      reads this
    {
      Store(logs, sequence, journalBytes, journalEvents, snapshotBytes, pending, needsSnapshot, retryAt, retention,
            stopped)
    }

    /** Drops the last row with the key, if there is one. */
    method RemoveMergeTarget(key: Option<Key>) returns (found: bool)
      modifies this`logs
      ensures found <==> key.Some? && LastIndex(old(logs), key.value) >= 0
      ensures logs == if found then RemoveAt(old(logs), LastIndex(old(logs), key.value)) else old(logs)
    {
      hide KeyOf;
      if key.Some? { LastIndexIs(logs, key.value); }
      var i := |logs| - 1;
      while i >= 0
        invariant -1 <= i < |logs| && logs == old(logs)
        invariant key.Some? ==> LastIndex(logs, key.value) <= i
      {
        if key.Some? && KeyOf(logs[i]) == key {
          logs := logs[..i] + logs[i + 1..];
          return true;
        }
        i := i - 1;
      }
      return false;
    }

    method ApplyEvent(ev: Event) returns (ok: bool)
      requires ValidRetention(ev.retention)
      modifies this`logs
      ensures ok == RequestLogStore.ApplyEvent(old(logs), ev).Ok?
      ensures ok ==> RequestLogStore.ApplyEvent(old(logs), ev) == Ok(logs)
      ensures !ok ==> logs == if ev.clear then [] else old(logs)
    {
      if ev.clear {
        logs := [];
      }
      if ev.entry.Some? {
        if ev.merged {
          var found := RemoveMergeTarget(KeyOf(ev.entry.value));
          if !found {
            return false;
          }
        }
        logs := logs + [ev.entry.value];
      }
      if |logs| > ev.retention {
        logs := logs[|logs| - ev.retention..];
      }
      return true;
    }

    /** On success memory is what Load computes from the files, with nothing pending; otherwise it
        is what was read until then. */
    method LoadRequestLogs() returns (err: Option<LoadError>)
      modifies this
      ensures Files() == old(Files()) && retention == old(retention) && stopped == old(stopped)
      ensures err == (match Load(codec, Files()) case Ok(_) => None case Err(x) => Some(x))
      ensures err.None? ==> var l := Load(codec, Files()).value;
                            Memory() == Store(l.rows, l.sequence, l.bytes, l.events, BaseSize(codec, Files()), [],
                                              false, 0, retention, stopped)
      ensures Memory() == Held(codec, Files(), retention, stopped)
    {
      hide Compact, LoadJournal, ReadSoFar;
      sequence, journalBytes, journalEvents, snapshotBytes := 0, 0, 0, 0;
      pending, needsSnapshot, retryAt := [], false, 0;
      logs := [];
      if snapshotFile.Some? {
        if snapshotFile.value.version != 1 {
          return Some(UnsupportedSnapshot);
        }
        logs, sequence := snapshotFile.value.logs, snapshotFile.value.sequence;
        snapshotBytes := codec.snapshotSize(snapshotFile.value);
      } else {
        if legacyFile.Some? {
          logs := legacyFile.value;
          snapshotBytes := codec.legacySize(legacyFile.value);
        }
        logs := CompactBackoffLogs(logs);
      }
      if journalFile.None? {
        NothingToLoad(codec, Progress(0));
        ReadToTheEnd(codec, "", Progress(0));
        return None;
      }
      ghost var base := Progress(0);
      err := ReplayJournal(journalFile.value);
      if err.None? { ReadToTheEnd(codec, journalFile.value, base); }
    }

    /** Where a load stands: rows and counters as fields, the previous line's sequence beside them. */
    function Progress(previous: nat): Replayed
      reads this
    {
      Replayed(logs, sequence, previous, journalBytes, journalEvents)
    }

    method ReplayJournal(file: string) returns (err: Option<LoadError>)
      requires journalBytes == 0
      modifies this`logs, this`sequence, this`journalBytes, this`journalEvents
      ensures err == (match LoadJournal(codec, file, old(Progress(0))) case Ok(_) => None case Err(x) => Some(x))
      ensures err.None? ==> exists previous :: LoadJournal(codec, file, old(Progress(0))) == Ok(Progress(previous))
      ensures exists previous :: ReadSoFar(codec, file, old(Progress(0))) == Progress(previous)
    {
      hide LoadJournal, ReadSoFar, ReplayLine;
      var previous := 0;
      assert file[0..] == file;
      while true
        invariant journalBytes <= |file|
        invariant LoadJournal(codec, file, old(Progress(0))) ==
                    LoadJournal(codec, file[journalBytes..], Progress(previous))
        invariant ReadSoFar(codec, file, old(Progress(0))) == ReadSoFar(codec, file[journalBytes..], Progress(previous))
        decreases |file| - journalBytes
      {
        var rest := file[journalBytes..];
        var n := LineEnd(rest);
        LoadStep(codec, rest, Progress(previous));
        if n == |rest| {
          return None;
        }
        var event := codec.dec(rest[..n]);
        if event.None? {
          return Some(MalformedLine(journalBytes));
        }
        ghost var before, last := Progress(previous), previous;
        err, previous := ReplayEvent(event.value, previous, n + 1);
        if err.Some? {
          assert ReadSoFar(codec, rest, before) == Progress(last);
          return;
        }
        assert LoadJournal(codec, rest, before) == LoadJournal(codec, rest[n + 1..], Progress(previous));
        assert rest[n + 1..] == file[journalBytes..];
      }
    }

    /** The body of the replay loop for one decoded line. */
    method ReplayEvent(ev: Event, last: nat, size: nat) returns (err: Option<LoadError>, previous: nat)
      modifies this`logs, this`sequence, this`journalBytes, this`journalEvents
      ensures err == (match ReplayLine(old(Progress(last)), ev, size) case Ok(_) => None case Err(x) => Some(x))
      ensures err.None? ==> ReplayLine(old(Progress(last)), ev, size) == Ok(Progress(previous))
      ensures err.Some? ==> Progress(last) ==
                            if err == Some(MergeTargetMissing) && ev.clear then old(Progress(last)).(rows := [])
                            else old(Progress(last))
    {
      previous := last;
      if ev.sequence == 0 || ev.sequence <= previous || ev.retention < 1 || ev.retention > 10000 {
        return Some(BadSequenceOrRetention), previous;
      }
      previous := ev.sequence;
      if ev.sequence > sequence {
        if ev.sequence != sequence + 1 {
          return Some(SequenceGap), previous;
        }
        var ok := ApplyEvent(ev);
        if !ok {
          return Some(MergeTargetMissing), previous;
        }
        sequence := ev.sequence;
        journalEvents := journalEvents + 1;
      }
      journalBytes := journalBytes + size;
      err := None;
    }

    method QueueRequestLog(entry: Option<Row>, merged: bool)
      modifies this`sequence, this`pending
      ensures Memory() == Queue(old(Memory()), entry, merged)
    {
      sequence := sequence + 1;
      if needsSnapshot {
        return;
      }
      pending := pending + [Event(sequence, entry, merged, retention, false)];
    }

    method WriteRequestJournal(fault: Fault<AppendPoint>) returns (outcome: Outcome)
      modifies this
      ensures WriteRel(codec, old(Files()), old(Memory()), Files(), Memory(), outcome)
    {
      if |pending| == 0 {
        return Done;
      }
      var data := EncodeEvents(codec, pending);
      outcome := WriteJournalFile(data, fault);
      if outcome != Done { return; }
      journalBytes := journalBytes + |data|;
      journalEvents := journalEvents + |pending|;
      pending := [];
    }

    /** The file operations of one append, in order. */
    method WriteJournalFile(data: string, fault: Fault<AppendPoint>) returns (outcome: Outcome)
      modifies this`journalFile
      ensures JournalAfter(old(journalFile), journalFile, journalBytes, data, outcome)
    {
      assert data[..0] == "" && data[..|data|] == data;
      outcome := Strikes(fault, AtOpen);
      if outcome != Done { return; }
      if journalFile.None? {
        journalFile := Some("");
      }
      outcome := Strikes(fault, AtStat);
      if outcome != Done { return; }
      if |journalFile.value| < journalBytes {
        return Failed;
      }
      if |journalFile.value| > journalBytes {
        outcome := Strikes(fault, AtTruncate);
        if outcome != Done { return; }
        journalFile := Some(journalFile.value[..journalBytes]);
      }
      assert journalFile.value + "" == journalFile.value;
      outcome := Strikes(fault, AtSeek);
      if outcome != Done { return; }
      if (fault.Fails? || fault.Dies?) && fault.at.AtWrite? {
        journalFile := Some(journalFile.value + data[..Min(fault.at.written, |data|)]);
        return Strikes(fault, fault.at);
      }
      journalFile := Some(journalFile.value + data);
      outcome := Strikes(fault, AtClose);
    }

    method CompactRequestLogs(fault: Fault<CompactPoint>) returns (outcome: Outcome)
      modifies this
      ensures CompactRel(codec, old(Files()), old(Memory()), Files(), Memory(), outcome)
    {
      hide Strikes;
      var data := Snapshot(1, sequence, logs);
      outcome := Strikes(fault, AtTemporary);
      if outcome != Done { return; }
      outcome := Strikes(fault, AtRename);
      if outcome != Done { return; }
      snapshotFile := Some(data);
      outcome := Strikes(fault, AtDirectorySync);
      if outcome != Done { return; }
      outcome := Strikes(fault, AtJournalReset);
      if outcome != Done { return; }
      journalFile := Some("");
      outcome := Strikes(fault, AtJournalClose);
      if outcome != Done { return; }
      journalBytes, journalEvents := 0, 0;
      snapshotBytes := codec.snapshotSize(data);
      pending, needsSnapshot := [], false;
    }

    method FlushRequestLogs(now: Time, onWrite: Fault<AppendPoint>, onCompact: Fault<CompactPoint>)
      returns (result: FlushResult)
      modifies this
      ensures FlushRel(codec, old(Files()), old(Memory()), now, Files(), Memory(), result)
    {
      hide CompactRel, WriteRel;
      if needsSnapshot && !stopped && now < retryAt {
        return Deferred;
      }
      var outcome;
      if needsSnapshot {
        outcome := CompactRequestLogs(onCompact);
      } else {
        outcome := WriteRequestJournal(onWrite);
      }
      ghost var d1, s1, o1 := Files(), Memory(), outcome;
      if outcome == Done
        && (journalBytes >= 64 * 1024 * 1024 || (journalEvents >= 1024 && journalBytes >= snapshotBytes)) {
        outcome := CompactRequestLogs(onCompact);
      }
      ghost var s2 := Memory();
      assert FlushSteps(codec, old(Files()), old(Memory()), d1, s1, o1, Files(), s2, outcome);
      match outcome {
        case Done =>
          retryAt := 0;
          result := Flushed;
        case Failed =>
          pending := [];
          needsSnapshot := true;
          retryAt := now + 2 * SECOND;
          result := FlushFailed;
        case Died =>
          result := Crashed;
      }
      assert FinishRel(s2, now, outcome, Memory(), result);
    }

    /** The entry as it is handed to the log: its rate is fixed, a suppressed request has no attempts. */
    method AppendLog(entry: Row, now: Time, onWrite: Fault<AppendPoint>, onCompact: Fault<CompactPoint>)
      returns (result: FlushResult)
      requires ValidRetention(retention)
      modifies this
      ensures FlushRel(codec, old(Files()), Appended(old(Memory()), Prepared(entry)), now, Files(), Memory(), result)
    {
      var e := entry.(rate := OutputRate(entry));
      if e.skipped {
        e := e.(attempts := []);
      }
      InsertRow(e);
      result := FlushRequestLogs(now, onWrite, onCompact);
    }

    method InsertRow(e: Row)
      requires ValidRetention(retention)
      modifies this
      ensures Memory() == Appended(old(Memory()), e) && Files() == old(Files())
    {
      hide Merge;
      var merged;
      logs, merged := MergeBackoffLog(logs, e);
      if |logs| > retention {
        logs := logs[|logs| - retention..];
      }
      QueueRequestLog(Some(logs[|logs| - 1]), merged);
    }

    /** A new configuration, after a fresh load when none is in force. If the start fails before the
        load, memory is bare but keeps its counters; if it fails in the load, it has what was read
        until then; if it fails after the load, it has that as it was read. */
    method Configure(newRetention: int, restart: bool, trouble: Option<StartPoint>, now: Time,
                     onWrite: Fault<AppendPoint>, onCompact: Fault<CompactPoint>)
      returns (err: Option<StartError>, result: FlushResult)
      requires ValidRetention(newRetention) && (restart || ValidRetention(retention))
      modifies this
      ensures restart && trouble == Some(BeforeLoad) ==>
                err == Some(NotReady) && Files() == old(Files()) && Memory() == Emptied(old(Memory()), newRetention)
      ensures restart && trouble != Some(BeforeLoad) && Load(codec, old(Files())).Err? ==>
                && err == Some(LoadFailed(Load(codec, old(Files())).error)) && Files() == old(Files())
                && Memory() == Held(codec, old(Files()), newRetention, false)
      ensures restart && trouble == Some(AfterLoad) && Load(codec, old(Files())).Ok? ==>
                && err == Some(NoStatistics) && Files() == old(Files())
                && Memory() == AsRead(codec, old(Files()), Load(codec, old(Files())).value, newRetention)
      ensures restart && trouble.None? && Load(codec, old(Files())).Ok? ==>
                var l := Load(codec, old(Files())).value;
                && err.None?
                && Trimmed(codec, old(Files()), Loaded(codec, old(Files()), l, newRetention), now, Files(), Memory(),
                           result)
      ensures !restart ==>
                && err.None?
                && Trimmed(codec, old(Files()), old(Memory()).(retention := newRetention), now, Files(), Memory(),
                           result)
    {
      hide Load, Trimmed, Compact, Held;
      err, result := None, Deferred;
      retention := newRetention;
      if restart {
        if stopped {
          stopped, logs := false, [];
        }
        if trouble == Some(BeforeLoad) { return Some(NotReady), result; }
        var failure := LoadRequestLogs();
        if failure.Some? { return Some(LoadFailed(failure.value)), result; }
        if trouble == Some(AfterLoad) { return Some(NoStatistics), result; }
        logs := CompactBackoffLogs(logs);
      }
      result := TrimToRetention(now, onWrite, onCompact);
    }

    method TrimToRetention(now: Time, onWrite: Fault<AppendPoint>, onCompact: Fault<CompactPoint>)
      returns (result: FlushResult)
      requires ValidRetention(retention)
      modifies this
      ensures Trimmed(codec, old(Files()), old(Memory()), now, Files(), Memory(), result)
    {
      hide FlushRel;
      result := Deferred;
      if |logs| > retention {
        logs := logs[|logs| - retention..];
        QueueRequestLog(None, false);
        result := FlushRequestLogs(now, onWrite, onCompact);
      }
    }
  }

  /** What a start needs besides the request log: egress settings before it, statistics after it. */
  datatype StartPoint = BeforeLoad | AfterLoad

  datatype StartError = NotReady | LoadFailed(error: LoadError) | NoStatistics

  function Prepared(entry: Row): Row {
    entry.(rate := OutputRate(entry), attempts := if entry.skipped then [] else entry.attempts)
  }

  ghost predicate Trimmed(c: Codec, d: Disk, s: Store, now: Time, d': Disk, s': Store, result: FlushResult)
    requires s.retention >= 1
  {
    if |s.logs| > s.retention then
      FlushRel(c, d, Queue(s.(logs := Truncate(s.logs, s.retention)), None, false), now, d', s', result)
    else
      d' == d && s' == s
  }
}
