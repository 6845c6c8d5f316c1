/**
 The write-ahead journal of the request log: events, the bytes they become, and what
 a load makes of a snapshot followed by those bytes.
 */
module RequestLogStore {
  import opened Common
  import opened BackoffLog

  datatype Event = Event(sequence: nat, entry: Option<Row>, merged: bool, retention: int, clear: bool)

  datatype Snapshot = Snapshot(version: int, sequence: nat, logs: seq<Row>)

  datatype LoadError =
    | UnsupportedSnapshot
    | MalformedLine(at: nat)
    | BadSequenceOrRetention
    | SequenceGap
    | MergeTargetMissing

  /** The three files of the data directory; a missing file is None. */
  datatype Disk = Disk(snapshot: Option<Snapshot>, legacy: Option<seq<Row>>, journal: Option<string>)

  /** JSON encoding of one event, its decoding, and the encoded size of a snapshot or legacy file. */
  datatype Codec = Codec(enc: Event -> string, dec: string -> Option<Event>,
                         snapshotSize: Snapshot -> nat, legacySize: seq<Row> -> nat)

  ghost predicate NoNewline(s: string) { forall i :: 0 <= i < |s| ==> s[i] != '\n' }

  /** Events are written without line ends. */
  ghost predicate OneLineEach(c: Codec) { forall e: Event :: NoNewline(c.enc(e)) }

  /** And they are read as they were written. LineCodecs has such a codec. */
  ghost predicate Lossless(c: Codec) { OneLineEach(c) && forall e: Event :: c.dec(c.enc(e)) == Some(e) }

  function Line(c: Codec, e: Event): string { c.enc(e) + "\n" }

  function Lines(c: Codec, es: seq<Event>): string {
    if es == [] then "" else Line(c, es[0]) + Lines(c, es[1..])
  }

  predicate ValidRetention(r: int) { 1 <= r <= 10000 }

  // ---------------------------------------------------------------- replaying events

  /** Entries carry absolute values, so replay replaces a merged row and never adds counts. */
  function ApplyEvent(rows: seq<Row>, ev: Event): Result<seq<Row>, LoadError>
    requires ValidRetention(ev.retention)
  {
    var kept := if ev.clear then [] else rows;
    match ev.entry
    case None => Ok(Truncate(kept, ev.retention))
    case Some(e) =>
      var i := if ev.merged && KeyOf(e).Some? then LastIndex(kept, KeyOf(e).value) else -1;
      if ev.merged && i < 0 then Err(MergeTargetMissing)
      else Ok(Truncate((if ev.merged then RemoveAt(kept, i) else kept) + [e], ev.retention))
  }

  datatype Replayed = Replayed(rows: seq<Row>, sequence: nat, previous: nat, bytes: nat, events: nat)

  function ReplayLine(st: Replayed, ev: Event, size: nat): Result<Replayed, LoadError> {
    if ev.sequence == 0 || ev.sequence <= st.previous || !ValidRetention(ev.retention) then
      Err(BadSequenceOrRetention)
    else if ev.sequence <= st.sequence then
      Ok(st.(previous := ev.sequence, bytes := st.bytes + size))
    else if ev.sequence != st.sequence + 1 then
      Err(SequenceGap)
    else
      match ApplyEvent(st.rows, ev)
      case Err(x) => Err(x)
      case Ok(rows) => Ok(Replayed(rows, ev.sequence, ev.sequence, st.bytes + size, st.events + 1))
  }

  function Replay(c: Codec, es: seq<Event>, st: Replayed): Result<Replayed, LoadError> {
    if es == [] then Ok(st)
    else
      match ReplayLine(st, es[0], |Line(c, es[0])|)
      case Err(x) => Err(x)
      case Ok(next) => Replay(c, es[1..], next)
  }

  /** Index of the first line end, or the length when there is none. */
  function LineEnd(s: string): (n: nat)
    ensures n <= |s| && NoNewline(s[..n]) && (n < |s| ==> s[n] == '\n')
  {
    if s == "" || s[0] == '\n' then 0 else
    var n := 1 + LineEnd(s[1..]);
    assert s[..n] == [s[0]] + s[1..][..n - 1];
    n
  }

  /** Reads complete lines only; a torn last line is ignored. */
  function LoadJournal(c: Codec, file: string, st: Replayed): Result<Replayed, LoadError>
    decreases |file|
  {
    var n := LineEnd(file);
    if n == |file| then Ok(st)
    else
      match c.dec(file[..n])
      case None => Err(MalformedLine(st.bytes))
      case Some(ev) =>
        match ReplayLine(st, ev, n + 1)
        case Err(x) => Err(x)
        case Ok(next) => LoadJournal(c, file[n + 1..], next)
  }

  /** What a reading of complete lines leaves behind where it stops: at the end, or before the line
      it fails on, whose merge target it looked for after clearing if the line says so. */
  function ReadSoFar(c: Codec, file: string, st: Replayed): Replayed
    decreases |file|
  {
    var n := LineEnd(file);
    if n == |file| then st
    else
      match c.dec(file[..n])
      case None => st
      case Some(ev) =>
        match ReplayLine(st, ev, n + 1)
        case Err(x) => if x == MergeTargetMissing && ev.clear then st.(rows := []) else st
        case Ok(next) => ReadSoFar(c, file[n + 1..], next)
  }

  lemma {:induction false} ReadToTheEnd(c: Codec, file: string, st: Replayed)
    requires LoadJournal(c, file, st).Ok?
    ensures LoadJournal(c, file, st) == Ok(ReadSoFar(c, file, st))
    decreases |file|
  {
    var n := LineEnd(file);
    if n < |file| {
      ReadToTheEnd(c, file[n + 1..], ReplayLine(st, c.dec(file[..n]).value, n + 1).value);
    }
  }

  /** One line of a load. */
  lemma LoadStep(c: Codec, file: string, st: Replayed)
    ensures var n := LineEnd(file);
            if n == |file| then LoadJournal(c, file, st) == Ok(st) && ReadSoFar(c, file, st) == st
            else if c.dec(file[..n]).None? then
              LoadJournal(c, file, st) == Err(MalformedLine(st.bytes)) && ReadSoFar(c, file, st) == st
            else
              var ev := c.dec(file[..n]).value;
              var next := ReplayLine(st, ev, n + 1);
              if next.Ok? then
                && LoadJournal(c, file, st) == LoadJournal(c, file[n + 1..], next.value)
                && ReadSoFar(c, file, st) == ReadSoFar(c, file[n + 1..], next.value)
                && next.value.bytes == st.bytes + n + 1
              else
                && LoadJournal(c, file, st) == Err(next.error)
                && ReadSoFar(c, file, st) ==
                   if next.error == MergeTargetMissing && ev.clear then st.(rows := []) else st
  {
    hide ApplyEvent;
  }

  lemma NothingToLoad(c: Codec, st: Replayed)
    ensures LoadJournal(c, "", st) == Ok(st)
  {}

  function Base(disk: Disk): Replayed {
    match disk.snapshot
    case Some(s) => Replayed(s.logs, s.sequence, 0, 0, 0)
    case None => Replayed(Compact(if disk.legacy.Some? then disk.legacy.value else []), 0, 0, 0, 0)
  }

  function Contents(file: Option<string>): string { if file.Some? then file.value else "" }

  function Load(c: Codec, disk: Disk): Result<Replayed, LoadError> {
    if disk.snapshot.Some? && disk.snapshot.value.version != 1 then Err(UnsupportedSnapshot)
    else LoadJournal(c, Contents(disk.journal), Base(disk))
  }

  function BaseSize(c: Codec, disk: Disk): nat {
    match disk.snapshot
    case Some(s) => c.snapshotSize(s)
    case None => if disk.legacy.Some? then c.legacySize(disk.legacy.value) else 0
  }

  // ---------------------------------------------------------------- bytes and events

  lemma {:induction false} LinesOfConcat(c: Codec, a: seq<Event>, b: seq<Event>)
    ensures Lines(c, a + b) == Lines(c, a) + Lines(c, b)
  {
    hide Line;
    if a == [] {
      assert a + b == b;
    } else {
      LinesOfConcat(c, a[1..], b);
      assert (a + b)[1..] == a[1..] + b;
    }
  }

  lemma {:induction false} ReplayOfConcat(c: Codec, a: seq<Event>, b: seq<Event>, st: Replayed)
    ensures Replay(c, a + b, st) == match Replay(c, a, st) case Err(x) => Err(x) case Ok(mid) => Replay(c, b, mid)
  {
    if a == [] {
      assert a + b == b;
    } else {
      assert (a + b)[1..] == a[1..] + b && (a + b)[0] == a[0];
      match ReplayLine(st, a[0], |Line(c, a[0])|)
      case Err(_) =>
      case Ok(next) => ReplayOfConcat(c, a[1..], b, next);
    }
  }

  lemma LineEndOfLine(line: string, rest: string)
    requires NoNewline(line)
    ensures LineEnd(line + "\n" + rest) == |line|
  {
    var s := line + "\n" + rest;
    var n := LineEnd(s);
    assert s[|line|] == '\n';
    assert forall i :: 0 <= i < |line| ==> s[i] == line[i];
    assert forall i :: 0 <= i < n ==> s[i] == s[..n][i];
  }

  /** Loading the bytes of a list of events, torn tail or not, is replaying the events. */
  lemma {:induction false} LoadIsReplay(c: Codec, es: seq<Event>, tail: string, st: Replayed)
    requires Lossless(c) && NoNewline(tail)
    ensures LoadJournal(c, Lines(c, es) + tail, st) == Replay(c, es, st)
  {
    var file := Lines(c, es) + tail;
    if es == [] {
      assert file == tail;
    } else {
      var rest := Lines(c, es[1..]) + tail;
      assert file == c.enc(es[0]) + "\n" + rest;
      LineEndOfLine(c.enc(es[0]), rest);
      assert file[..|c.enc(es[0])|] == c.enc(es[0]);
      assert file[|c.enc(es[0])| + 1..] == rest;
      match ReplayLine(st, es[0], |Line(c, es[0])|)
      case Err(_) =>
      case Ok(next) => LoadIsReplay(c, es[1..], tail, next);
    }
  }

  /** Cutting a text behind its first part cuts the rest. */
  lemma CutBehind(first: string, rest: string, n: nat)
    requires |first| <= n <= |first + rest|
    ensures (first + rest)[..n] == first + rest[..n - |first|]
  {}

  /** The lines of a beginning that holds the first event. */
  lemma LinesOfPrefix(c: Codec, es: seq<Event>, k: nat)
    requires k < |es|
    ensures Lines(c, es[..k + 1]) == Line(c, es[0]) + Lines(c, es[1..][..k])
  {
    assert es[..k + 1][1..] == es[1..][..k];
  }

  /** However a write of lines is cut short, what is left is some whole lines and a torn one. */
  lemma {:induction false} CutLines(c: Codec, es: seq<Event>, n: nat) returns (k: nat, tail: string)
    requires OneLineEach(c) && n <= |Lines(c, es)|
    ensures k <= |es| && NoNewline(tail) && Lines(c, es)[..n] == Lines(c, es[..k]) + tail
  {
    if es == [] || n < |Line(c, es[0])| {
      k, tail := 0, Lines(c, es)[..n];
      if es != [] {
        assert tail == c.enc(es[0])[..n];
      }
    } else {
      var first, rest := Line(c, es[0]), es[1..];
      assert Lines(c, es) == first + Lines(c, rest);
      hide Lines, Line;
      var j;
      j, tail := CutLines(c, rest, n - |first|);
      CutBehind(first, Lines(c, rest), n);
      LinesOfPrefix(c, es, j);
      assert first + (Lines(c, rest[..j]) + tail) == (first + Lines(c, rest[..j])) + tail;
      k := j + 1;
    }
  }

  /** Everything a successful replay has read is numbered at most as high as its result. */
  lemma {:induction false} ReplayBounds(c: Codec, es: seq<Event>, st: Replayed)
    requires Replay(c, es, st).Ok? && st.previous <= st.sequence
    ensures st.sequence <= Replay(c, es, st).value.sequence
    ensures Replay(c, es, st).value.previous <= Replay(c, es, st).value.sequence
    ensures Replay(c, es, st).value.bytes == st.bytes + |Lines(c, es)|
  {
    if es != [] {
      ReplayBounds(c, es[1..], ReplayLine(st, es[0], |Line(c, es[0])|).value);
    }
  }

  /** Over a newer base the same lines are all skipped. */
  lemma {:induction false} ReplayOverNewerBase(c: Codec, es: seq<Event>, st: Replayed, newer: Replayed)
    requires Replay(c, es, st).Ok? && st.previous == newer.previous <= st.sequence
    requires newer.sequence >= Replay(c, es, st).value.sequence
    ensures Replay(c, es, newer).Ok?
    ensures Replay(c, es, newer).value.rows == newer.rows && Replay(c, es, newer).value.sequence == newer.sequence
  {
    if es != [] {
      var size := |Line(c, es[0])|;
      var next := ReplayLine(st, es[0], size).value;
      ReplayBounds(c, es[1..], next);
      ReplayOverNewerBase(c, es[1..], next, ReplayLine(newer, es[0], size).value);
    }
  }

  // ---------------------------------------------------------------- replay refines the live log

  /** What appendLog does to the rows. */
  function AppendRows(rows: seq<Row>, e: Row, retention: nat): seq<Row> {
    Truncate(Merge(rows, e).rows, retention)
  }

  /** The event the live path queues: the row that ended up last, with its absolute values. */
  function AppendEvent(rows: seq<Row>, e: Row, sequence: nat, retention: nat): Event
    requires retention >= 1
  {
    var now := AppendRows(rows, e, retention);
    Event(sequence, Some(LastOf(now)), Merge(rows, e).merged, retention, false)
  }

  function LastOf(rows: seq<Row>): Row
    requires rows != []
  {
    rows[|rows| - 1]
  }

  /** Replaying the queued event on the rows before the append gives the rows after it, for rows
      within the retention exactly when the merge keeps the key. */
  lemma {:induction false} ReplayRefinesAppend(rows: seq<Row>, e: Row, sequence: nat, retention: nat)
    requires ValidRetention(retention)
    ensures !Drifts(rows, e) ==>
              ApplyEvent(rows, AppendEvent(rows, e, sequence, retention)) == Ok(AppendRows(rows, e, retention))
    ensures |rows| <= retention ==>
              (ApplyEvent(rows, AppendEvent(rows, e, sequence, retention)) == Ok(AppendRows(rows, e, retention)) <==>
                 !Drifts(rows, e))
  {
    hide KeyOf, MergeRows, LabelDrifts, RequestCount, Settled, OutputRate, AllSettled, Plain, DistinctKeys;
    var i, x := AppendShape(rows, e, sequence, retention);
    if i >= 0 && Drifts(rows, e) && |rows| <= retention {
      DriftedRowDiffers(rows, e, i, x);
    }
  }

  lemma AppendShape(rows: seq<Row>, e: Row, sequence: nat, retention: nat) returns (i: int, x: Row)
    requires retention >= 1
    ensures i == if KeyOf(e).Some? then LastIndex(rows, KeyOf(e).value) else -1
    ensures Merge(rows, e) == MergeResult((if i < 0 then rows else RemoveAt(rows, i)) + [x], i >= 0)
    ensures AppendEvent(rows, e, sequence, retention) == Event(sequence, Some(x), i >= 0, retention, false)
    ensures i >= 0 ==> (KeyOf(x) == KeyOf(e) <==> !LabelDrifts(rows[i], e))
  {
    i, x := MergeShape(rows, e);
    if i >= 0 {
      MergeKeepsKey(rows[i], e);
    }
    hide KeyOf, Merge, LabelDrifts, RemoveAt;
    LastOfAppend((if i < 0 then rows else RemoveAt(rows, i)), x, retention);
  }

  lemma LastOfAppend(kept: seq<Row>, x: Row, retention: nat)
    requires retention >= 1
    ensures Truncate(kept + [x], retention) != [] && LastOf(Truncate(kept + [x], retention)) == x
  {}

  lemma DriftedRowDiffers(rows: seq<Row>, e: Row, i: int, x: Row)
    requires KeyOf(e).Some? && i == LastIndex(rows, KeyOf(e).value) >= 0 && KeyOf(x) != KeyOf(e)
    ensures KeyOf(x).Some? && LastIndex(rows, KeyOf(x).value) >= 0 ==>
              RemoveAt(rows, LastIndex(rows, KeyOf(x).value)) + [x] != RemoveAt(rows, i) + [x]
  {
    hide KeyOf;
    if KeyOf(x).Some? && LastIndex(rows, KeyOf(x).value) >= 0 {
      var j := LastIndex(rows, KeyOf(x).value);
      LastIndexIs(rows, KeyOf(e).value);
      LastIndexIs(rows, KeyOf(x).value);
      RemovingDiffers(rows, i, j);
      assert RemoveAt(rows, j) == (RemoveAt(rows, j) + [x])[..|rows| - 1];
      assert RemoveAt(rows, i) == (RemoveAt(rows, i) + [x])[..|rows| - 1];
    }
  }

  /** Rows of different keys, each the last of its key, cannot be exchanged for one another. */
  lemma RemovingDiffers(rows: seq<Row>, i: int, j: int)
    requires 0 <= i < |rows| && 0 <= j < |rows| && KeyOf(rows[i]) != KeyOf(rows[j])
    requires forall n :: i < n < |rows| ==> KeyOf(rows[n]) != KeyOf(rows[i])
    requires forall n :: j < n < |rows| ==> KeyOf(rows[n]) != KeyOf(rows[j])
    ensures RemoveAt(rows, i) != RemoveAt(rows, j)
  {
    var low, high := Min(i, j), Max(i, j);
    assert RemoveAt(rows, high)[low] == rows[low];
    assert RemoveAt(rows, low)[low] == rows[low + 1];
  }

  /** Among rows whose window identifiers are not legacy labels a merged event finds its row. */
  lemma {:induction false} PlainRowsReplay(rows: seq<Row>, e: Row, sequence: nat, retention: nat)
    requires AllPlain(rows) && ValidRetention(retention)
    ensures ApplyEvent(rows, AppendEvent(rows, e, sequence, retention)) == Ok(AppendRows(rows, e, retention))
  {
    hide Drifts;
    PlainNeverDrifts(rows, e);
    ReplayRefinesAppend(rows, e, sequence, retention);
  }

  /** With a colliding window identifier the next load would miss its merge target. */
  lemma DriftBreaksReplay() returns (rows: seq<Row>, e: Row)
    ensures ApplyEvent(rows, AppendEvent(rows, e, 1, 50)) == Err(MergeTargetMissing)
  {
    var prior;
    prior, e := LabelDriftExample();
    rows := [prior];
    var i, x := MergeShape(rows, e);
    MergeKeepsKey(prior, e);
    assert KeyOf(x) != KeyOf(rows[0]);
    assert LastOf(AppendRows(rows, e, 50)) == x;
  }
}
