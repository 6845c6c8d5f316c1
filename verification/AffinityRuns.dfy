/**
 Re-registration of all credentials under new routing names, in one or two write phases, with
 rollback. Outsiders may edit a file between any two of its steps, and any write may fail.
 */
module AffinityRuns {
  import opened Common

  /** A credential's JSON object; `rest` is everything but the routing name. */
  datatype Doc = Doc(routing: string, rest: string)

  /** How an object is laid out as bytes. */
  datatype Layout = AsFound(text: string) | SortedKeys | Reindented

  datatype Text = Text(doc: Doc, layout: Layout)

  function Marshal(doc: Doc): Text { Text(doc, SortedKeys) }

  /** Writing back raw bytes keeps the value and changes at most the layout. */
  function Restored(t: Text): Text { Text(t.doc, Reindented) }

  /** A credential's file as first read, the routing name its own registration has, and the new one. */
  datatype File = File(original: Text, canonical: string, next: string)

  /** What rollback did about a file, once it has come to it. */
  datatype Outcome = Open | NotWritten | PutBack | Preserved | Failed

  /** Who changed a file last. */
  datatype Last = Nobody | Phase | Rollback | Outsider(content: Option<Text>)

  datatype Stage = Writing(phase: nat, i: nat) | Waiting(phase: nat) | RollingBack(i: nat, restored: bool) | Succeeded
    | RolledBack(restored: bool)

  /** `disk` is absent where a file cannot be read; `mem` are the credentials in memory. */
  datatype State = State(files: seq<File>, disk: seq<Option<Text>>, written: seq<Option<Text>>, mem: seq<Doc>)

  datatype Run = Run(s: State, stage: Stage, outcome: seq<Outcome>, last: seq<Last>)

  datatype Op =
    | Write(ok: bool)
    | Registered(ok: bool)
    | Restore(ok: bool)
    | Edit(k: nat, content: Option<Text>)
    | Reparse(k: nat)

  predicate Shaped(s: State) {
    |s.disk| == |s.files| && |s.written| == |s.files| && |s.mem| == |s.files|
  }

  function Expected(s: State, i: nat): Text
    requires Shaped(s) && i < |s.files|
  {
    if s.written[i].Some? then s.written[i].value else s.files[i].original
  }

  function Target(f: File, phase: nat): string { if phase == 1 then f.canonical else f.next }

  predicate WriteLands(s: State, i: nat, ok: bool)
    requires Shaped(s) && i < |s.files|
  {
    s.disk[i] == Some(Expected(s, i)) && ok
  }

  /** One file of a phase: nothing is written over a file that does not read as expected. */
  function WriteOne(s: State, phase: nat, i: nat, ok: bool): (t: State)
    requires Shaped(s) && i < |s.files|
    ensures Shaped(t) && t.files == s.files
  {
    if !WriteLands(s, i, ok) then s
    else
      var doc := s.files[i].original.doc.(routing := Target(s.files[i], phase));
      s.(disk := s.disk[i := Some(Marshal(doc))], written := s.written[i := Some(Marshal(doc))], mem := s.mem[i := doc])
  }

  function RestoreOutcome(s: State, i: nat, ok: bool): Outcome
    requires Shaped(s) && i < |s.files|
  {
    if s.written[i].None? then NotWritten
    else if s.disk[i] != s.written[i] then Preserved
    else if !ok then Failed
    else PutBack
  }

  function RestoreOne(s: State, i: nat, ok: bool): (t: State)
    requires Shaped(s) && i < |s.files|
    ensures Shaped(t) && t.files == s.files
  {
    if RestoreOutcome(s, i, ok) == PutBack then
      s.(disk := s.disk[i := Some(Restored(s.files[i].original))], mem := s.mem[i := s.files[i].original.doc])
    else s
  }

  // ---------------------------------------------------------------- steps

  predicate WellFormed(r: Run) {
    && Shaped(r.s) && |r.outcome| == |r.s.files| && |r.last| == |r.s.files|
    && (r.stage.Writing? ==> r.stage.i < |r.s.files|) && |r.s.files| > 0
    && (r.stage.RollingBack? ==> r.stage.i <= |r.s.files|)
  }

  predicate Enabled(r: Run, op: Op) {
    && WellFormed(r)
    && match op
       case Write(_) => r.stage.Writing?
       case Registered(_) => r.stage.Waiting?
       case Restore(_) => r.stage.RollingBack?
       case Edit(k, _) => k < |r.s.files|
       case Reparse(k) => k < |r.s.files|
  }

  function Step(r: Run, op: Op): Run
    requires Enabled(r, op)
  {
    match op
    case Write(ok) =>
      var phase, i := r.stage.phase, r.stage.i;
      if !WriteLands(r.s, i, ok) then r.(stage := RollingBack(0, true))
      else
        Run(WriteOne(r.s, phase, i, ok), if i + 1 < |r.s.files| then Writing(phase, i + 1) else Waiting(phase),
            r.outcome, r.last[i := Phase])
    case Registered(ok) =>
      r.(stage := if !ok then RollingBack(0, true) else if r.stage.phase == 1 then Writing(2, 0) else Succeeded)
    case Restore(ok) =>
      var i := r.stage.i;
      if i == |r.s.files| then r.(stage := RolledBack(r.stage.restored))
      else
        var o := RestoreOutcome(r.s, i, ok);
        Run(RestoreOne(r.s, i, ok), RollingBack(i + 1, r.stage.restored && o != Preserved && o != Failed),
            r.outcome[i := o], if o == PutBack then r.last[i := Rollback] else r.last)
    case Edit(k, content) => r.(s := r.s.(disk := r.s.disk[k := content]), last := r.last[k := Outsider(content)])
    case Reparse(k) => if r.s.disk[k].Some? then r.(s := r.s.(mem := r.s.mem[k := r.s.disk[k].value.doc])) else r
  }

  /** As read at the start: the files on disk, and memory agreeing with them. */
  function Start(files: seq<File>): Run
    requires files != []
  {
    var n := |files|;
    var disk := seq(n, i requires 0 <= i < n => Some(files[i].original));
    var mem := seq(n, i requires 0 <= i < n => files[i].original.doc);
    var migrate := exists f :: f in files && f.original.doc.routing == "";
    Run(State(files, disk, seq(n, i => None), mem), Writing(if migrate then 1 else 2, 0), seq(n, i => Open),
        seq(n, i => Nobody))
  }

  // ---------------------------------------------------------------- what every step keeps

  /** The file is as its last writer left it. */
  ghost predicate FileInv(f: File, disk: Option<Text>, written: Option<Text>, last: Last) {
    && (written.Some? ==> written.value == Marshal(f.original.doc.(routing := written.value.doc.routing)))
    && match last
       case Nobody => written.None? && disk == Some(f.original)
       case Phase => written.Some? && disk == written
       case Rollback => disk == Some(Restored(f.original))
       case Outsider(content) => disk == content
  }

  /** A file that no outsider touched has its credential in memory. */
  predicate MemInv(disk: Option<Text>, mem: Doc, last: Last) {
    last.Outsider? || (disk.Some? && mem == disk.value.doc)
  }

  predicate OutcomeInv(written: Option<Text>, last: Last, outcome: Outcome) {
    match outcome
    case Open => last != Rollback
    case NotWritten => written.None? && (last == Nobody || last.Outsider?)
    case PutBack => last == Rollback || last.Outsider?
    case Preserved => last.Outsider?
    case Failed => last == Phase || last.Outsider?
  }

  /** No file was left with an outsider's content or for want of a write. */
  predicate Clean(os: seq<Outcome>) { forall k :: 0 <= k < |os| ==> os[k] != Preserved && os[k] != Failed }

  lemma CleanMore(os: seq<Outcome>, o: Outcome)
    ensures Clean(os + [o]) <==> Clean(os) && o != Preserved && o != Failed
  {
    forall k | 0 <= k < |os| ensures (os + [o])[k] == os[k] {}
    assert (os + [o])[|os|] == o;
  }

  predicate StageInv(r: Run)
    requires WellFormed(r)
  {
    match r.stage
    case RollingBack(n, restored) =>
      && (forall i :: n <= i < |r.outcome| ==> r.outcome[i] == Open)
      && (forall i :: 0 <= i < n ==> r.outcome[i] != Open)
      && restored == Clean(r.outcome[..n])
    case RolledBack(restored) =>
      && (forall i :: 0 <= i < |r.outcome| ==> r.outcome[i] != Open)
      && restored == Clean(r.outcome)
    case Writing(phase, i) => Unsettled(r.outcome) && (phase != 1 ==> Renamed(r.s, i))
    case Waiting(phase) => Unsettled(r.outcome) && (phase != 1 ==> Renamed(r.s, |r.s.files|))
    case Succeeded => Unsettled(r.outcome) && Renamed(r.s, |r.s.files|)
  }

  predicate Unsettled(os: seq<Outcome>) { forall i :: 0 <= i < |os| ==> os[i] == Open }

  /** The first n files were written with their new names. */
  predicate Renamed(s: State, n: nat)
    requires Shaped(s) && n <= |s.files|
  {
    forall k :: 0 <= k < n ==> s.written[k] == Some(Marshal(s.files[k].original.doc.(routing := s.files[k].next)))
  }

  ghost predicate Inv(r: Run) {
    && WellFormed(r) && StageInv(r)
    && forall i :: 0 <= i < |r.s.files| ==>
         && FileInv(r.s.files[i], r.s.disk[i], r.s.written[i], r.last[i]) && MemInv(r.s.disk[i], r.s.mem[i], r.last[i])
         && OutcomeInv(r.s.written[i], r.last[i], r.outcome[i])
  }

  /** The program replaces a file only where it reads just as this run last wrote it or, if it has not, as
      it first read it; what an outsider put there otherwise is never overwritten. */
  lemma OutsidersAreKept(r: Run, op: Op, k: nat)
    requires Enabled(r, op) && !op.Edit? && k < |r.s.files| && Step(r, op).s.disk[k] != r.s.disk[k]
    ensures r.s.disk[k] == if r.s.written[k].Some? then r.s.written[k] else Some(r.s.files[k].original)
  {}

  lemma {:induction false} StageKeeps(r: Run, op: Op)
    requires Inv(r) && Enabled(r, op)
    ensures WellFormed(Step(r, op)) && StageInv(Step(r, op)) && Step(r, op).s.files == r.s.files
  {
    hide FileInv, MemInv, OutcomeInv, RestoreOne, RestoreOutcome;
    if op.Restore? {
      var i, next := r.stage.i, Step(r, op);
      if i == |r.s.files| {
        assert r.outcome[..i] == r.outcome;
      } else {
        RestoredOutcomeIsClosed(r, op);
        assert next.outcome[..i + 1] == r.outcome[..i] + [next.outcome[i]];
        CleanMore(r.outcome[..i], next.outcome[i]);
      }
    }
  }

  lemma RestoredOutcomeIsClosed(r: Run, op: Op)
    requires Enabled(r, op) && op.Restore? && r.stage.i < |r.s.files|
    ensures RestoreOutcome(r.s, r.stage.i, op.ok) != Open
  {}

  lemma FilesKeep(r: Run, op: Op, k: nat)
    requires Inv(r) && Enabled(r, op) && k < |r.s.files|
    ensures var t := Step(r, op);
            && t.s.files == r.s.files && WellFormed(t)
            && FileInv(t.s.files[k], t.s.disk[k], t.s.written[k], t.last[k])
               && MemInv(t.s.disk[k], t.s.mem[k], t.last[k])
            && OutcomeInv(t.s.written[k], t.last[k], t.outcome[k])
  {
    hide Clean;
  }

  lemma StepKeepsInv(r: Run, op: Op)
    requires Inv(r) && Enabled(r, op)
    ensures Inv(Step(r, op)) && Step(r, op).s.files == r.s.files
  {
    hide FileInv, MemInv, OutcomeInv, StageInv, Step;
    StageKeeps(r, op);
    forall k | 0 <= k < |r.s.files| { FilesKeep(r, op, k); }
  }

  // ---------------------------------------------------------------- runs

  ghost predicate Possible(r: Run, ops: seq<Op>)
    decreases |ops|
  {
    ops == [] || (Enabled(r, ops[0]) && Possible(Step(r, ops[0]), ops[1..]))
  }

  ghost function After(r: Run, ops: seq<Op>): Run
    requires Possible(r, ops)
    decreases |ops|
  {
    if ops == [] then r else After(Step(r, ops[0]), ops[1..])
  }

  lemma {:induction false} RunKeepsInv(r: Run, ops: seq<Op>)
    requires Inv(r) && Possible(r, ops)
    ensures Inv(After(r, ops)) && After(r, ops).s.files == r.s.files
    decreases |ops|
  {
    hide Inv, Enabled, Step;
    if ops != [] {
      StepKeepsInv(r, ops[0]);
      RunKeepsInv(Step(r, ops[0]), ops[1..]);
    }
  }

  lemma StartHasInv(files: seq<File>)
    requires files != []
    ensures Inv(Start(files))
  {}

  /** An external edit of the k-th file somewhere in the run. */
  predicate EditedIn(ops: seq<Op>, k: nat) { exists i :: 0 <= i < |ops| && ops[i].Edit? && ops[i].k == k }

  lemma {:induction false} OutsidersEdit(r: Run, ops: seq<Op>, k: nat)
    requires Inv(r) && Possible(r, ops) && k < |r.last| && !r.last[k].Outsider? && !EditedIn(ops, k)
    ensures k < |After(r, ops).last| && !After(r, ops).last[k].Outsider?
    decreases |ops|
  {
    hide Inv, Enabled;
    if ops != [] {
      StepKeepsInv(r, ops[0]);
      assert !(ops[0].Edit? && ops[0].k == k);
      LastOf(r, ops[0], k);
      forall i | 0 <= i < |ops[1..]|
        ensures !(ops[1..][i].Edit? && ops[1..][i].k == k) { assert ops[1..][i] == ops[i + 1]; }
      hide Step;
      OutsidersEdit(Step(r, ops[0]), ops[1..], k);
    }
  }

  lemma LastOf(r: Run, op: Op, k: nat)
    requires Inv(r) && Enabled(r, op) && k < |r.last| && !r.last[k].Outsider? && !(op.Edit? && op.k == k)
    ensures k < |Step(r, op).last| && !Step(r, op).last[k].Outsider?
  {}

  /** After a failure anywhere in either phase and the rollback: every file was never written, or
      has its original value back, or is just as an outsider left it, or as the phase left it
      because its restore failed. Full restoration is reported exactly when no written file was
      found changed and no restore failed. */
  lemma RollbackIsHonest(files: seq<File>, ops: seq<Op>)
    requires files != [] && Possible(Start(files), ops) && After(Start(files), ops).stage.RolledBack?
    ensures var r := After(Start(files), ops);
            && WellFormed(r) && r.s.files == files
            && (forall k :: 0 <= k < |files| ==>
                  || (r.last[k] == Nobody && r.s.disk[k] == Some(files[k].original) && r.outcome[k] == NotWritten)
                  || (r.last[k] == Rollback && r.s.disk[k].Some? && r.s.disk[k].value.doc == files[k].original.doc
                      && r.outcome[k] == PutBack)
                  || (r.last[k].Outsider? && r.s.disk[k] == r.last[k].content)
                  || (r.last[k] == Phase && r.s.disk[k] == r.s.written[k] && r.outcome[k] == Failed))
            && (r.stage.restored <==> forall k :: 0 <= k < |files| ==>
                  r.outcome[k] == NotWritten || r.outcome[k] == PutBack)
  {
    StartHasInv(files);
    RunKeepsInv(Start(files), ops);
    hide After, Start, Possible;
  }

  /** Without outsiders a reported restoration is complete, on disk and in memory; and it can only
      fail to be reported where a restore failed. */
  lemma UndisturbedRollback(files: seq<File>, ops: seq<Op>)
    requires files != [] && Possible(Start(files), ops) && After(Start(files), ops).stage.RolledBack?
    requires forall k :: 0 <= k < |files| ==> !EditedIn(ops, k)
    ensures var r := After(Start(files), ops);
            && WellFormed(r) && r.s.files == files
            && (forall k :: 0 <= k < |files| ==> r.outcome[k] != Preserved)
            && (r.stage.restored ==> forall k :: 0 <= k < |files| ==>
                  r.s.disk[k].Some? && r.s.disk[k].value.doc == files[k].original.doc
                    && r.s.mem[k] == files[k].original.doc)
  {
    RollbackIsHonest(files, ops);
    StartHasInv(files);
    RunKeepsInv(Start(files), ops);
    hide EditedIn, Start, After, Possible;
    assert After(Start(files), ops).stage.RolledBack?;
    forall k | 0 <= k < |files| ensures !After(Start(files), ops).last[k].Outsider? {
      StartsUntouched(files, k);
      OutsidersEdit(Start(files), ops, k);
    }
  }

  lemma StartsUntouched(files: seq<File>, k: nat)
    requires files != [] && k < |files|
    ensures k < |Start(files).last| && !Start(files).last[k].Outsider?
  {}

  /** A success leaves every undisturbed file, and its credential, changed in its routing name only. */
  lemma SuccessRenames(files: seq<File>, ops: seq<Op>, k: nat)
    requires files != [] && Possible(Start(files), ops) && After(Start(files), ops).stage.Succeeded?
    requires k < |files| && !EditedIn(ops, k)
    ensures var r, doc := After(Start(files), ops), files[k].original.doc.(routing := files[k].next);
            WellFormed(r) && r.s.files == files && r.s.disk[k] == Some(Marshal(doc)) && r.s.mem[k] == doc
  {
    StartHasInv(files);
    RunKeepsInv(Start(files), ops);
    StartsUntouched(files, k);
    OutsidersEdit(Start(files), ops, k);
    hide EditedIn, Start, After, Possible;
  }

  // ---------------------------------------------------------------- registrations

  /** A registration the host reports. */
  datatype Auth = Auth(id: string, name: string, ours: bool, updatedAt: Time)

  /** What a file's registration is to become; `adopts` when its file name already serves as its name. */
  datatype Wanted = Wanted(name: string, newId: string, oldId: string, legacyId: string, adopts: bool)

  function Count(entries: seq<Auth>, name: string): nat {
    if entries == [] then 0
    else
      var last := entries[|entries| - 1];
      Count(entries[..|entries| - 1], name) + if last.ours && last.name == name then 1 else 0
  }

  function IdsOf(entries: seq<Auth>): map<string, Auth> {
    if entries == [] then map[]
    else
      var last := entries[|entries| - 1];
      IdsOf(entries[..|entries| - 1])[last.id := last]
  }

  predicate IsReady(entries: seq<Auth>, w: Wanted, started: Time) {
    var ids := IdsOf(entries);
    && (w.oldId == w.newId || w.oldId !in ids) && (w.legacyId == w.newId || w.legacyId !in ids)
    && w.newId in ids && ids[w.newId].ours && ids[w.newId].name == w.name && Count(entries, w.name) == 1
    && (w.adopts && w.newId == w.oldId ==> ids[w.newId].updatedAt >= started)
  }

  method RotationReady(entries: seq<Auth>, wanted: seq<Wanted>, started: Time) returns (ready: bool)
    ensures ready == forall w :: w in wanted ==> IsReady(entries, w, started)
  {
    var ids: map<string, Auth>, counts: map<string, nat> := map[], map[];
    for n := 0 to |entries|
      invariant ids == IdsOf(entries[..n])
      invariant forall name :: Count(entries[..n], name) == if name in counts then counts[name] else 0
    {
      assert entries[..n + 1][..n] == entries[..n];
      var e := entries[n];
      ids := ids[e.id := e];
      if e.ours {
        counts := counts[e.name := (if e.name in counts then counts[e.name] else 0) + 1];
      }
    }
    assert entries[..|entries|] == entries;
    ready := true;
    for n := 0 to |wanted|
      invariant ready == forall w :: w in wanted[..n] ==> IsReady(entries, w, started)
    {
      hide IsReady, Count, IdsOf;
      assert wanted[..n + 1] == wanted[..n] + [wanted[n]];
      var one := RegisteredOnce(entries, ids, counts, wanted[n], started);
      if !one { ready := false; }
    }
    assert wanted[..|wanted|] == wanted;
  }

  method RegisteredOnce(ghost entries: seq<Auth>, ids: map<string, Auth>, counts: map<string, nat>, w: Wanted,
                        started: Time) returns (one: bool)
    requires ids == IdsOf(entries) && forall name :: Count(entries, name) == if name in counts then counts[name] else 0
    ensures one == IsReady(entries, w, started)
  {
    var oldExists := w.oldId in ids && w.oldId != w.newId;
    var legacyExists := w.legacyId in ids && w.legacyId != w.newId;
    if oldExists || legacyExists || w.newId !in ids || !ids[w.newId].ours
      || ids[w.newId].name != w.name { return false; }
    if w.name !in counts || counts[w.name] != 1 { return false; }
    if w.adopts && w.newId == w.oldId && ids[w.newId].updatedAt < started { return false; }
    return true;
  }

  lemma {:induction false} IdsAreEntries(entries: seq<Auth>)
    ensures forall id :: id in IdsOf(entries) <==> exists e :: e in entries && e.id == id
    ensures forall id :: id in IdsOf(entries) ==> IdsOf(entries)[id] in entries && IdsOf(entries)[id].id == id
  {
    if entries != [] {
      var n := |entries| - 1;
      assert entries == entries[..n] + [entries[n]];
      IdsAreEntries(entries[..n]);
    }
  }

  lemma {:induction false} CountOne(entries: seq<Auth>, name: string, i: nat, j: nat)
    requires i < j < |entries| && entries[i].ours && entries[i].name == name && entries[j].ours
             && entries[j].name == name
    ensures Count(entries, name) >= 2
  {
    var n := |entries| - 1;
    if j < n { CountOne(entries[..n], name, i, j); } else { CountSome(entries[..n], name, i); }
  }

  lemma {:induction false} CountSome(entries: seq<Auth>, name: string, i: nat)
    requires i < |entries| && entries[i].ours && entries[i].name == name
    ensures Count(entries, name) >= 1
  {
    if i < |entries| - 1 { CountSome(entries[..|entries| - 1], name, i); }
  }

  /** Ready means: the file's only registration is the new one, and neither its old nor its legacy
      name is registered any more. */
  lemma ReadyIsUnique(entries: seq<Auth>, w: Wanted, started: Time)
    requires IsReady(entries, w, started)
    ensures forall e :: e in entries && e.ours && e.name == w.name ==> e.id == w.newId
    ensures exists e :: e in entries && e.ours && e.name == w.name
    ensures forall e :: e in entries && e.id == w.oldId ==> w.oldId == w.newId
    ensures forall e :: e in entries && e.id == w.legacyId ==> w.legacyId == w.newId
  {
    hide Count, IdsOf;
    IdsAreEntries(entries);
    var mine := IdsOf(entries)[w.newId];
    var i :| 0 <= i < |entries| && entries[i] == mine;
    forall e | e in entries && e.ours && e.name == w.name ensures e.id == w.newId {
      var j :| 0 <= j < |entries| && entries[j] == e;
      if i < j { CountOne(entries, w.name, i, j); } else if j < i { CountOne(entries, w.name, j, i); }
    }
  }

  predicate Named(e: Auth, name: string) { e.ours && e.name == name }

  predicate NoneNamed(entries: seq<Auth>, name: string) { forall j :: 0 <= j < |entries| ==> !Named(entries[j], name) }

  predicate OnlyAt(entries: seq<Auth>, name: string, i: int) {
    0 <= i < |entries| && Named(entries[i], name)
    && forall j :: 0 <= j < |entries| && j != i ==> !Named(entries[j], name)
  }

  /** Just one entry of the program's has the name. */
  ghost predicate OnlyOne(entries: seq<Auth>, name: string) { exists i :: OnlyAt(entries, name, i) }

  lemma OnlyOneMore(front: seq<Auth>, e: Auth, name: string)
    ensures NoneNamed(front + [e], name) <==> NoneNamed(front, name) && !Named(e, name)
    ensures OnlyOne(front + [e], name) <==> if Named(e, name) then NoneNamed(front, name) else OnlyOne(front, name)
  {
    hide Named;
    var all := front + [e];
    assert forall j :: 0 <= j < |front| ==> all[j] == front[j];
    assert all[|front|] == e;
    if OnlyOne(all, name) {
      var i :| OnlyAt(all, name, i);
      if !Named(e, name) { assert OnlyAt(front, name, i); }
    }
    if Named(e, name) && NoneNamed(front, name) { assert OnlyAt(all, name, |front|); }
    if !Named(e, name) && OnlyOne(front, name) {
      var i :| OnlyAt(front, name, i);
      assert OnlyAt(all, name, i);
    }
  }

  /** What the host reports last under an identifier. */
  predicate ReportedAt(entries: seq<Auth>, id: string, i: nat) {
    i < |entries| && entries[i].id == id && forall j :: i < j < |entries| ==> entries[j].id != id
  }

  lemma {:induction false} CountIff(entries: seq<Auth>, name: string)
    ensures Count(entries, name) == 0 <==> NoneNamed(entries, name)
    ensures Count(entries, name) == 1 <==> OnlyOne(entries, name)
  {
    if entries != [] {
      var n := |entries| - 1;
      CountIff(entries[..n], name);
      hide NoneNamed, OnlyOne;
      OnlyOneMore(entries[..n], entries[n], name);
      assert entries == entries[..n] + [entries[n]];
    }
  }

  lemma {:induction false} LastReport(entries: seq<Auth>, id: string, i: nat)
    requires ReportedAt(entries, id, i)
    ensures id in IdsOf(entries) && IdsOf(entries)[id] == entries[i]
  {
    var n := |entries| - 1;
    if i < n {
      LastReport(entries[..n], id, i);
    }
  }

  lemma {:induction false} ReportExists(entries: seq<Auth>, id: string) returns (i: nat)
    requires id in IdsOf(entries)
    ensures ReportedAt(entries, id, i)
  {
    var n := |entries| - 1;
    if entries[n].id == id {
      i := n;
    } else {
      i := ReportExists(entries[..n], id);
    }
  }

  /** A file is ready exactly if the host knows its new identifier, last as the program's own under the
      file's name and, where the identifier is the old one, reported since the phase began; no other entry
      of the program's has that name; and its old and legacy identifiers are known no more. */
  lemma ReadyIff(entries: seq<Auth>, w: Wanted, started: Time)
    ensures IsReady(entries, w, started) <==>
              && (forall e :: e in entries ==> e.id != w.oldId || w.oldId == w.newId)
              && (forall e :: e in entries ==> e.id != w.legacyId || w.legacyId == w.newId)
              && OnlyOne(entries, w.name)
              && exists i: nat :: ReportedAt(entries, w.newId, i) && Named(entries[i], w.name)
                             && (w.adopts && w.newId == w.oldId ==> started <= entries[i].updatedAt)
  {
    IdsAreEntries(entries);
    CountIff(entries, w.name);
    hide Count, IdsOf, OnlyOne;
    if w.newId in IdsOf(entries) {
      var i := ReportExists(entries, w.newId);
      LastReport(entries, w.newId, i);
      assert IdsOf(entries)[w.newId] == entries[i];
    }
    forall i: nat | ReportedAt(entries, w.newId, i)
      ensures w.newId in IdsOf(entries) && IdsOf(entries)[w.newId] == entries[i] { LastReport(entries, w.newId, i); }
  }

  // ---------------------------------------------------------------- old registrations first

  /** The first n files were written under the names their own registrations have. */
  predicate Adopted(s: State, n: nat)
    requires Shaped(s) && n <= |s.files|
  {
    forall k :: 0 <= k < n ==> s.written[k] == Some(Marshal(s.files[k].original.doc.(routing := s.files[k].canonical)))
  }

  /** At some point of the run all files have been written so, and their registrations are confirmed. */
  ghost predicate EverAdopted(r: Run, ops: seq<Op>)
    requires Possible(r, ops)
    decreases |ops|
  {
    ops != [] && ((WellFormed(r) && r.stage == Waiting(1) && ops[0] == Registered(true) && Adopted(r.s, |r.s.files|))
                  || EverAdopted(Step(r, ops[0]), ops[1..]))
  }

  predicate Adopting(r: Run) {
    WellFormed(r) && ((r.stage.Writing? && r.stage.phase == 1 && Adopted(r.s, r.stage.i))
                      || (r.stage == Waiting(1) && Adopted(r.s, |r.s.files|)))
  }

  predicate BeyondAdopting(r: Run) {
    r.stage.Succeeded? || ((r.stage.Writing? || r.stage.Waiting?) && r.stage.phase != 1)
  }

  lemma AdoptingStep(r: Run, op: Op)
    requires Adopting(r) && Enabled(r, op) && Inv(r)
    ensures Adopting(Step(r, op)) || (r.stage == Waiting(1) && op == Registered(true)) || Step(r, op).stage.RollingBack?
  {
    hide FileInv, MemInv, OutcomeInv, StageInv;
  }

  lemma {:induction false} RollbackStays(r: Run, ops: seq<Op>)
    requires Possible(r, ops) && (r.stage.RollingBack? || r.stage.RolledBack?)
    ensures !BeyondAdopting(After(r, ops))
    decreases |ops|
  {
    hide WriteOne, RestoreOne, RestoreOutcome;
    if ops != [] { RollbackStays(Step(r, ops[0]), ops[1..]); }
  }

  lemma {:induction false} AdoptsFirst(r: Run, ops: seq<Op>)
    requires Inv(r) && Possible(r, ops) && Adopting(r) && BeyondAdopting(After(r, ops))
    ensures EverAdopted(r, ops)
    decreases |ops|
  {
    hide Inv, Step, Enabled, Adopted;
    if ops != [] {
      StepKeepsInv(r, ops[0]);
      AdoptingStep(r, ops[0]);
      if Step(r, ops[0]).stage.RollingBack? {
        RollbackStays(Step(r, ops[0]), ops[1..]);
      } else if Adopting(Step(r, ops[0])) {
        AdoptsFirst(Step(r, ops[0]), ops[1..]);
      }
    }
  }

  /** Where some credential has no routing name yet, no file gets its new name before all files have been
      written under their own names and those registrations are confirmed. */
  lemma MigrationComesFirst(files: seq<File>, ops: seq<Op>)
    requires files != [] && Possible(Start(files), ops) && BeyondAdopting(After(Start(files), ops))
    requires exists f :: f in files && f.original.doc.routing == ""
    ensures EverAdopted(Start(files), ops)
  {
    StartHasInv(files);
    StartsAdopting(files);
    hide Start, Inv;
    AdoptsFirst(Start(files), ops);
  }

  lemma StartsAdopting(files: seq<File>)
    requires files != [] && exists f :: f in files && f.original.doc.routing == ""
    ensures Adopting(Start(files))
  {}
}
