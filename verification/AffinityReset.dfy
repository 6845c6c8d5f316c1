/** The two write phases and the rollback as one operation performs them on its files. */
module AffinityReset {
  import opened Common
  import opened AffinityRuns

  /** A whole phase: file after file until one cannot be written. */
  function PhaseFrom(s: State, phase: nat, i: nat, oks: seq<bool>): (State, bool)
    requires Shaped(s) && i <= |s.files| && |oks| == |s.files|
    decreases |s.files| - i
  {
    if i == |s.files| then (s, true)
    else if !WriteLands(s, i, oks[i]) then (s, false)
    else PhaseFrom(WriteOne(s, phase, i, oks[i]), phase, i + 1, oks)
  }

  /** The rollback of every file, and whether all of them could be restored. */
  function RollbackFrom(s: State, i: nat, oks: seq<bool>, restored: bool): (State, bool)
    requires Shaped(s) && i <= |s.files| && |oks| == |s.files|
    decreases |s.files| - i
  {
    if i == |s.files| then (s, restored)
    else
      var o := RestoreOutcome(s, i, oks[i]);
      RollbackFrom(RestoreOne(s, i, oks[i]), i + 1, oks, restored && o != Preserved && o != Failed)
  }

  function RestoreOps(oks: seq<bool>, i: nat): seq<Op>
    requires i <= |oks|
    decreases |oks| - i
  {
    if i == |oks| then [Restore(true)] else [Restore(oks[i])] + RestoreOps(oks, i + 1)
  }

  function WriteOps(s: State, phase: nat, i: nat, oks: seq<bool>): seq<Op>
    requires Shaped(s) && i <= |s.files| && |oks| == |s.files|
    decreases |s.files| - i
  {
    if i == |s.files| then []
    else if !WriteLands(s, i, oks[i]) then [Write(oks[i])]
    else [Write(oks[i])] + WriteOps(WriteOne(s, phase, i, oks[i]), phase, i + 1, oks)
  }

  /** The operation's rollback is a run of the restoring steps. */
  lemma {:induction false} RollbackIsRun(r: Run, oks: seq<bool>)
    requires WellFormed(r) && r.stage.RollingBack? && |oks| == |r.s.files|
    ensures var ops := RestoreOps(oks, r.stage.i);
            var (t, restored) := RollbackFrom(r.s, r.stage.i, oks, r.stage.restored);
            Possible(r, ops) && After(r, ops).s == t && After(r, ops).stage == RolledBack(restored)
    decreases |oks| - r.stage.i
  {
    hide RestoreOne, RestoreOutcome;
    var i := r.stage.i;
    var next := Step(r, RestoreOps(oks, i)[0]);
    if i < |oks| {
      RollbackIsRun(next, oks);
      assert RestoreOps(oks, i)[1..] == RestoreOps(oks, i + 1);
    }
  }

  /** The operation's write phase is a run of the writing steps. */
  lemma {:induction false} PhaseIsRun(r: Run, oks: seq<bool>)
    requires WellFormed(r) && r.stage.Writing? && |oks| == |r.s.files|
    ensures var ops := WriteOps(r.s, r.stage.phase, r.stage.i, oks);
            var (t, ok) := PhaseFrom(r.s, r.stage.phase, r.stage.i, oks);
            Possible(r, ops) && After(r, ops).s == t
            && After(r, ops).stage == if ok then Waiting(r.stage.phase) else RollingBack(0, true)
    decreases |oks| - r.stage.i
  {
    hide WriteOne, WriteLands;
    var i, ops := r.stage.i, WriteOps(r.s, r.stage.phase, r.stage.i, oks);
    var next := Step(r, ops[0]);
    if WriteLands(r.s, i, oks[i]) {
      var rest := WriteOps(WriteOne(r.s, r.stage.phase, i, oks[i]), r.stage.phase, i + 1, oks);
      assert ops[1..] == rest;
      if i + 1 < |oks| {
        PhaseIsRun(next, oks);
      }
    }
  }

  class Reset {
    const files: seq<File>
    var disk: seq<Option<Text>>
    var written: seq<Option<Text>>
    var mem: seq<Doc>

    constructor (s: State)
      requires Shaped(s)
      ensures Shaped(Value()) && Value() == s
    {
      files, disk, written, mem := s.files, s.disk, s.written, s.mem;
    }

    function Value(): State
      reads this
    {
      State(files, disk, written, mem)
    }

    method WritePhase(phase: nat, oks: seq<bool>) returns (ok: bool)
      requires Shaped(Value()) && |oks| == |files|
      modifies this
      ensures Shaped(Value()) && PhaseFrom(old(Value()), phase, 0, oks) == (Value(), ok)
    {
      for i := 0 to |files|
        invariant Shaped(Value()) && PhaseFrom(Value(), phase, i, oks) == PhaseFrom(old(Value()), phase, 0, oks)
      {
        var expected := files[i].original;
        if written[i].Some? {
          expected := written[i].value;
        }
        if disk[i] != Some(expected) { return false; }
        if !oks[i] { return false; }
        var doc := files[i].original.doc.(routing := Target(files[i], phase));
        disk := disk[i := Some(Marshal(doc))];
        written := written[i := Some(Marshal(doc))];
        mem := mem[i := doc];
      }
      return true;
    }

    method Rollback(oks: seq<bool>) returns (restored: bool)
      requires Shaped(Value()) && |oks| == |files|
      modifies this
      ensures Shaped(Value()) && RollbackFrom(old(Value()), 0, oks, true) == (Value(), restored)
    {
      restored := true;
      for i := 0 to |files|
        invariant Shaped(Value()) && RollbackFrom(Value(), i, oks, restored) == RollbackFrom(old(Value()), 0, oks, true)
      {
        if written[i].None? { continue; }
        if disk[i] != written[i] {
          restored := false;
          continue;
        }
        if !oks[i] {
          restored := false;
          continue;
        }
        disk := disk[i := Some(Restored(files[i].original))];
        mem := mem[i := files[i].original.doc];
      }
    }
  }
}
