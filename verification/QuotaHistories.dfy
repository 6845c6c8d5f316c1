/** Whole runs of quota state from a start: how long a block holds, and what becomes of the operator's switch. */
module QuotaHistories {
  import opened Common
  import opened QuotaBlocks
  import opened QuotaState
  import opened QuotaRuns

  /** A new process: nothing in memory, and files as earlier processes left them. */
  function Start(files: map<string, Cred>, issued: nat): History {
    History(State(map[], files, {}, {}, map[], issued), [], map[], set id | id in files :: (id, files[id]))
  }

  predicate FilesBelow(files: map<string, Cred>, issued: nat) {
    forall id :: id in files ==> RevBelow(files[id].rev, issued)
  }

  lemma StartHasInv(files: map<string, Cred>, issued: nat)
    requires FilesBelow(files, issued)
    ensures Inv(Start(files, issued))
  {
    hide CoreBlock;
  }

  ghost predicate Possible(h: History, ops: seq<Op>)
    decreases |ops|
  {
    ops == [] || (Enabled(h, ops[0]) && Possible(Step(h, ops[0]), ops[1..]))
  }

  ghost function After(h: History, ops: seq<Op>): History
    requires Possible(h, ops)
    decreases |ops|
  {
    if ops == [] then h else After(Step(h, ops[0]), ops[1..])
  }

  lemma {:induction false} RunKeepsInv(h: History, ops: seq<Op>)
    requires Inv(h) && Possible(h, ops)
    ensures Inv(After(h, ops))
    decreases |ops|
  {
    hide Inv, Enabled, Step;
    if ops != [] {
      StepKeepsInv(h, ops[0]);
      RunKeepsInv(Step(h, ops[0]), ops[1..]);
    }
  }

  // ---------------------------------------------------------------- blocks hold

  /** The credential stays there, with one key, through the whole run. */
  ghost predicate Stays(h: History, ops: seq<Op>, id: string, key: string)
    requires Possible(h, ops)
    decreases |ops|
  {
    id in h.s.creds && h.s.creds[id].key == key && (ops == [] || Stays(Step(h, ops[0]), ops[1..], id, key))
  }

  /** Some step of the run ends the block on a qualifying sample. */
  ghost predicate EverCleared(h: History, ops: seq<Op>, id: string)
    requires Possible(h, ops)
    decreases |ops|
  {
    ops != [] && (Clears(h, ops[0], id) || EverCleared(Step(h, ops[0]), ops[1..], id))
  }

  /** Some step of the run reads content without a block under memory's own revision, or while
      memory has none. */
  ghost predicate EverReadAway(h: History, ops: seq<Op>, id: string)
    requires Possible(h, ops)
    decreases |ops|
  {
    ops != [] && (ReadEnds(h, ops[0], id) || EverReadAway(Step(h, ops[0]), ops[1..], id))
  }

  /** Over any run a blocked credential with an unchanged key stays unselectable until a usage
      sample that qualifies has been written to its file: failed writes, retries, host saves,
      operator switches and honest external edits do not end a block. Watcher reads do so in one
      way only, and never while the block is under a revision of the plugin's. */
  lemma {:induction false} BlockHolds(h: History, ops: seq<Op>, id: string)
    requires Inv(h) && Possible(h, ops) && Guarded(h, id) && Stays(h, ops, id, h.s.creds[id].key)
    ensures var held := Guarded(After(h, ops), id) && !Selectable(After(h, ops).s, id);
            && (EverCleared(h, ops, id) || EverReadAway(h, ops, id) || held)
            && (h.s.creds[id].rev.Issued? ==> EverCleared(h, ops, id) || held)
    decreases |ops|
  {
    hide Inv, Enabled, Step, Guarded, Clears, Selectable, ReadEnds, Blocked;
    if ops == [] {
      GuardedIsUnselectable(h, id);
    } else {
      var next := Step(h, ops[0]);
      StepKeepsInv(h, ops[0]);
      StayedOne(h, ops, id);
      StepGuards(h, ops[0], id);
      GuardedIsBlocked(h, id);
      if h.s.creds[id].rev.Issued? {
        IssuedOutlastsReads(h, ops[0], id);
        StepKeepsIssued(h, ops[0], id);
      }
      if Guarded(next, id) { BlockHolds(next, ops[1..], id); }
    }
  }

  lemma GuardedIsBlocked(h: History, id: string)
    requires Guarded(h, id)
    ensures Blocked(h.s, id) && id in h.s.creds
  {}

  lemma StayedOne(h: History, ops: seq<Op>, id: string)
    requires ops != [] && Possible(h, ops) && id in h.s.creds && Stays(h, ops, id, h.s.creds[id].key)
    ensures var next := Step(h, ops[0]);
            && id in next.s.creds && next.s.creds[id].key == h.s.creds[id].key
            && Stays(next, ops[1..], id, next.s.creds[id].key)
  {}

  /** An exhaustion error blocks every credential of the account at once, before anything is
      written, and no planned write is left that could end the block without a sample. */
  lemma ErrorBlocksAccount(h: History, source: string, kind: string, reset: Option<Time>, now: Time, id: string)
    requires Inv(h) && Enabled(h, ErrorSeen(source, kind, reset, now))
    requires id in GroupIds(h.s, source, AccountOf(h.s, source, h.s.creds[source]))
    ensures var next := Step(h, ErrorSeen(source, kind, reset, now));
            Guarded(next, id) && !Selectable(next.s, id) && next.s.creds[id].key == h.s.creds[id].key
    ensures var next := Step(h, ErrorSeen(source, kind, reset, now));
            next.s.creds[id].rev.Issued? || next.s.creds[id] == h.s.creds[id]
  {
    hide Merge, AccountOf, Inv, CoreBlock, Ready;
    var op := ErrorSeen(source, kind, reset, now);
    var g := ErrorGroup(h.s, source, kind, reset, now);
    var ids := GroupIds(h.s, source, AccountOf(h.s, source, h.s.creds[source]));
    ErrorIsReady(h, source, kind, reset, now);
    assert id in Sorted(ids);
    var i :| 0 <= i < |Sorted(ids)| && Sorted(ids)[i] == id;
    assert g[i].id == id && g[i] in g && Current(h.s, g[i]);
    PublishBlocks(h.s, g);
    GuardedIsUnselectable(Step(h, op), id);
  }

  /** So does a sample that shows limits used up. */
  lemma UsageBlocksAccount(h: History, source: string, v: Usage, started: Time, id: string)
    requires Inv(h) && Enabled(h, UsageSeen(source, v, started)) && Exhausted(v.limits) != []
    requires var s := Learned(h.s, source, v.account); id in GroupIds(s, source, UsageAccount(s, source, v))
    ensures var next := Step(h, UsageSeen(source, v, started));
            Guarded(next, id) && !Selectable(next.s, id) && next.s.creds[id].key == h.s.creds[id].key
    ensures var next := Step(h, UsageSeen(source, v, started));
            next.s.creds[id].rev.Issued? || next.s.creds[id] == h.s.creds[id]
  {
    hide Merge, AccountOf, UsageAccount, Exhausted, Inv, CoreBlock, Ready, Qualifies, Publish, UsageGroup, GroupIds;
    var s := Learned(h.s, source, v.account);
    var g := UsageGroup(s, source, v, started);
    UsageIsReady(h, source, v, started);
    var m := UsedUpMember(s, source, v, started, id);
    PublishBlocks(s, g);
    GuardedIsUnselectable(Step(h, UsageSeen(source, v, started)), id);
  }

  lemma UsedUpMember(s: State, source: string, v: Usage, started: Time, id: string) returns (m: Member)
    requires source in s.creds && v.updatedAt.Some? && Exhausted(v.limits) != []
    requires id in GroupIds(s, source, UsageAccount(s, source, v))
    ensures m in UsageGroup(s, source, v, started) && m.id == id && Current(s, m) && m.next.block.Some?
    ensures forall n :: n in UsageGroup(s, source, v, started) ==> n.next.block.Some?
  {
    UsedUpBlocksAll(s, source, v, started);
    hide Merge, UsageAccount, Exhausted, Qualifies;
    var ids, g := Sorted(GroupIds(s, source, UsageAccount(s, source, v))), UsageGroup(s, source, v, started);
    assert id in ids;
    var i :| 0 <= i < |ids| && ids[i] == id;
    m := g[i];
  }

  lemma UsedUpBlocksAll(s: State, source: string, v: Usage, started: Time)
    requires source in s.creds && v.updatedAt.Some? && Exhausted(v.limits) != []
    ensures forall m :: m in UsageGroup(s, source, v, started) ==> m.next.block.Some?
  {
    hide Merge, UsageAccount, Exhausted, Qualifies;
    var group := Group(s, source, UsageAccount(s, source, v));
    var g, blocks := UsageGroup(s, source, v, started), AllBlocks(group, v, v.updatedAt.value);
    var seen := Observed("usage", v.updatedAt.value, Exhausted(v.limits));
    assert blocks[|blocks| - 1] == Some(seen);
    forall m | m in g ensures m.next.block.Some? {
      var i :| 0 <= i < |g| && g[i] == m;
      MergeIsSome(group[i].next, blocks, seen);
    }
  }

  /** The step is an exhaustion error, or a sample that shows limits used up, of the account of `id`. */
  ghost predicate Exhausts(h: History, op: Op, id: string) {
    && Enabled(h, op)
    && match op
       case ErrorSeen(source, _, _, _) => id in GroupIds(h.s, source, AccountOf(h.s, source, h.s.creds[source]))
       case UsageSeen(source, v, _) =>
         && Exhausted(v.limits) != []
         && var s := Learned(h.s, source, v.account);
            id in GroupIds(s, source, UsageAccount(s, source, v))
       case _ => false
  }

  /** From a start, over any run, an error or a sample that shows limits used up, and any further
      run: every credential of the account is out of selection from then on, until a qualifying
      sample is written. */
  lemma AccountStaysBlocked(files: map<string, Cred>, issued: nat, before: seq<Op>, op: Op, later: seq<Op>, id: string)
    requires FilesBelow(files, issued) && Possible(Start(files, issued), before)
    requires var h := After(Start(files, issued), before);
             && Exhausts(h, op, id) && id in h.s.creds && Possible(Step(h, op), later)
             && Stays(Step(h, op), later, id, h.s.creds[id].key)
    ensures var next := Step(After(Start(files, issued), before), op);
            && (EverCleared(next, later, id) || EverReadAway(next, later, id) || !Selectable(After(next, later).s, id))
            && (id in next.s.creds && next.s.creds[id].rev.Issued? ==>
                  EverCleared(next, later, id) || !Selectable(After(next, later).s, id))
  {
    hide Inv, Step, Enabled, Guarded, Selectable, GroupIds, AccountOf, Exhausted;
    StartHasInv(files, issued);
    RunKeepsInv(Start(files, issued), before);
    var h := After(Start(files, issued), before);
    var next := Step(h, op);
    match op {
      case ErrorSeen(source, kind, reset, now) => ErrorBlocksAccount(h, source, kind, reset, now, id);
      case UsageSeen(source, v, started) => UsageBlocksAccount(h, source, v, started, id);
      case _ =>
    }
    StepKeepsInv(h, op);
    GuardedIsBlocked(next, id);
    BlockHolds(next, later, id);
  }

  // ---------------------------------------------------------------- the operator's switch

  /** Memory and file, as it will be read back, both have the operator's last choice. */
  predicate Chosen(h: History, id: string, off: bool) {
    id in h.s.creds && id in h.s.files && h.s.creds[id].disabled == off && Read(h.s.files[id]).disabled == off
  }

  function Choice(h: History, op: Op, id: string, off: bool): bool {
    if op.Operator? && op.id == id && EditLands(h.s, id, op.baseline, op.route) then op.disabled else off
  }

  /** Content that the watcher does not take in. */
  predicate Ignored(h: History, id: string, content: Cred, resolved: bool) {
    content.key == "" || (id in h.s.revoked && !resolved)
  }

  /** Steps that do not bring in another choice from outside: content read or put into the file by
      others has the same one, and the credential is not removed. */
  predicate Orderly(h: History, op: Op, id: string, off: bool) {
    match op
    case Parse(k, content, resolved) => k != id || Ignored(h, id, content, resolved) || Read(content).disabled == off
    case External(k, content) => k != id || Read(content).disabled == off
    case Delete(k) => k != id
    case _ => true
  }

  lemma {:induction false} PublishKeepsSwitch(s: State, g: seq<Member>)
    ensures var t := Publish(s, g).0;
            && t.files == s.files && t.creds.Keys == s.creds.Keys
            && forall id :: id in s.creds ==> t.creds[id].disabled == s.creds[id].disabled
  {
    if g != [] { PublishKeepsSwitch(s, g[..|g| - 1]); }
  }

  lemma WriteKeepsSwitch(h: History, io: Io, id: string, off: bool)
    requires h.pending != [] && Chosen(h, id, off)
    ensures Chosen(Step(h, WriteNext(io)), id, off)
  {
    var m := h.pending[0];
    hide Read, Pending, Rewritten;
    if Current(h.s, m) { PersistCore(h.s, m, io); }
  }

  /** Exactly which watcher reads leave the choice standing. */
  lemma ReadKeepsSwitchIff(h: History, k: string, content: Cred, resolved: bool, id: string, off: bool)
    requires Enabled(h, Parse(k, content, resolved)) && Chosen(h, id, off)
    ensures Chosen(Step(h, Parse(k, content, resolved)), id, off) <==> Orderly(h, Parse(k, content, resolved), id, off)
    ensures resolved ==> Orderly(h, Parse(k, content, resolved), id, off)
  {
    hide Read;
    ParsedSwitch(h.s, k, content, resolved);
    hide Parsed;
  }

  lemma ParsedSwitch(s: State, k: string, content: Cred, resolved: bool)
    ensures var t := Parsed(s, k, content, resolved);
            && t.files == s.files
               && (forall id :: id in s.creds && id != k ==> id in t.creds && t.creds[id] == s.creds[id])
            && (if content.key == "" || (k in s.revoked && !resolved) then t == s
                else k in t.creds && t.creds[k].disabled == Read(content).disabled)
  {}

  lemma EditKeepsSwitch(h: History, op: Op, id: string, off: bool)
    requires (op.Operator? || op.HostSave?) && Enabled(h, op) && Chosen(h, id, off)
    ensures Chosen(Step(h, op), id, Choice(h, op, id, off))
  {}

  lemma StepKeepsSwitch(h: History, op: Op, id: string, off: bool)
    requires Enabled(h, op) && Orderly(h, op, id, off) && Chosen(h, id, off)
    ensures Chosen(Step(h, op), id, Choice(h, op, id, off))
  {
    hide Read, Parsed, PersistOne, Edit, Normalize, Projected;
    match op
    case ErrorSeen(source, kind, reset, now) => PublishKeepsSwitch(h.s, ErrorGroup(h.s, source, kind, reset, now));
    case UsageSeen(source, v, started) =>
      var s := Learned(h.s, source, v.account);
      PublishKeepsSwitch(s, UsageGroup(s, source, v, started));
    case Query(_) =>
    case Answer(_, _, _) =>
    case WriteNext(io) => WriteKeepsSwitch(h, io, id, off);
    case Retry(_) =>
    case Parse(k, content, resolved) => ReadKeepsSwitchIff(h, k, content, resolved, id, off);
    case External(_, _) =>
    case Operator(_, _, _, _, _) => EditKeepsSwitch(h, op, id, off);
    case HostSave(_) => EditKeepsSwitch(h, op, id, off);
    case Delete(_) =>
  }

  ghost predicate AllOrderly(h: History, ops: seq<Op>, id: string, off: bool)
    requires Possible(h, ops)
    decreases |ops|
  {
    ops != [] ==> Orderly(h, ops[0], id, off) && AllOrderly(Step(h, ops[0]), ops[1..], id, Choice(h, ops[0], id, off))
  }

  ghost function LastChoice(h: History, ops: seq<Op>, id: string, off: bool): bool
    requires Possible(h, ops)
    decreases |ops|
  {
    if ops == [] then off else LastChoice(Step(h, ops[0]), ops[1..], id, Choice(h, ops[0], id, off))
  }

  /** Host saves that store the effective switch, quota writes, recoveries and all reads of content
      with the current choice, in any order, leave the operator's last choice standing. */
  lemma {:induction false} SwitchSurvives(h: History, ops: seq<Op>, id: string, off: bool)
    requires Possible(h, ops) && AllOrderly(h, ops, id, off) && Chosen(h, id, off)
    ensures Chosen(After(h, ops), id, LastChoice(h, ops, id, off))
    decreases |ops|
  {
    hide Enabled, Step, Chosen, Choice, Orderly;
    if ops != [] {
      StepKeepsSwitch(h, ops[0], id, off);
      SwitchSurvives(Step(h, ops[0]), ops[1..], id, Choice(h, ops[0], id, off));
    }
  }
}
