/** What ends a quota block, told from the usage sample and the blocks of the account it is about. */
module QuotaRecovery {
  import opened Common
  import opened QuotaBlocks
  import opened QuotaState
  import opened QuotaRuns
  import opened QuotaHistories

  /** The reported limit is of the blocked kind; an unknown quota can be any. */
  predicate IsAbout(u: UsageLimit, kind: string) {
    Canonical(u.kind) != "" && (kind == "quota" || Canonical(u.kind) == kind)
  }

  /** The sample was started after everything known of the block and not before any of its resets, and
      reports room in each kind that was used up. */
  predicate Outlasts(b: Block, v: Usage, started: Time) {
    && b.observedAt < started
    && (forall l :: l in b.limits && l.reset.Some? ==> l.reset.value <= started)
    && forall l :: l in b.limits ==>
         exists u :: u in v.limits && IsAbout(u, l.kind) && u.percent.Some? && u.percent.value < 100.0
  }

  /** A complete sample: no limit it reports is unknown or used up. */
  predicate Complete(v: Usage) {
    && v.ok && !v.planError && v.updatedAt.Some?
    && forall u :: u in v.limits && Canonical(u.kind) != "" ==> u.percent.Some? && 0.0 <= u.percent.value < 100.0
  }

  /** The credentials a sample is about. */
  function About(s: State, source: string, v: Usage): set<string>
    requires source in s.creds
  {
    var t := Learned(s, source, v.account);
    GroupIds(t, source, UsageAccount(t, source, v))
  }

  /** The sample is complete and outlasts every block of the credentials it is about. */
  predicate ShowsRecovery(s: State, source: string, v: Usage, started: Time)
    requires source in s.creds
  {
    && Complete(v)
    && forall k :: k in About(s, source, v) && k in s.creds && CoreBlock(s.creds[k]).Some? ==>
         Outlasts(CoreBlock(s.creds[k]).value, v, started)
  }

  // ---------------------------------------------------------------- a merged block

  lemma {:induction false} CompleteHasRoom(ls: seq<UsageLimit>)
    requires forall u :: u in ls && Canonical(u.kind) != "" ==> u.percent.Some? && 0.0 <= u.percent.value < 100.0
    ensures Exhausted(ls) == []
  {
    hide Canonical;
    if ls != [] { CompleteHasRoom(ls[..|ls| - 1]); }
  }

  /** A sample qualifies against a merged block exactly when it outlasts each block in it. */
  lemma MergeQualifiesIff(c: Cred, blocks: seq<Option<Block>>, v: Usage, started: Time)
    requires exists b :: Some(b) in blocks
    ensures Qualifies(Merge(c, blocks), v, started) <==>
              Complete(v) && forall b :: Some(b) in blocks ==> Outlasts(b, v, started)
  {
    hide Canonical;
    var any :| Some(any) in blocks;
    if Qualifies(Merge(c, blocks), v, started) {
      forall b | Some(b) in blocks ensures Outlasts(b, v, started) {
        QualifiesForEach(c, blocks, b, v, started);
        hide Merge;
      }
    } else if Complete(v) && forall b :: Some(b) in blocks ==> Outlasts(b, v, started) {
      MergeIsOutlasted(c, blocks, v, started);
      hide Merge;
      assert false;
    }
  }

  lemma MergeIsOutlasted(c: Cred, blocks: seq<Option<Block>>, v: Usage, started: Time)
    requires Complete(v) && (exists b :: Some(b) in blocks) && forall b :: Some(b) in blocks ==> Outlasts(b, v, started)
    ensures Qualifies(Merge(c, blocks), v, started)
  {
    var last := MergeIsSeen(c, blocks);
    IsSeenBefore(last, v, started);
    var m := Merge(c, blocks).value;
    forall l | l in m.limits ensures (l.reset.Some? ==> started >= l.reset.value) && Reported(l.kind, v.limits) {
      var b := MergeNames(c, blocks, l);
      LimitIsOutlasted(b, l, v, started);
    }
    hide Merge, Canonical, Outlasts, Reported;
  }

  /** A merged block was last seen with one of its parts. */
  lemma MergeIsSeen(c: Cred, blocks: seq<Option<Block>>) returns (b: Block)
    requires exists b :: Some(b) in blocks
    ensures Merge(c, blocks).Some? && Some(b) in blocks && b.observedAt == Merge(c, blocks).value.observedAt
  {
    hide Joined, Listed;
    JoinedBounds(blocks);
    var j := Joined(blocks).value;
    b :| Among(blocks)(b) && b.observedAt == j.observedAt;
  }

  /** Each of its limits is one of a part's. */
  lemma MergeNames(c: Cred, blocks: seq<Option<Block>>, l: Limit) returns (b: Block)
    requires Merge(c, blocks).Some? && l in Merge(c, blocks).value.limits
    ensures Some(b) in blocks && l in b.limits
  {
    hide Joined, Listed;
    JoinedBounds(blocks);
    var j := Joined(blocks).value;
    ListedNames(j.limits, l.kind, l.reset);
    b :| Among(blocks)(b) && Names(b, l.kind, j.limits[l.kind]);
  }

  lemma IsSeenBefore(b: Block, v: Usage, started: Time)
    requires Outlasts(b, v, started)
    ensures b.observedAt < started
  {}

  lemma LimitIsOutlasted(b: Block, l: Limit, v: Usage, started: Time)
    requires Outlasts(b, v, started) && l in b.limits
    ensures (l.reset.Some? ==> started >= l.reset.value) && Reported(l.kind, v.limits)
  {
    hide Canonical;
  }

  // ---------------------------------------------------------------- a group

  lemma BlockIs(c: Cred)
    ensures Normalize(c).block.Some? <==> CoreBlock(c).Some?
    ensures CoreBlock(c).Some? ==>
              && Normalize(c).block.value.observedAt == CoreBlock(c).value.observedAt
              && Normalize(c).block.value.limits == CoreBlock(c).value.limits
  {}

  lemma SameOutlasts(a: Block, b: Block, v: Usage, started: Time)
    requires a.observedAt == b.observedAt && a.limits == b.limits
    ensures Outlasts(a, v, started) <==> Outlasts(b, v, started)
  {
    hide Canonical;
  }

  lemma BlockOf(s: State, source: string, account: string, k: string) returns (b: Block)
    requires source in s.creds && k in GroupIds(s, source, account) && CoreBlock(s.creds[k]).Some?
    ensures Some(b) in Blocks(Group(s, source, account))
    ensures b.observedAt == CoreBlock(s.creds[k]).value.observedAt && b.limits == CoreBlock(s.creds[k]).value.limits
  {
    hide AccountOf, CoreBlock, Normalize;
    var ids, blocks := Sorted(GroupIds(s, source, account)), Blocks(Group(s, source, account));
    assert k in ids;
    var i :| 0 <= i < |ids| && ids[i] == k;
    BlockIs(s.creds[k]);
    assert blocks[i] == Normalize(s.creds[k]).block;
    b := blocks[i].value;
  }

  lemma OwnerOf(s: State, source: string, account: string, b: Block) returns (k: string)
    requires source in s.creds && Some(b) in Blocks(Group(s, source, account))
    ensures k in GroupIds(s, source, account) && CoreBlock(s.creds[k]).Some?
    ensures b.observedAt == CoreBlock(s.creds[k]).value.observedAt && b.limits == CoreBlock(s.creds[k]).value.limits
  {
    hide AccountOf, CoreBlock, Normalize;
    var ids, blocks := Sorted(GroupIds(s, source, account)), Blocks(Group(s, source, account));
    var i :| 0 <= i < |blocks| && blocks[i] == Some(b);
    k := ids[i];
    assert k in ids;
    BlockIs(s.creds[k]);
  }

  /** The blocks of a group are those of its credentials. */
  lemma GroupBlocks(s: State, source: string, account: string, v: Usage, started: Time)
    requires source in s.creds
    ensures var blocks, ids := Blocks(Group(s, source, account)), GroupIds(s, source, account);
            (forall b :: Some(b) in blocks ==> Outlasts(b, v, started)) <==>
            forall k :: k in ids && CoreBlock(s.creds[k]).Some? ==> Outlasts(CoreBlock(s.creds[k]).value, v, started)
  {
    hide AccountOf, Outlasts, CoreBlock;
    var blocks, ids := Blocks(Group(s, source, account)), GroupIds(s, source, account);
    if forall b :: Some(b) in blocks ==> Outlasts(b, v, started) {
      forall k | k in ids && CoreBlock(s.creds[k]).Some? ensures Outlasts(CoreBlock(s.creds[k]).value, v, started) {
        var b := BlockOf(s, source, account, k);
        SameOutlasts(b, CoreBlock(s.creds[k]).value, v, started);
      }
    }
    if forall k :: k in ids && CoreBlock(s.creds[k]).Some? ==> Outlasts(CoreBlock(s.creds[k]).value, v, started) {
      forall b | Some(b) in blocks ensures Outlasts(b, v, started) {
        var k := OwnerOf(s, source, account, b);
        SameOutlasts(b, CoreBlock(s.creds[k]).value, v, started);
      }
    }
  }

  /** What the sample is held against for a credential it is about, when some block takes part. */
  lemma EvidenceQualifiesIff(s: State, source: string, v: Usage, started: Time, c: Cred)
    requires source in s.creds && v.updatedAt.Some? && Exhausted(v.limits) == []
    requires var t := Learned(s, source, v.account);
             exists b :: Some(b) in Blocks(Group(t, source, UsageAccount(t, source, v)))
    ensures var t := Learned(s, source, v.account);
            var blocks := AllBlocks(Group(t, source, UsageAccount(t, source, v)), v, v.updatedAt.value);
            Qualifies(Merge(c, blocks), v, started) <==> ShowsRecovery(s, source, v, started)
  {
    var t := Learned(s, source, v.account);
    var account := UsageAccount(t, source, v);
    var blocks := Blocks(Group(t, source, account));
    assert AllBlocks(Group(t, source, account), v, v.updatedAt.value) == blocks;
    GroupBlocks(t, source, account, v, started);
    MergeQualifiesIff(c, blocks, v, started);
    hide Merge, Qualifies, Outlasts, CoreBlock, AccountOf, UsageAccount, Complete, Exhausted;
  }

  /** For a blocked credential a sample plans the end of the block exactly when it shows recovery. */
  lemma PlansEndIff(h: History, source: string, v: Usage, started: Time, m: Member)
    requires Enabled(h, UsageSeen(source, v, started))
    requires m in UsageGroup(Learned(h.s, source, v.account), source, v, started)
    requires Blocked(h.s, m.id)
    ensures m.next.block.None? <==> ShowsRecovery(h.s, source, v, started)
  {
    hide Merge, Qualifies, AccountOf, UsageAccount, CoreBlock, Exhausted, ShowsRecovery;
    var t := Learned(h.s, source, v.account);
    var account := UsageAccount(t, source, v);
    var group, g := Group(t, source, account), UsageGroup(t, source, v, started);
    var blocks := AllBlocks(group, v, v.updatedAt.value);
    var i :| 0 <= i < |g| && g[i] == m;
    assert m.id == Sorted(GroupIds(t, source, account))[i] && m.id in GroupIds(t, source, account);
    var b := BlockOf(t, source, account, m.id);
    assert Some(b) in blocks;
    MergeIsSome(group[i].next, blocks, b);
    if Exhausted(v.limits) == [] {
      EvidenceQualifiesIff(h.s, source, v, started, group[i].next);
    } else if ShowsRecovery(h.s, source, v, started) {
      RecoveryIsComplete(h.s, source, v, started);
      CompleteHasRoom(v.limits);
      assert false;
    }
  }

  lemma RecoveryIsComplete(s: State, source: string, v: Usage, started: Time)
    requires source in s.creds && ShowsRecovery(s, source, v, started)
    ensures Complete(v)
  {}

  // ---------------------------------------------------------------- the writes

  /** The next writes of an observation, one after the other. */
  ghost function Written(h: History, ios: seq<Io>): History
    requires |ios| <= |h.pending|
    decreases |ios|
  {
    if ios == [] then h else Written(Step(h, WriteNext(ios[0])), ios[1..])
  }

  /** Writes of other credentials leave one alone, in memory and on disk. */
  lemma {:induction false} WrittenOthers(h: History, ios: seq<Io>, id: string)
    requires Inv(h) && |ios| <= |h.pending| && forall j :: 0 <= j < |ios| ==> h.pending[j].id != id
    ensures var t := Written(h, ios);
            && Inv(t) && t.pending == h.pending[|ios|..] && (id in t.s.creds <==> id in h.s.creds)
            && (id in h.s.creds ==> t.s.creds[id] == h.s.creds[id])
            && (id in t.s.files <==> id in h.s.files) && (id in h.s.files ==> t.s.files[id] == h.s.files[id])
    decreases |ios|
  {
    hide Inv;
    if ios != [] {
      StepKeepsInv(h, WriteNext(ios[0]));
      OtherIsWritten(h.s, h.pending[0], ios[0], id);
      hide PersistOne;
      WrittenOthers(Step(h, WriteNext(ios[0])), ios[1..], id);
    }
  }

  lemma OtherIsWritten(s: State, m: Member, io: Io, id: string)
    requires m.id != id
    ensures var t := PersistOne(s, m, io);
            && (id in t.creds <==> id in s.creds) && (id in s.creds ==> t.creds[id] == s.creds[id])
            && (id in t.files <==> id in s.files) && (id in s.files ==> t.files[id] == s.files[id])
  {
    hide Pending, Rewritten;
  }

  /** Publishing plans a write for every credential whose block is to end. */
  lemma {:induction false} PlansEnd(s: State, g: seq<Member>, m: Member)
    requires m in g && m.next.block.None? && Blocked(s, m.id) && m.next.key == s.creds[m.id].key
    requires forall n :: n in g ==> Ready(n)
    ensures m in Publish(s, g).1
  {
    hide CoreBlock, PublishOne, Ready;
    var n := |g| - 1;
    assert g == g[..n] + [g[n]];
    if m in g[..n] {
      PlansEnd(s, g[..n], m);
    } else {
      PublishBlocks(s, g[..n]);
      var before := Publish(s, g[..n]).0;
      assert CoreBlock(before.creds[m.id]).Some?;
      NoneIsNone(before.creds[m.id]);
    }
  }

  /** What a sample comes to for a blocked credential it is about, when its writes are all that happens:
      the block ends exactly if the sample shows recovery and the credential's write finds an agreeing
      file and lands. Before that write nothing has ended. */
  lemma SampleEndsBlockIff(h: History, source: string, v: Usage, started: Time, id: string, ios: seq<Io>, io: Io)
    requires Inv(h) && Enabled(h, UsageSeen(source, v, started)) && Blocked(h.s, id) && id in About(h.s, source, v)
    requires var seen := Step(h, UsageSeen(source, v, started));
             && |ios| < |seen.pending| && seen.pending[|ios|].id == id
             && forall j :: 0 <= j < |ios| ==> seen.pending[j].id != id
    ensures var t := Written(Step(h, UsageSeen(source, v, started)), ios);
            && Blocked(t.s, id) && Enabled(t, WriteNext(io))
            && (!Blocked(Step(t, WriteNext(io)).s, id) <==>
                ShowsRecovery(h.s, source, v, started) && FileAgrees(h.s, id, h.s.creds[id])
                  && io.matches && io.written)
  {
    hide Inv, Step, Enabled, CoreBlock, ShowsRecovery, About, FileAgrees;
    var seen := SeenIs(h, source, v, started, id);
    WrittenOthers(seen, ios, id);
    var t := Written(seen, ios);
    var m := seen.pending[|ios|];
    assert t.pending[0] == m && m in seen.pending;
    NextIsEnabled(t, io);
    PlansEndIff(h, source, v, started, m);
    PlanIsCurrent(h, source, v, started, m);
    WriteUnblocksIff(t, io, id);
    hide Written, UsageGroup;
    SameAgrees(h.s, t.s, id);
  }

  /** Seeing a sample leaves files, keys, switches and blocks, and plans writes of its group. */
  lemma SeenIs(h: History, source: string, v: Usage, started: Time, id: string) returns (seen: History)
    requires Inv(h) && Enabled(h, UsageSeen(source, v, started)) && Blocked(h.s, id)
    ensures seen == Step(h, UsageSeen(source, v, started)) && Inv(seen)
    ensures Blocked(seen.s, id) && seen.s.creds[id].key == h.s.creds[id].key
    ensures seen.s.creds[id].disabled == h.s.creds[id].disabled && seen.s.files == h.s.files
    ensures forall m :: m in seen.pending ==> m in UsageGroup(Learned(h.s, source, v.account), source, v, started)
  {
    hide Inv, CoreBlock, UsageGroup;
    var s := Learned(h.s, source, v.account);
    var g := UsageGroup(s, source, v, started);
    seen := Step(h, UsageSeen(source, v, started));
    StepKeepsInv(h, UsageSeen(source, v, started));
    UsageIsReady(h, source, v, started);
    PublishBlocks(s, g);
    PublishKeepsSwitch(s, g);
  }

  /** Which writes leave a blocked credential without a block. */
  lemma WriteUnblocksIff(h: History, io: Io, id: string)
    requires Inv(h) && h.pending != [] && Blocked(h.s, id)
    ensures var m := h.pending[0];
            !Blocked(Step(h, WriteNext(io)).s, id) <==>
              && m.id == id && m.next.key == h.s.creds[id].key && m.next.block.None?
              && FileAgrees(h.s, id, h.s.creds[id]) && io.matches && io.written
  {
    WriteEndsBlockIff(h, io, id);
    hide Inv, CoreBlock, FileAgrees, Pending, Rewritten;
  }

  lemma NextIsEnabled(h: History, io: Io)
    ensures Enabled(h, WriteNext(io)) <==> h.pending != []
  {}

  lemma SameAgrees(s: State, t: State, id: string)
    requires id in s.creds && id in t.creds && t.creds[id].key == s.creds[id].key
    requires t.creds[id].disabled == s.creds[id].disabled
    requires (id in t.files <==> id in s.files) && (id in s.files ==> t.files[id] == s.files[id])
    ensures FileAgrees(t, id, t.creds[id]) == FileAgrees(s, id, s.creds[id])
  {
    hide Read;
  }

  lemma PlanIsCurrent(h: History, source: string, v: Usage, started: Time, m: Member)
    requires Inv(h) && Enabled(h, UsageSeen(source, v, started))
    requires m in UsageGroup(Learned(h.s, source, v.account), source, v, started)
    ensures m.id in h.s.creds && m.next.key == h.s.creds[m.id].key
  {
    hide Merge, Qualifies, AccountOf, UsageAccount, CoreBlock, Exhausted;
    var s := Learned(h.s, source, v.account);
    var account := UsageAccount(s, source, v);
    GroupIsKeyed(h, s, source, account);
    var g := UsageGroup(s, source, v, started);
    var i :| 0 <= i < |g| && g[i] == m;
    assert Group(s, source, account)[i] in Group(s, source, account);
  }

  /** And such a write is planned. */
  lemma RecoveryIsPlanned(h: History, source: string, v: Usage, started: Time, id: string) returns (j: nat)
    requires Inv(h) && Enabled(h, UsageSeen(source, v, started)) && Blocked(h.s, id) && id in About(h.s, source, v)
    requires ShowsRecovery(h.s, source, v, started)
    ensures var seen := Step(h, UsageSeen(source, v, started));
            j < |seen.pending| && seen.pending[j].id == id && forall i :: 0 <= i < j ==> seen.pending[i].id != id
  {
    hide Inv, CoreBlock, ShowsRecovery, Merge, Qualifies, AccountOf, UsageAccount, Exhausted;
    var s := Learned(h.s, source, v.account);
    var g, ids := UsageGroup(s, source, v, started), Sorted(GroupIds(s, source, UsageAccount(s, source, v)));
    assert id in ids;
    var i :| 0 <= i < |ids| && ids[i] == id;
    var m := g[i];
    assert m in g && m.id == id;
    PlansEndIff(h, source, v, started, m);
    PlanIsCurrent(h, source, v, started, m);
    UsageIsReady(h, source, v, started);
    PlansEnd(s, g, m);
    hide Publish;
    j := FirstOf(Step(h, UsageSeen(source, v, started)).pending, m);
  }

  lemma {:induction false} FirstOf(ms: seq<Member>, m: Member) returns (j: nat)
    requires m in ms
    ensures j < |ms| && ms[j].id == m.id && forall i :: 0 <= i < j ==> ms[i].id != m.id
  {
    if ms[0].id == m.id {
      j := 0;
    } else {
      j := FirstOf(ms[1..], m);
      j := j + 1;
    }
  }

  // ---------------------------------------------------------------- every run

  /** The evidence that planned writes are held against is that of a sample of the run. */
  lemma {:induction false} EvidenceFrom(h: History, ops: seq<Op>) returns (n: int)
    requires Possible(h, ops)
    ensures -1 <= n < |ops|
    ensures n < 0 ==> After(h, ops).evidence == h.evidence || After(h, ops).evidence == map[]
    ensures n >= 0 ==>
              && ops[n].UsageSeen? && Possible(h, ops[..n])
              && var mid := After(h, ops[..n]);
                 Enabled(mid, ops[n]) && After(h, ops).evidence == Step(mid, ops[n]).evidence
    decreases |ops|
  {
    n := -1;
    if ops != [] {
      var next := Step(h, ops[0]);
      n := EvidenceFrom(next, ops[1..]);
      StepEvidence(h, ops[0]);
      hide Step, Enabled;
      if n >= 0 {
        n := n + 1;
        assert ops[..n][1..] == ops[1..][..n - 1];
      } else if ops[0].UsageSeen? && After(h, ops).evidence == next.evidence {
        n := 0;
        assert ops[..0] == [];
      }
    }
  }

  lemma StepEvidence(h: History, op: Op)
    requires Enabled(h, op)
    ensures op.UsageSeen? || Step(h, op).evidence == h.evidence || Step(h, op).evidence == map[]
  {}

  /** Over any run from a start: when a write ends the block of a guarded credential, a sample earlier in
      the run was about that credential and showed recovery from every block its account had then. */
  lemma EndIsEarned(files: map<string, Cred>, issued: nat, ops: seq<Op>, io: Io, id: string) returns (n: nat)
    requires FilesBelow(files, issued) && Possible(Start(files, issued), ops)
    requires var h := After(Start(files, issued), ops);
             Guarded(h, id) && h.pending != [] && !Blocked(Step(h, WriteNext(io)).s, id)
    ensures n < |ops| && ops[n].UsageSeen? && Possible(Start(files, issued), ops[..n])
    ensures var mid := After(Start(files, issued), ops[..n]).s;
            && ops[n].source in mid.creds && id in About(mid, ops[n].source, ops[n].value)
            && ShowsRecovery(mid, ops[n].source, ops[n].value, ops[n].started)
  {
    hide Inv, Step, Enabled, CoreBlock, ShowsRecovery, About, Qualifies, FileAgrees;
    StartHasInv(files, issued);
    RunKeepsInv(Start(files, issued), ops);
    var h := After(Start(files, issued), ops);
    GuardedIsBlocked(h, id);
    WriteUnblocksIff(h, io, id);
    assert h.pending[0] in h.pending && Earned(h.pending[0], h.evidence);
    var at := EvidenceFrom(Start(files, issued), ops);
    assert at >= 0;
    n := at;
    EvidenceShows(After(Start(files, issued), ops[..n]), ops[n], id);
  }

  /** Evidence that a block may end is a sample that shows recovery. */
  lemma EvidenceShows(h: History, op: Op, id: string)
    requires Enabled(h, op) && op.UsageSeen? && id in Step(h, op).evidence
    requires var e := Step(h, op).evidence[id]; Qualifies(e.merged, e.value, e.started)
    ensures op.source in h.s.creds && id in About(h.s, op.source, op.value)
    ensures ShowsRecovery(h.s, op.source, op.value, op.started)
  {
    hide Merge, AccountOf, UsageAccount, CoreBlock, Exhausted, Publish, UsageGroup, ShowsRecovery;
    var v := op.value;
    var t := Learned(h.s, op.source, v.account);
    var account := UsageAccount(t, op.source, v);
    var blocks := AllBlocks(Group(t, op.source, account), v, v.updatedAt.value);
    var c := Grouped(t.creds[id], account);
    assert Step(h, op).evidence == EvidenceFor(t, op.source, v, op.started);
    assert Qualifies(Merge(c, blocks), v, op.started);
    CompleteHasRoom(v.limits);
    MergeHasSource(c, blocks);
    EvidenceQualifiesIff(h.s, op.source, v, op.started, c);
  }
}
