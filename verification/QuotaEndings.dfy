/** From an exhausted quota to its end: what must have been sampled in between, over every run. */
module QuotaEndings {
  import opened Common
  import opened QuotaBlocks
  import opened QuotaState
  import opened QuotaRuns
  import opened QuotaHistories
  import opened QuotaRecovery
  import opened QuotaObservations

  predicate Sets(m: Member, id: string, key: string) { m.id == id && m.next.block.Some? && m.next.key == key }

  /** Writes under way for a credential that name a block name the one that memory has. */
  ghost predicate Planned(h: History, id: string) {
    id in h.s.creds && forall m :: m in h.pending && Sets(m, id, h.s.creds[id].key) ==>
      CoreBlock(m.next) == CoreBlock(h.s.creds[id])
  }

  /** Blocked under a revision of the program's, with nothing under way that could end that unearned. */
  ghost predicate Held(h: History, id: string) {
    Guarded(h, id) && h.s.creds[id].rev.Issued? && Planned(h, id)
  }

  ghost function Core(h: History, id: string): Block
    requires Blocked(h.s, id)
  {
    CoreBlock(h.s.creds[id]).value
  }

  // ---------------------------------------------------------------- observations

  lemma PublishedOne(s: State, m: Member, id: string)
    requires id in s.creds && Ready(m) && (m.id == id ==> m.next.key == s.creds[id].key)
    ensures var t := PublishOne(s, m);
            && id in t.creds && t.creds[id].key == s.creds[id].key
            && (if m.id == id && m.next.block.Some?
                then CoreBlock(t.creds[id]) == CoreBlock(m.next) && t.creds[id].block == m.next.block
                     && t.creds[id].identity == m.next.identity
                else t.creds[id] == s.creds[id])
  {}

  /** Publishing puts just the planned block into memory, and with it the account's identity. */
  lemma {:induction false} Published(s: State, g: seq<Member>, id: string)
    requires Single(g) && id in s.creds && (forall m :: m in g ==> Ready(m))
    requires forall m :: m in g && m.id == id ==> m.next.key == s.creds[id].key
    ensures var t := Publish(s, g).0;
            && id in t.creds && t.creds[id].key == s.creds[id].key
            && (forall m :: m in g && m.id == id && m.next.block.Some? ==>
                  CoreBlock(t.creds[id]) == CoreBlock(m.next) && t.creds[id].block == m.next.block
                    && t.creds[id].identity == m.next.identity)
            && ((forall m :: m in g && m.id == id ==> m.next.block.None?) ==> t.creds[id] == s.creds[id])
  {
    hide CoreBlock, Ready, PublishOne, Single;
    if g != [] {
      var n := |g| - 1;
      assert g == g[..n] + [g[n]];
      assert Single(g[..n]) && (g[n].id == id ==> forall m :: m in g && m.id == id ==> m == g[n]) by {
        SingleIs(g, n);
      }
      Published(s, g[..n], id);
      PublishedOne(Publish(s, g[..n]).0, g[n], id);
    }
  }

  lemma SingleIs(g: seq<Member>, n: nat)
    requires Single(g) && n < |g|
    ensures Single(g[..n]) && forall m :: m in g && m.id == g[n].id ==> m == g[n]
  {}

  /** What an observation does to one credential's block, and what it plans for it. */
  lemma Begun(h: History, s: State, g: seq<Member>, evidence: map<string, Evidence>, id: string)
    requires s.creds == h.s.creds && id in s.creds && Single(g)
    requires forall m :: m in g ==> Ready(m) && Plans(h.s, m)
    ensures var next := Begin(h, s, g).(evidence := evidence);
            && Planned(next, id) && next.s.creds[id].key == h.s.creds[id].key
            && (forall m :: m in g && m.id == id && m.next.block.Some? ==>
                  CoreBlock(next.s.creds[id]) == CoreBlock(m.next))
            && (Blocked(h.s, id) ==> Blocked(next.s, id) && Extends(Core(h, id), Core(next, id)))
  {
    hide CoreBlock, Ready, Extends, Single;
    forall m | m in g && m.id == id ensures m.next.key == s.creds[id].key { assert Plans(h.s, m); }
    Published(s, g, id);
    PublishBlocks(s, g);
    hide Publish;
    if Blocked(h.s, id) {
      if m :| m in g && m.id == id && m.next.block.Some? {
        assert Plans(h.s, m);
      } else {
        ExtendsItself(Core(h, id));
      }
    }
  }

  lemma ExtendsItself(b: Block)
    ensures Extends(b, b)
  {
    forall l | l in b.limits ensures Lists(b, l) { assert Limit(l.kind, l.reset) == l && NotAfter(l.reset, l.reset); }
  }

  lemma ErrorBegun(h: History, source: string, kind: string, reset: Option<Time>, now: Time, id: string)
    requires Inv(h) && Enabled(h, ErrorSeen(source, kind, reset, now)) && id in h.s.creds
    ensures var next := Step(h, ErrorSeen(source, kind, reset, now));
            && Planned(next, id) && next.evidence == map[]
            && (Blocked(h.s, id) ==> Blocked(next.s, id) && Extends(Core(h, id), Core(next, id)))
            && (id in GroupIds(h.s, source, AccountOf(h.s, source, h.s.creds[source])) ==>
                  Blocked(next.s, id)
                  && Remembers(Core(next, id), if kind == "" then "quota" else kind, reset, now))
  {
    hide Inv, CoreBlock, AccountOf, Extends, Remembers, Merge, Ready;
    var g := ErrorGroup(h.s, source, kind, reset, now);
    ErrorIsReady(h, source, kind, reset, now);
    ErrorPlans(h, source, kind, reset, now);
    Begun(h, h.s, g, map[], id);
    var ids := GroupIds(h.s, source, AccountOf(h.s, source, h.s.creds[source]));
    if id in ids {
      assert id in Sorted(ids);
      var i :| 0 <= i < |Sorted(ids)| && Sorted(ids)[i] == id;
      assert g[i].id == id && g[i] in g;
    }
  }

  lemma UsageBegun(h: History, source: string, v: Usage, started: Time, id: string)
    requires Inv(h) && Enabled(h, UsageSeen(source, v, started)) && id in h.s.creds
    ensures var next := Step(h, UsageSeen(source, v, started));
            && Planned(next, id)
            && (Blocked(h.s, id) ==> Blocked(next.s, id) && Extends(Core(h, id), Core(next, id)))
            && (id in About(h.s, source, v) ==>
                  forall k, r :: UsedUp(v, k, r) ==>
                    Blocked(next.s, id) && Remembers(Core(next, id), k, r, v.updatedAt.value))
  {
    hide Inv, CoreBlock, AccountOf, UsageAccount, Extends, Remembers, Merge, Ready, Qualifies, Exhausted, UsedUp;
    var s := Learned(h.s, source, v.account);
    var g := UsageGroup(s, source, v, started);
    UsageIsReady(h, source, v, started);
    UsagePlans(h, source, v, started);
    Begun(h, s, g, Step(h, UsageSeen(source, v, started)).evidence, id);
    if id in About(h.s, source, v) {
      var m := MemberOf(h.s, source, v, started, id);
      if m.next.block.None? { NoneIsNone(m.next); }
      hide Begin, Publish, UsageGroup, EvidenceFor;
    }
  }

  lemma MemberOf(s: State, source: string, v: Usage, started: Time, id: string) returns (m: Member)
    requires source in s.creds && v.updatedAt.Some? && id in About(s, source, v)
    ensures m in UsageGroup(Learned(s, source, v.account), source, v, started) && m.id == id
  {
    hide Merge, AccountOf, UsageAccount, Qualifies, Exhausted;
    var t := Learned(s, source, v.account);
    var ids := Sorted(GroupIds(t, source, UsageAccount(t, source, v)));
    assert id in ids;
    var i :| 0 <= i < |ids| && ids[i] == id;
    m := UsageGroup(t, source, v, started)[i];
  }

  // ---------------------------------------------------------------- one step

  /** Memory has the same block, and no other is under way than before. */
  lemma SameBlockHolds(h: History, t: History, id: string)
    requires Planned(h, id) && Blocked(h.s, id) && id in t.s.creds && t.s.creds[id].key == h.s.creds[id].key
    requires CoreBlock(t.s.creds[id]) == CoreBlock(h.s.creds[id]) && forall m :: m in t.pending ==> m in h.pending
    ensures Planned(t, id) && Blocked(t.s, id) && Extends(Core(h, id), Core(t, id))
  {
    hide CoreBlock, Extends;
    ExtendsItself(Core(h, id));
  }

  lemma WriteHolds(h: History, io: Io, id: string)
    requires Inv(h) && h.pending != [] && Held(h, id)
    ensures var t := Step(h, WriteNext(io));
            !Blocked(t.s, id) || (Planned(t, id) && Extends(Core(h, id), Core(t, id)))
  {
    hide CoreBlock, Inv, Extends, Pending, Rewritten, Normalize, Read;
    var m, t := h.pending[0], Step(h, WriteNext(io));
    if m.id == id && Current(h.s, m) {
      PersistCore(h.s, m, io);
      hide PersistOne;
      assert m in h.pending && Ready(m);
      NoneIsNone(m.next);
      if Blocked(t.s, id) { SameBlockHolds(h, t, id); }
    } else {
      WriteKeepsOthers(h.s, m, io, id);
      hide PersistOne;
      SameBlockHolds(h, t, id);
    }
  }

  lemma WriteKeepsOthers(s: State, m: Member, io: Io, id: string)
    requires id in s.creds && !(m.id == id && Current(s, m))
    ensures id in PersistOne(s, m, io).creds && PersistOne(s, m, io).creds[id] == s.creds[id]
  {
    hide Pending, Rewritten;
  }

  lemma ParseHolds(h: History, k: string, content: Cred, resolved: bool, id: string)
    requires Inv(h) && Enabled(h, Parse(k, content, resolved)) && Held(h, id)
    requires var t := Parsed(h.s, k, content, resolved); id in t.creds && t.creds[id].key == h.s.creds[id].key
    ensures CoreBlock(Parsed(h.s, k, content, resolved).creds[id]) == CoreBlock(h.s.creds[id])
  {
    var c := h.s.creds[id];
    if k == id && Parsed(h.s, k, content, resolved) != h.s {
      ParsedFrom(h.s, k, content, resolved);
      hide CoreBlock, Parsed;
      assert (id, content) in h.past && InLine(content, c);
    } else if k != id {
      hide CoreBlock, Inv;
      if Parsed(h.s, k, content, resolved) != h.s { ParsedFrom(h.s, k, content, resolved); }
    }
  }

  lemma RetryHolds(h: History, ids: seq<string>, id: string)
    requires Enabled(h, Retry(ids)) && Blocked(h.s, id)
    ensures Planned(Step(h, Retry(ids)), id)
  {
    CoreIsStable(h.s.creds[id]);
    hide CoreBlock, Normalize;
    var next := Step(h, Retry(ids));
    forall m | m in next.pending && Sets(m, id, next.s.creds[id].key)
      ensures CoreBlock(m.next) == CoreBlock(next.s.creds[id])
    {
      var i :| 0 <= i < |ids| && next.pending[i] == m;
    }
  }

  /** A step of another kind that leaves the credential with its key leaves its block. */
  lemma OtherHolds(h: History, op: Op, id: string)
    requires Inv(h) && Enabled(h, op) && Held(h, id)
    requires op.Query? || op.Answer? || op.External? || op.Operator? || op.HostSave? || op.Delete?
    requires var t := Step(h, op).s; id in t.creds && t.creds[id].key == h.s.creds[id].key
    ensures var t := Step(h, op); CoreBlock(t.s.creds[id]) == CoreBlock(h.s.creds[id]) && t.pending == h.pending
  {
    hide CoreBlock, Inv, Guarded, Planned;
    if op.Operator? { EditedCore(op.baseline, op.key, op.disabled); }
    hide Edited, Projected, Read, Normalize;
  }

  /** One step: a held block ends by a write on the evidence of a sample, or is held on, and what is
      known of the exhausted quota is not forgotten. */
  lemma StepHolds(h: History, op: Op, id: string)
    requires Inv(h) && Enabled(h, op) && Held(h, id)
    requires var t := Step(h, op).s; id in t.creds && t.creds[id].key == h.s.creds[id].key
    ensures Clears(h, op, id) || (Held(Step(h, op), id) && Extends(Core(h, id), Core(Step(h, op), id)))
  {
    StepGuards(h, op, id);
    IssuedOutlastsReads(h, op, id);
    StepKeepsIssued(h, op, id);
    hide Inv, CoreBlock, Clears, Extends, ReadEnds;
    var t := Step(h, op);
    if Guarded(t, id) {
      match op
      case ErrorSeen(source, kind, reset, now) => ErrorBegun(h, source, kind, reset, now, id);
      case UsageSeen(source, v, started) => UsageBegun(h, source, v, started, id);
      case WriteNext(io) => WriteHolds(h, io, id);
      case Parse(k, content, resolved) =>
        ParseHolds(h, k, content, resolved, id);
        SameBlockHolds(h, t, id);
      case Retry(ids) =>
        RetryHolds(h, ids, id);
        ExtendsItself(Core(h, id));
      case _ =>
        OtherHolds(h, op, id);
        SameBlockHolds(h, t, id);
    }
  }

  // ---------------------------------------------------------------- every run

  /** Over any run without an end of the block, it is held, and knows at least what it did at the start. */
  lemma {:induction false} RunHolds(h: History, ops: seq<Op>, id: string)
    requires Inv(h) && Possible(h, ops) && Held(h, id) && Stays(h, ops, id, h.s.creds[id].key)
    requires !EverCleared(h, ops, id)
    ensures Held(After(h, ops), id) && Extends(Core(h, id), Core(After(h, ops), id))
    decreases |ops|
  {
    hide Inv, Enabled, Step, Held, Clears, Extends, Core;
    HeldIsBlocked(h, id);
    if ops == [] {
      ExtendsItself(Core(h, id));
    } else {
      var next := Step(h, ops[0]);
      StepKeepsInv(h, ops[0]);
      StayedOne(h, ops, id);
      StepHolds(h, ops[0], id);
      HeldIsBlocked(next, id);
      RunHolds(next, ops[1..], id);
      HeldIsBlocked(After(h, ops), id);
      ExtendsOn(Core(h, id), Core(next, id), Core(After(h, ops), id));
    }
  }

  lemma HeldIsBlocked(h: History, id: string)
    requires Held(h, id)
    ensures Blocked(h.s, id) && id in h.s.creds && Guarded(h, id)
  {}

  /** A prefix of a run, up to where the block first ends. */
  lemma {:induction false} FirstClear(h: History, ops: seq<Op>, id: string, key: string) returns (n: nat)
    requires Possible(h, ops) && EverCleared(h, ops, id) && Stays(h, ops, id, key)
    ensures n < |ops| && Possible(h, ops[..n]) && !EverCleared(h, ops[..n], id) && Stays(h, ops[..n], id, key)
    ensures Clears(After(h, ops[..n]), ops[n], id)
    decreases |ops|
  {
    hide Enabled, Step, Clears;
    if Clears(h, ops[0], id) {
      n := 0;
      assert ops[..0] == [];
    } else {
      n := FirstClear(Step(h, ops[0]), ops[1..], id, key);
      n := n + 1;
      assert ops[..n][1..] == ops[1..][..n - 1] && ops[..n][0] == ops[0];
    }
  }

  /** A shorter run is possible too, and ends nothing that the longer one does not. */
  lemma {:induction false} Prefix(h: History, ops: seq<Op>, n: nat, id: string, key: string)
    requires n <= |ops| && Possible(h, ops) && !EverCleared(h, ops, id) && Stays(h, ops, id, key)
    ensures Possible(h, ops[..n]) && !EverCleared(h, ops[..n], id) && Stays(h, ops[..n], id, key)
    decreases |ops|
  {
    hide Enabled, Step, Clears;
    if n > 0 {
      Prefix(Step(h, ops[0]), ops[1..], n - 1, id, key);
      assert ops[..n][1..] == ops[1..][..n - 1] && ops[..n][0] == ops[0];
    }
  }

  /** The sample was complete and about the credential, was started after the kind was seen to be used
      up and not before it was to be reset, and reported room in it. */
  predicate Refutes(op: Op, kind: string, reset: Option<Time>, at: Time) {
    && op.UsageSeen? && Complete(op.value) && at < op.started && (reset.Some? ==> reset.value <= op.started)
    && exists u :: u in op.value.limits && IsAbout(u, kind) && u.percent.Some? && u.percent.value < 100.0
  }

  /** No evidence from before speaks for an end of the block. */
  predicate Unspoken(evidence: map<string, Evidence>, id: string) {
    id in evidence ==> !Qualifies(evidence[id].merged, evidence[id].value, evidence[id].started)
  }

  lemma ClearIsEarned(h: History, op: Op, id: string)
    requires Clears(h, op, id)
    ensures !Unspoken(h.evidence, id)
  {}

  lemma {:induction false} EndRefutes(h: History, ops: seq<Op>, id: string, kind: string, reset: Option<Time>,
                                      at: Time) returns (n: nat)
    requires Inv(h) && Possible(h, ops) && Held(h, id) && Stays(h, ops, id, h.s.creds[id].key)
    requires EverCleared(h, ops, id) && Unspoken(h.evidence, id) && Remembers(Core(h, id), kind, reset, at)
    ensures n < |ops| && Refutes(ops[n], kind, reset, at)
    ensures Possible(h, ops[..n]) && ops[n].source in After(h, ops[..n]).s.creds
            && id in About(After(h, ops[..n]).s, ops[n].source, ops[n].value)
  {
    hide Inv, Enabled, Step, Held, Clears, Extends, Core, Remembers, Qualifies, About, Refutes, ShowsRecovery;
    var key := h.s.creds[id].key;
    var last := FirstClear(h, ops, id, key);
    var front := ops[..last];
    ClearIsEarned(After(h, front), ops[last], id);
    var k := EvidenceFrom(h, front);
    assert k >= 0;
    n := k;
    Prefix(h, front, n, id, key);
    assert front[..n] == ops[..n] && front[n] == ops[n];
    var mid := After(h, ops[..n]);
    RunHolds(h, ops[..n], id);
    HeldIsBlocked(mid, id);
    HeldIsBlocked(h, id);
    RemembersOn(Core(h, id), Core(mid, id), kind, reset, at);
    EvidenceShows(mid, ops[n], id);
    RecoveryRefutes(mid, ops[n], id, kind, reset, at);
  }

  lemma RecoveryRefutes(h: History, op: Op, id: string, kind: string, reset: Option<Time>, at: Time)
    requires op.UsageSeen? && op.source in h.s.creds && id in About(h.s, op.source, op.value) && Blocked(h.s, id)
    requires ShowsRecovery(h.s, op.source, op.value, op.started) && Remembers(Core(h, id), kind, reset, at)
    ensures Refutes(op, kind, reset, at)
  {
    OutlastsOn(Core(h, id), kind, reset, at, op.value, op.started);
    hide Outlasts, Canonical, Remembers, Complete;
  }

  /** The step is an error of the account, or a sample, that shows the kind to be used up until the reset. */
  ghost predicate ShowsUsedUp(h: History, op: Op, id: string, kind: string, reset: Option<Time>, at: Time) {
    && Enabled(h, op)
    && match op
       case ErrorSeen(source, k, r, now) =>
         && kind == (if k == "" then "quota" else k) && reset == r && at == now
         && id in GroupIds(h.s, source, AccountOf(h.s, source, h.s.creds[source]))
       case UsageSeen(source, v, _) =>
         UsedUp(v, kind, reset) && at == v.updatedAt.value && id in About(h.s, source, v)
       case _ => false
  }

  /** The step blocks the credential and remembers why. */
  lemma UsedUpIsHeld(h: History, op: Op, id: string, kind: string, reset: Option<Time>, at: Time)
    requires Inv(h) && id in h.s.creds && ShowsUsedUp(h, op, id, kind, reset, at)
    ensures var next := Step(h, op);
            && Guarded(next, id) && Planned(next, id) && Remembers(Core(next, id), kind, reset, at)
            && next.s.creds[id].key == h.s.creds[id].key && Unspoken(next.evidence, id)
  {
    hide Inv, Remembers, CoreBlock, AccountOf, UsageAccount, Merge, Extends, Ready;
    match op
    case ErrorSeen(source, k, r, now) =>
      ErrorBegun(h, source, k, r, now, id);
      ErrorBlocksAccount(h, source, k, r, now, id);
    case UsageSeen(source, v, started) =>
      UsageBegun(h, source, v, started, id);
      ExhaustedIff(v, kind, reset);
      UsageBlocksAccount(h, source, v, started, id);
      UsedUpIsUnspoken(Step(h, op).evidence, id, v, kind, reset);
    case _ =>
  }

  lemma UsedUpIsUnspoken(evidence: map<string, Evidence>, id: string, v: Usage, kind: string, reset: Option<Time>)
    requires UsedUp(v, kind, reset) && (id in evidence ==> evidence[id].value == v)
    ensures Unspoken(evidence, id)
  {
    hide Canonical, Reported;
  }

  /** From a start, over any run, a step that shows a kind used up until some reset, and any further run in
      which the credential keeps its key: it can be selected again only if a complete sample in between,
      about that credential, was started after the kind was seen to be used up and not before the reset,
      and reported room in the kind. */
  lemma RecoveryNeedsSample(files: map<string, Cred>, issued: nat, before: seq<Op>, op: Op, later: seq<Op>, id: string,
                            kind: string, reset: Option<Time>, at: Time) returns (n: nat)
    requires FilesBelow(files, issued) && Possible(Start(files, issued), before)
    requires var h := After(Start(files, issued), before);
             && id in h.s.creds && ShowsUsedUp(h, op, id, kind, reset, at) && Possible(Step(h, op), later)
             && Stays(Step(h, op), later, id, h.s.creds[id].key)
    requires var next := Step(After(Start(files, issued), before), op);
             next.s.creds[id].rev.Issued? && Selectable(After(next, later).s, id)
    ensures n < |later| && Refutes(later[n], kind, reset, at)
    ensures var next := Step(After(Start(files, issued), before), op);
            && Possible(next, later[..n]) && later[n].source in After(next, later[..n]).s.creds
            && id in About(After(next, later[..n]).s, later[n].source, later[n].value)
  {
    hide Inv, Step, Enabled, Guarded, Selectable, ShowsUsedUp, Refutes, Remembers, About, Core, Planned;
    StartHasInv(files, issued);
    RunKeepsInv(Start(files, issued), before);
    var h := After(Start(files, issued), before);
    ShownIsEnabled(h, op, id, kind, reset, at);
    var next := Step(h, op);
    UsedUpIsHeld(h, op, id, kind, reset, at);
    StepKeepsInv(h, op);
    BlockHolds(next, later, id);
    n := EndRefutes(next, later, id, kind, reset, at);
  }

  lemma ShownIsEnabled(h: History, op: Op, id: string, kind: string, reset: Option<Time>, at: Time)
    requires ShowsUsedUp(h, op, id, kind, reset, at)
    ensures Enabled(h, op)
  {}
}
