/**
 Quota blocks over whole runs: observations, writes that may fail, watcher reads that may be
 stale, external edits, operator edits and host saves, in any order the locks allow.
 */
module QuotaRuns {
  import opened Common
  import opened QuotaBlocks
  import opened QuotaState

  /** The sample that ended a block, and the merged block it was held against. */
  datatype Evidence = Evidence(merged: Option<Block>, value: Usage, started: Time)

  /** `pending` are the writes of the observation in progress, which no other may overtake;
      `past` is everything that was ever in a credential's file. */
  datatype History = History(s: State, pending: seq<Member>, evidence: map<string, Evidence>, past: set<(string, Cred)>)

  datatype Op =
    | ErrorSeen(source: string, kind: string, reset: Option<Time>, now: Time)
    | UsageSeen(source: string, value: Usage, started: Time)
    | Query(id: string)
    | Answer(id: string, serial: nat, account: string)
    | WriteNext(io: Io)
    | Retry(ids: seq<string>)
    | Parse(id: string, content: Cred, resolved: bool)
    | External(id: string, content: Cred)
    | Operator(id: string, baseline: Cred, key: string, disabled: bool, route: Route)
    | HostSave(id: string)
    | Delete(id: string)

  /** What the blocked state amounts to, whatever the switch. */
  function CoreBlock(c: Cred): Option<Block> {
    if c.key != "" && c.block.Some? && c.block.value.key == c.key && c.block.value.limits != []
    then Some(c.block.value.(manual := None))
    else None
  }

  /** An external edit may change anything but may not pass off other quota state under a revision of the plugin's. */
  ghost predicate Honest(h: History, id: string, content: Cred) {
    content.rev.Issued? ==> content.rev.n < h.s.issued && exists c :: (id, c) in h.past && Agrees(c, content)
  }

  predicate Agrees(c: Cred, d: Cred) { c.key == d.key && c.rev == d.rev && CoreBlock(c) == CoreBlock(d) }

  ghost predicate Enabled(h: History, op: Op) {
    match op
    case ErrorSeen(source, _, _, _) => h.pending == [] && source in h.s.creds && source !in h.s.revoked
    case UsageSeen(source, v, _) =>
      h.pending == [] && source in h.s.creds && source !in h.s.revoked && v.ok && v.updatedAt.Some?
    case Query(id) => id in h.s.creds && id !in h.s.revoked
    case Answer(_, _, _) => true
    case WriteNext(_) => h.pending != []
    case Retry(ids) => h.pending == [] && forall k :: k in ids ==> k in h.s.creds && k in h.s.errors
    case Parse(id, content, resolved) =>
      if resolved then id in h.s.files && content == h.s.files[id] else (id, content) in h.past
    case External(id, content) => Honest(h, id, content)
    case Operator(_, _, key, _, _) => h.pending == [] && key != ""
    case HostSave(id) => id in h.s.creds
    case Delete(id) => h.pending == [] && id in h.s.creds
  }

  function Begin(h: History, s: State, g: seq<Member>): History {
    var (t, writes) := Publish(s, g);
    h.(s := t, pending := writes, evidence := map[])
  }

  ghost function Step(h: History, op: Op): History
    requires Enabled(h, op)
  {
    match op
    case ErrorSeen(source, kind, reset, now) => Begin(h, h.s, ErrorGroup(h.s, source, kind, reset, now))
    case UsageSeen(source, v, started) =>
      var s := Learned(h.s, source, v.account);
      Begin(h, s, UsageGroup(s, source, v, started)).(evidence := EvidenceFor(s, source, v, started))
    case Query(id) => h.(s := Queried(h.s, id))
    case Answer(id, serial, account) => h.(s := Answered(h.s, id, serial, account))
    case WriteNext(io) =>
      var m := h.pending[0];
      Noted(h.(s := PersistOne(h.s, m, io), pending := h.pending[1..]), m.id)
    case Retry(ids) => h.(pending := seq(|ids|, i requires 0 <= i < |ids| => RetryMember(h.s, ids[i])),
                          evidence := map[])
    case Parse(id, content, resolved) => h.(s := Parsed(h.s, id, content, resolved))
    case External(id, content) => Noted(h.(s := h.s.(files := h.s.files[id := content])), id)
    case Operator(id, was, key, disabled, route) => Noted(h.(s := Edit(h.s, id, was, key, disabled, route)), id)
    case HostSave(id) => Noted(h.(s := h.s.(files := h.s.files[id := Projected(h.s.creds[id])])), id)
    case Delete(id) =>
      h.(s := h.s.(creds := h.s.creds - {id}, files := h.s.files - {id}, cache := h.s.cache - {id},
                   revoked := h.s.revoked + {id}))
  }

  /** For each credential of the group, what the sample is held against. */
  function EvidenceFor(s: State, source: string, v: Usage, started: Time): map<string, Evidence>
    requires source in s.creds && v.updatedAt.Some?
  {
    var account := UsageAccount(s, source, v);
    var blocks := AllBlocks(Group(s, source, account), v, v.updatedAt.value);
    map id | id in GroupIds(s, source, account) && id in s.creds ::
      Evidence(Merge(Grouped(s.creds[id], account), blocks), v, started)
  }

  function RetryMember(s: State, id: string): Member {
    Member(id, if id in s.creds then Normalize(s.creds[id]) else Cred("", false, None, None, NoRev))
  }

  function Noted(h: History, id: string): History {
    if id in h.s.files then h.(past := h.past + {(id, h.s.files[id])}) else h
  }

  // ---------------------------------------------------------------- what every step keeps

  predicate RevBelow(rev: Rev, n: nat) { rev.Issued? ==> rev.n < n }

  /** Contents with a revision the plugin made agree with each other, and with memory where memory has that revision. */
  ghost predicate Inv(h: History) {
    && (forall id :: id in h.s.creds ==> h.s.creds[id].key != "" && RevBelow(h.s.creds[id].rev, h.s.issued))
    && (forall id, c :: (id, c) in h.past ==>
          RevBelow(c.rev, h.s.issued) && (id in h.s.creds ==> InLine(c, h.s.creds[id])))
    && (forall id, c, d :: (id, c) in h.past && (id, d) in h.past ==> InLine(c, d))
    && (forall id :: id in h.s.files ==> (id, h.s.files[id]) in h.past)
    && (forall m :: m in h.pending ==> Ready(m))
  }

  predicate InLine(c: Cred, d: Cred) {
    c.key == d.key && c.rev == d.rev && c.rev.Issued? ==> CoreBlock(c) == CoreBlock(d)
  }

  /** A block about to be written belongs to its credential's key. */
  predicate Ready(m: Member) { m.next.block.Some? ==> CoreBlock(m.next).Some? }

  /** Only a qualifying sample takes a block away. */
  predicate Earned(m: Member, evidence: map<string, Evidence>) {
    m.next.block.None? ==>
      m.id in evidence && Qualifies(evidence[m.id].merged, evidence[m.id].value, evidence[m.id].started)
  }

  /** Blocked, with no write under way that would end the block without a qualifying sample. */
  predicate Guarded(h: History, id: string) {
    && Blocked(h.s, id)
    && forall m :: m in h.pending && m.id == id ==> Earned(m, h.evidence)
  }

  predicate Blocked(s: State, id: string) { id in s.creds && CoreBlock(s.creds[id]).Some? }

  /** The step is a watcher read, for the credential's own key, of content without a block under the
      revision that memory has, or while memory has none. */
  ghost predicate ReadEnds(h: History, op: Op, id: string) {
    && Enabled(h, op) && op.Parse? && op.id == id && id in h.s.creds && op.content.key == h.s.creds[id].key
    && (id in h.s.revoked ==> op.resolved)
    && (h.s.creds[id].rev == NoRev || op.content.rev == h.s.creds[id].rev) && CoreBlock(op.content).None?
  }

  /** The step writes the end of the block to the file, on the evidence of a qualifying sample. */
  ghost predicate Clears(h: History, op: Op, id: string) {
    && Enabled(h, op) && op.WriteNext? && h.pending[0].id == id && h.pending[0].next.block.None?
    && Earned(h.pending[0], h.evidence)
    && var t := Step(h, op).s;
       id in t.files && id in t.creds && t.files[id].rev == t.creds[id].rev && CoreBlock(t.files[id]).None?
  }

  lemma GuardedIsUnselectable(h: History, id: string)
    requires Guarded(h, id)
    ensures !Selectable(h.s, id)
  {}

  // ---------------------------------------------------------------- the invariant

  lemma CoreIsStable(c: Cred)
    ensures CoreBlock(Normalize(c)) == CoreBlock(c) == CoreBlock(Read(c)) == CoreBlock(Projected(c))
    ensures Normalize(c).block.Some? <==> CoreBlock(c).Some?
    ensures Normalize(c).key == c.key == Read(c).key && Normalize(c).rev == c.rev == Read(c).rev
            && Projected(c).rev == c.rev
    ensures Projected(c).key == c.key && Normalize(c).disabled == c.disabled
  {}

  /** Everything about one credential that the invariant relates to past file contents. */
  ghost predicate InLineWithPast(past: set<(string, Cred)>, id: string, c: Cred, issued: nat) {
    RevBelow(c.rev, issued) && forall d :: (id, d) in past ==> InLine(d, c)
  }

  lemma FreshIsInLine(h: History, id: string, c: Cred)
    requires Inv(h) && c.rev == Issued(h.s.issued)
    ensures InLineWithPast(h.past, id, c, h.s.issued + 1)
  {}

  /** Writing a file keeps the invariant if the content is in line with memory and past. */
  lemma WriteKeepsInv(h: History, t: State, id: string, pending: seq<Member>)
    requires Inv(h) && t.issued >= h.s.issued && (forall m :: m in pending ==> Ready(m))
    requires id in t.files && t.files.Keys <= h.s.files.Keys + {id}
             && (forall k :: k in t.files && k != id ==> t.files[k] == h.s.files[k])
    requires t.creds.Keys == h.s.creds.Keys && (forall k :: k in t.creds && k != id ==> t.creds[k] == h.s.creds[k])
    requires InLineWithPast(h.past, id, t.files[id], t.issued)
    requires id in t.creds ==>
               t.creds[id].key != "" && InLine(t.files[id], t.creds[id])
                 && InLineWithPast(h.past, id, t.creds[id], t.issued)
    ensures Inv(Noted(h.(s := t, pending := pending), id))
  {
    hide CoreBlock, Ready;
  }

  /** Changing one credential in memory keeps the invariant if it is in line with the past. */
  lemma ChangeKeepsInv(h: History, t: State, id: string, pending: seq<Member>)
    requires Inv(h) && t.issued >= h.s.issued && (forall m :: m in pending ==> Ready(m)) && t.files == h.s.files
    requires t.creds.Keys <= h.s.creds.Keys + {id}
             && (forall k :: k in t.creds && k != id ==> t.creds[k] == h.s.creds[k])
    requires id in t.creds ==> t.creds[id].key != "" && InLineWithPast(h.past, id, t.creds[id], t.issued)
    ensures Inv(h.(s := t, pending := pending))
  {
    hide CoreBlock, Ready;
  }

  lemma SameQuotaIsInLine(h: History, id: string, c: Cred)
    requires Inv(h) && id in h.s.creds && c.key == h.s.creds[id].key && c.rev == h.s.creds[id].rev
    requires CoreBlock(c) == CoreBlock(h.s.creds[id])
    ensures InLineWithPast(h.past, id, c, h.s.issued)
  {
    hide CoreBlock;
  }

  lemma PastIsInLine(h: History, id: string, content: Cred, c: Cred)
    requires Inv(h) && (id, content) in h.past && c.key == content.key && c.rev == content.rev
             && CoreBlock(c) == CoreBlock(content)
    ensures InLineWithPast(h.past, id, c, h.s.issued)
  {
    hide CoreBlock;
  }

  lemma ParseKeepsInv(h: History, id: string, content: Cred, resolved: bool)
    requires Inv(h) && Enabled(h, Parse(id, content, resolved))
    ensures Inv(Step(h, Parse(id, content, resolved)))
  {
    hide CoreBlock, Normalize, Read;
    var t := Parsed(h.s, id, content, resolved);
    if t != h.s {
      assert (id, content) in h.past;
      ParsedFrom(h.s, id, content, resolved);
      var c := t.creds[id];
      if c.rev == content.rev && CoreBlock(c) == CoreBlock(content) {
        PastIsInLine(h, id, content, c);
      } else {
        SameQuotaIsInLine(h, id, c);
      }
      hide Parsed;
      ChangeKeepsInv(h, t, id, h.pending);
    }
  }

  /** What a read that is not ignored puts into memory. */
  lemma ParsedFrom(s: State, id: string, content: Cred, resolved: bool)
    requires Parsed(s, id, content, resolved) != s
    ensures var t := Parsed(s, id, content, resolved);
            var kept := id in s.creds && s.creds[id].key == content.key && s.creds[id].rev != NoRev
              && s.creds[id].rev != content.rev;
            && t.files == s.files && t.issued == s.issued && t.creds.Keys == s.creds.Keys + {id} && content.key != ""
            && (forall k :: k in s.creds && k != id ==> t.creds[k] == s.creds[k])
            && t.creds[id].key == content.key && t.creds[id].disabled == Read(content).disabled
            && t.creds[id].rev == (if kept then s.creds[id].rev else content.rev)
            && CoreBlock(t.creds[id]) == if kept then CoreBlock(s.creds[id]) else CoreBlock(content)
  {
    CoreIsStable(content);
    CoreIsStable(Read(content));
  }

  lemma EditedCore(cur: Cred, key: string, disabled: bool)
    ensures var c := Edited(cur, key, disabled);
            c.key == key && (key == cur.key ==> c.rev == cur.rev && CoreBlock(c) == CoreBlock(cur))
              && (key != cur.key ==> c.rev == NoRev)
  {}

  lemma OperatorKeepsInv(h: History, id: string, was: Cred, key: string, disabled: bool, route: Route)
    requires Inv(h) && Enabled(h, Operator(id, was, key, disabled, route))
    ensures Inv(Step(h, Operator(id, was, key, disabled, route)))
  {
    var t := Edit(h.s, id, was, key, disabled, route);
    EditedCore(was, key, disabled);
    hide Edited, CoreBlock;
    if EditLands(h.s, id, was, route) {
      if key == was.key { SameQuotaIsInLine(h, id, t.creds[id]); }
      WriteKeepsInv(h, t, id, h.pending);
    } else if id in h.s.files {
      assert h.past + {(id, h.s.files[id])} == h.past;
    }
  }

  lemma HostSaveKeepsInv(h: History, id: string)
    requires Inv(h) && id in h.s.creds
    ensures Inv(Step(h, HostSave(id)))
  {
    CoreIsStable(h.s.creds[id]);
    hide CoreBlock, Projected;
    SameQuotaIsInLine(h, id, Projected(h.s.creds[id]));
    SameQuotaIsInLine(h, id, h.s.creds[id]);
    WriteKeepsInv(h, Step(h, HostSave(id)).s, id, h.pending);
  }

  lemma ExternalKeepsInv(h: History, id: string, content: Cred)
    requires Inv(h) && Honest(h, id, content)
    ensures Inv(Step(h, External(id, content)))
  {
    hide CoreBlock;
    var t := Step(h, External(id, content)).s;
    if content.rev.Issued? {
      var c :| (id, c) in h.past && Agrees(c, content);
      PastIsInLine(h, id, c, content);
    }
    if id in h.s.creds { SameQuotaIsInLine(h, id, h.s.creds[id]); }
    WriteKeepsInv(h, t, id, h.pending);
  }

  lemma PendingCore(cur: Cred, next: Cred, rev: Rev, file: Cred)
    requires cur.key == next.key == file.key
    ensures var n := Pending(cur, next, rev);
            && n.rev == rev && n.key == cur.key && n.disabled == cur.disabled
            && CoreBlock(n) == CoreBlock(next) && (n.block.Some? <==> CoreBlock(next).Some?)
            && CoreBlock(Rewritten(file, n)) == CoreBlock(next)
            && CoreBlock(cur.(block := n.block, identity := n.identity, rev := n.rev)) == CoreBlock(next)
            && Rewritten(file, n).key == cur.key && Rewritten(file, n).rev == rev
  {}

  lemma WriteNextKeepsInv(h: History, io: Io)
    requires Inv(h) && h.pending != []
    ensures Inv(Step(h, WriteNext(io)))
  {
    var m, rest := h.pending[0], h.pending[1..];
    var t := PersistOne(h.s, m, io);
    if !Current(h.s, m) {
      if m.id in h.s.files { assert h.past + {(m.id, h.s.files[m.id])} == h.past; }
    } else {
      var cur := h.s.creds[m.id];
      FreshIsInLine(h, m.id, t.creds[m.id]);
      if FileAgrees(h.s, m.id, cur) && io.matches && io.written {
        PendingCore(cur, m.next, Issued(h.s.issued), h.s.files[m.id]);
        FreshIsInLine(h, m.id, t.files[m.id]);
        hide CoreBlock, Pending, Rewritten;
        WriteKeepsInv(h, t, m.id, rest);
      } else {
        hide CoreBlock, Pending, Rewritten;
        ChangeKeepsInv(h, t, m.id, rest);
        if m.id in h.s.files { assert h.past + {(m.id, h.s.files[m.id])} == h.past; }
      }
    }
  }

  lemma {:induction false} PublishKeepsInv(h: History, g: seq<Member>)
    requires Inv(h.(pending := [])) && forall m :: m in g ==> Ready(m)
    ensures var (t, writes) := Publish(h.s, g);
            Inv(h.(s := t, pending := writes)) && t.files == h.s.files && t.errors == h.s.errors
    ensures forall m :: m in Publish(h.s, g).1 ==> m in g
  {
    hide CoreBlock, Ready, Inv;
    if g != [] {
      var n := |g| - 1;
      PublishKeepsInv(h, g[..n]);
      var (before, writes) := Publish(h.s, g[..n]);
      var mid := h.(s := before, pending := writes);
      var t := PublishOne(before, g[n]);
      var after := if Writes(before, g[n]) then writes + [g[n]] else writes;
      PendingReady(mid);
      if t != before {
        FreshIsInLine(mid, g[n].id, t.creds[g[n].id]);
        ChangeKeepsInv(mid, t, g[n].id, after);
      } else {
        OnlyPending(mid, after);
      }
    }
  }

  lemma PendingReady(h: History)
    requires Inv(h)
    ensures forall m :: m in h.pending ==> Ready(m)
    ensures forall id :: id in h.s.creds ==> h.s.creds[id].key != ""
  {}

  lemma OnlyPending(h: History, pending: seq<Member>)
    requires Inv(h) && forall m :: m in pending ==> Ready(m)
    ensures Inv(h.(pending := pending))
  {}

  lemma MergeIsReady(c: Cred, blocks: seq<Option<Block>>)
    requires Merge(c, blocks).Some? && c.key != "" && exists b :: Some(b) in blocks && b.limits != []
    ensures CoreBlock(c.(block := Merge(c, blocks))).Some?
  {
    var j := Joined(blocks).value;
    JoinedBounds(blocks);
    var b :| Some(b) in blocks && b.limits != [];
    assert Names(b, b.limits[0].kind, b.limits[0].reset);
    assert Among(blocks)(b);
    ListedNames(j.limits, b.limits[0].kind, j.limits[b.limits[0].kind]);
    assert Listed(j.limits) != [];
  }

  lemma GroupIsKeyed(h: History, s: State, source: string, account: string)
    requires Inv(h) && s.creds == h.s.creds
    ensures forall m :: m in Group(s, source, account) ==>
              m.id in s.creds && m.next == Grouped(s.creds[m.id], account) && m.next.key == s.creds[m.id].key != ""
  {}

  /** Every write an observation plans is ready. */
  lemma ErrorIsReady(h: History, source: string, kind: string, reset: Option<Time>, now: Time)
    requires Inv(h) && source in h.s.creds
    ensures forall m :: m in ErrorGroup(h.s, source, kind, reset, now) ==> m.next.block.Some? && Ready(m)
  {
    hide Merge, CoreBlock, Grouped, AccountOf;
    var account := AccountOf(h.s, source, h.s.creds[source]);
    GroupIsKeyed(h, h.s, source, account);
    var group, g := Group(h.s, source, account), ErrorGroup(h.s, source, kind, reset, now);
    var seen := Observed("error", now, [Limit(if kind == "" then "quota" else kind, reset)]);
    forall m | m in g ensures m.next.block.Some? && Ready(m) {
      var i :| 0 <= i < |g| && g[i] == m;
      var blocks := [group[i].next.block, Some(seen)];
      assert Some(seen) in blocks;
      MergeIsSome(group[i].next, blocks, seen);
      MergeIsReady(group[i].next, blocks);
    }
  }

  lemma MergeIsSome(c: Cred, blocks: seq<Option<Block>>, b: Block)
    requires Some(b) in blocks
    ensures Merge(c, blocks).Some?
  {
    JoinedBounds(blocks);
  }

  lemma MergeHasSource(c: Cred, blocks: seq<Option<Block>>)
    requires Merge(c, blocks).Some?
    ensures exists b :: Some(b) in blocks
  {
    JoinedBounds(blocks);
  }

  lemma BlocksHaveLimits(s: State, source: string, account: string, v: Usage, at: Time)
    ensures forall b :: Some(b) in AllBlocks(Group(s, source, account), v, at) ==> b.limits != []
  {
    var group := Group(s, source, account);
    forall b | Some(b) in Blocks(group) ensures b.limits != [] {
      var i :| 0 <= i < |group| && group[i].next.block == Some(b);
    }
  }

  lemma UsageIsReady(h: History, source: string, v: Usage, started: Time)
    requires Inv(h) && source in h.s.creds && v.updatedAt.Some?
    ensures forall m :: m in UsageGroup(Learned(h.s, source, v.account), source, v, started) ==> Ready(m)
  {
    hide Merge, CoreBlock, Grouped, AccountOf, UsageAccount, Qualifies, Exhausted;
    var s := Learned(h.s, source, v.account);
    var account := UsageAccount(s, source, v);
    GroupIsKeyed(h, s, source, account);
    var group, g := Group(s, source, account), UsageGroup(s, source, v, started);
    var blocks := AllBlocks(group, v, v.updatedAt.value);
    BlocksHaveLimits(s, source, account, v, v.updatedAt.value);
    hide AllBlocks;
    forall m | m in g ensures Ready(m) {
      var i :| 0 <= i < |g| && g[i] == m;
      if m.next.block.Some? {
        MergeHasSource(group[i].next, blocks);
        MergeIsReady(group[i].next, blocks);
      }
    }
  }

  lemma BeginKeepsInv(h: History, s: State, g: seq<Member>)
    requires Inv(h) && s.creds == h.s.creds && s.files == h.s.files && s.issued == h.s.issued && h.pending == []
    requires forall m :: m in g ==> Ready(m)
    ensures Inv(Begin(h, s, g))
  {
    var k := h.(s := s);
    hide CoreBlock, Ready;
    assert Inv(k.(pending := []));
    PublishKeepsInv(k, g);
  }

  lemma EvidenceIsNoMatter(h: History, evidence: map<string, Evidence>)
    requires Inv(h)
    ensures Inv(h.(evidence := evidence))
  {}

  lemma RetryKeepsInv(h: History, ids: seq<string>)
    requires Inv(h) && Enabled(h, Retry(ids))
    ensures Inv(Step(h, Retry(ids)))
  {
    var next := Step(h, Retry(ids));
    forall m | m in next.pending ensures Ready(m) {
      var i :| 0 <= i < |ids| && next.pending[i] == m;
      CoreIsStable(h.s.creds[ids[i]]);
    }
    OnlyPending(h, next.pending);
    EvidenceIsNoMatter(h.(pending := next.pending), map[]);
  }

  lemma DeleteKeepsInv(h: History, id: string)
    requires Inv(h) && Enabled(h, Delete(id))
    ensures Inv(Step(h, Delete(id)))
  {
    hide CoreBlock, Ready;
  }

  lemma QueryKeepsInv(h: History, op: Op)
    requires Inv(h) && Enabled(h, op) && (op.Query? || op.Answer?)
    ensures Inv(Step(h, op))
  {
    hide CoreBlock, Ready;
  }

  lemma StepKeepsInv(h: History, op: Op)
    requires Inv(h) && Enabled(h, op)
    ensures Inv(Step(h, op))
  {
    hide Inv, CoreBlock, Ready;
    match op
    case ErrorSeen(source, kind, reset, now) =>
      ErrorIsReady(h, source, kind, reset, now);
      BeginKeepsInv(h, h.s, ErrorGroup(h.s, source, kind, reset, now));
    case UsageSeen(source, v, started) =>
      var s := Learned(h.s, source, v.account);
      UsageIsReady(h, source, v, started);
      BeginKeepsInv(h, s, UsageGroup(s, source, v, started));
      EvidenceIsNoMatter(Begin(h, s, UsageGroup(s, source, v, started)), Step(h, op).evidence);
    case Query(_) => QueryKeepsInv(h, op);
    case Answer(_, _, _) => QueryKeepsInv(h, op);
    case WriteNext(io) => WriteNextKeepsInv(h, io);
    case Retry(ids) => RetryKeepsInv(h, ids);
    case Parse(id, content, resolved) => ParseKeepsInv(h, id, content, resolved);
    case External(id, content) => ExternalKeepsInv(h, id, content);
    case Operator(id, was, key, disabled, route) => OperatorKeepsInv(h, id, was, key, disabled, route);
    case HostSave(id) => HostSaveKeepsInv(h, id);
    case Delete(id) => DeleteKeepsInv(h, id);
  }

  // ---------------------------------------------------------------- blocks hold

  /** Publishing blocks can only add blocks; what it names as blocked is blocked. */
  lemma {:induction false} PublishBlocks(s: State, g: seq<Member>)
    requires forall m :: m in g ==> Ready(m)
    ensures var t := Publish(s, g).0;
            && t.creds.Keys == s.creds.Keys
            && (forall id :: id in s.creds ==> t.creds[id].key == s.creds[id].key)
            && (forall id :: id in s.creds && CoreBlock(s.creds[id]).Some? ==> CoreBlock(t.creds[id]).Some?)
            && (forall id :: id in s.creds ==>
                  t.creds[id] == s.creds[id] || (Blocked(t, id) && t.creds[id].rev.Issued?))
            && (forall m :: m in g && Current(s, m) && m.next.block.Some? ==> CoreBlock(t.creds[m.id]).Some?)
    ensures forall m :: m in Publish(s, g).1 ==> m in g
  {
    hide CoreBlock, PublishOne, Ready;
    if g != [] {
      var n := |g| - 1;
      assert g == g[..n] + [g[n]];
      PublishBlocks(s, g[..n]);
      PublishOneBlocks(Publish(s, g[..n]).0, g[n]);
    }
  }

  lemma PublishOneBlocks(s: State, m: Member)
    requires Ready(m)
    ensures var t := PublishOne(s, m);
            && t.creds.Keys == s.creds.Keys
            && (forall id :: id in s.creds ==> t.creds[id].key == s.creds[id].key)
            && (forall id :: id in s.creds && id != m.id ==> t.creds[id] == s.creds[id])
            && (t != s ==> Blocked(t, m.id) && t.creds[m.id].rev.Issued?)
            && (t == s && Current(s, m) && m.next.block.Some? ==> CoreBlock(s.creds[m.id]).Some?)
  {}

  lemma BeginGuards(h: History, s: State, g: seq<Member>, evidence: map<string, Evidence>, id: string)
    requires (forall m :: m in g ==> Ready(m)) && s.creds == h.s.creds && Blocked(h.s, id)
    requires forall m :: m in g && m.id == id ==> Earned(m, evidence)
    ensures Guarded(Begin(h, s, g).(evidence := evidence), id)
  {
    hide CoreBlock, Ready, Earned;
    PublishBlocks(s, g);
  }

  lemma ErrorGuards(h: History, source: string, kind: string, reset: Option<Time>, now: Time, id: string)
    requires Inv(h) && Enabled(h, ErrorSeen(source, kind, reset, now)) && Blocked(h.s, id)
    ensures Guarded(Step(h, ErrorSeen(source, kind, reset, now)), id)
  {
    ErrorIsReady(h, source, kind, reset, now);
    hide CoreBlock, Ready, Inv;
    BeginGuards(h, h.s, ErrorGroup(h.s, source, kind, reset, now), map[], id);
  }

  /** A credential that is blocked takes part with its block, so that only a qualifying sample ends it. */
  lemma UsageIsEarned(h: History, source: string, v: Usage, started: Time, id: string)
    requires Inv(h) && Enabled(h, UsageSeen(source, v, started)) && Blocked(h.s, id)
    ensures var evidence := Step(h, UsageSeen(source, v, started)).evidence;
            forall m :: m in UsageGroup(Learned(h.s, source, v.account), source, v, started) && m.id == id ==>
              Earned(m, evidence)
  {
    hide Merge, Qualifies, Exhausted, AccountOf, UsageAccount, Begin, Inv, CoreBlock, Normalize;
    var s := Learned(h.s, source, v.account);
    var group, g := Group(s, source, UsageAccount(s, source, v)), UsageGroup(s, source, v, started);
    var blocks := AllBlocks(group, v, v.updatedAt.value);
    var evidence := EvidenceFor(s, source, v, started);
    forall m | m in g && m.id == id ensures Earned(m, evidence) {
      var i :| 0 <= i < |g| && g[i] == m;
      assert group[i] in group && group[i].id == id
             && group[i].next == Grouped(s.creds[id], UsageAccount(s, source, v));
      CoreIsStable(s.creds[id]);
      assert Blocks(group)[i].Some?;
      MergeIsSome(group[i].next, blocks, Blocks(group)[i].value);
      assert evidence[id] == Evidence(Merge(group[i].next, blocks), v, started);
    }
  }

  lemma UsageGuards(h: History, source: string, v: Usage, started: Time, id: string)
    requires Inv(h) && Enabled(h, UsageSeen(source, v, started)) && Blocked(h.s, id)
    ensures Guarded(Step(h, UsageSeen(source, v, started)), id)
  {
    UsageIsReady(h, source, v, started);
    UsageIsEarned(h, source, v, started, id);
    hide CoreBlock, Ready, Inv, Earned;
    var s := Learned(h.s, source, v.account);
    BeginGuards(h, s, UsageGroup(s, source, v, started), Step(h, UsageSeen(source, v, started)).evidence, id);
  }

  lemma WriteNextGuards(h: History, io: Io, id: string)
    requires Inv(h) && h.pending != [] && Guarded(h, id)
    ensures Guarded(Step(h, WriteNext(io)), id) || Clears(h, WriteNext(io), id)
  {
    var m := h.pending[0];
    assert m in h.pending && Ready(m);
    hide CoreBlock, Inv, Pending, Rewritten, Normalize, Read;
    NoneIsNone(m.next);
    if m.id == id && Current(h.s, m) { PersistCore(h.s, m, io); }
  }

  /** What a write makes of the block in memory, and of the file if it lands. */
  lemma PersistCore(s: State, m: Member, io: Io)
    requires Current(s, m)
    ensures var t, lands := PersistOne(s, m, io), FileAgrees(s, m.id, s.creds[m.id]) && io.matches && io.written;
            && m.id in t.creds && t.creds[m.id].key == s.creds[m.id].key && t.creds[m.id].rev == Issued(s.issued)
            && t.creds[m.id].disabled == s.creds[m.id].disabled
            && CoreBlock(t.creds[m.id]) ==
               (if lands || CoreBlock(m.next).Some? then CoreBlock(m.next) else CoreBlock(s.creds[m.id]))
            && (lands ==>
                  && m.id in t.files && t.files[m.id].key == s.creds[m.id].key && t.files[m.id].rev == Issued(s.issued)
                  && CoreBlock(t.files[m.id]) == CoreBlock(m.next)
                  && Read(t.files[m.id]).disabled == s.creds[m.id].disabled)
  {
    var cur := s.creds[m.id];
    PendingCore(cur, m.next, Issued(s.issued), if FileAgrees(s, m.id, cur) then s.files[m.id] else cur);
    RewrittenReads(cur, m.next, Issued(s.issued), if FileAgrees(s, m.id, cur) then s.files[m.id] else cur);
    assert CoreBlock(cur.(rev := Issued(s.issued))) == CoreBlock(cur);
    hide CoreBlock, Pending, Rewritten, Normalize;
  }

  lemma RewrittenReads(cur: Cred, next: Cred, rev: Rev, file: Cred)
    ensures Read(Rewritten(file, Pending(cur, next, rev))).disabled == cur.disabled
  {}

  /** A read for a known key leaves memory's quota state, or puts the content's in its place. */
  lemma ParsedCore(s: State, id: string, content: Cred, resolved: bool)
    requires id in s.creds && s.creds[id].key == content.key != ""
    ensures var t, ignored := Parsed(s, id, content, resolved), id in s.revoked && !resolved;
            var kept := s.creds[id].rev != NoRev && s.creds[id].rev != content.rev;
            && id in t.creds && t.creds[id].key == content.key
            && t.creds[id].rev == (if ignored || kept then s.creds[id].rev else content.rev)
            && CoreBlock(t.creds[id]) == if ignored || kept then CoreBlock(s.creds[id]) else CoreBlock(content)
  {
    CoreIsStable(content);
    CoreIsStable(Read(content));
  }

  /** Exactly which watcher reads end a block that memory has for the same key. */
  lemma ReadEndsBlockIff(h: History, content: Cred, resolved: bool, id: string)
    requires Inv(h) && Enabled(h, Parse(id, content, resolved)) && Blocked(h.s, id)
    ensures var t := Parsed(h.s, id, content, resolved);
            id in t.creds && t.creds[id].key == h.s.creds[id].key && CoreBlock(t.creds[id]).None?
            <==> ReadEnds(h, Parse(id, content, resolved), id)
  {
    if content.key == h.s.creds[id].key {
      ParsedCore(h.s, id, content, resolved);
      hide Parsed, CoreBlock, Inv;
    } else {
      CoreIsStable(Read(content));
      hide CoreBlock, Inv;
    }
  }

  /** Under a revision the plugin made, none does. */
  lemma IssuedOutlastsReads(h: History, op: Op, id: string)
    requires Inv(h) && Blocked(h.s, id) && h.s.creds[id].rev.Issued?
    ensures !ReadEnds(h, op, id)
  {
    hide CoreBlock;
    if Enabled(h, op) && op.Parse? && op.id == id {
      assert (id, op.content) in h.past;
      assert InLine(op.content, h.s.creds[id]);
    }
  }

  lemma ParseGuards(h: History, k: string, content: Cred, resolved: bool, id: string)
    requires Inv(h) && Enabled(h, Parse(k, content, resolved)) && Guarded(h, id)
    requires var t := Parsed(h.s, k, content, resolved); id in t.creds && t.creds[id].key == h.s.creds[id].key
    ensures Guarded(Step(h, Parse(k, content, resolved)), id) || ReadEnds(h, Parse(k, content, resolved), id)
  {
    hide Earned, CoreBlock, Inv;
    if k == id { ReadEndsBlockIff(h, content, resolved, id); }
  }

  lemma RetryGuards(h: History, ids: seq<string>, id: string)
    requires Enabled(h, Retry(ids)) && Guarded(h, id)
    ensures Guarded(Step(h, Retry(ids)), id)
  {
    CoreIsStable(h.s.creds[id]);
    hide CoreBlock, Normalize;
    var next := Step(h, Retry(ids));
    forall m | m in next.pending && m.id == id ensures Earned(m, next.evidence) {
      var i :| 0 <= i < |ids| && next.pending[i] == m;
    }
  }

  /** One step: a guarded block holds, unless the credential is removed or gets another key, or
      the step writes the end of the block on a qualifying sample, or reads content without one
      under memory's own revision. */
  lemma StepGuards(h: History, op: Op, id: string)
    requires Inv(h) && Enabled(h, op) && Guarded(h, id)
    requires var t := Step(h, op).s; id in t.creds && t.creds[id].key == h.s.creds[id].key
    ensures Guarded(Step(h, op), id) || Clears(h, op, id) || ReadEnds(h, op, id)
  {
    hide Inv, CoreBlock, Earned, Clears;
    match op
    case ErrorSeen(source, kind, reset, now) => ErrorGuards(h, source, kind, reset, now, id);
    case UsageSeen(source, v, started) => UsageGuards(h, source, v, started, id);
    case Query(_) =>
    case Answer(_, _, _) =>
    case WriteNext(io) => WriteNextGuards(h, io, id);
    case Retry(ids) => RetryGuards(h, ids, id);
    case Parse(k, content, resolved) =>
      ParseGuards(h, k, content, resolved, id);
      hide ReadEnds;
    case External(_, _) =>
    case Operator(_, was, key, disabled, _) => EditedCore(was, key, disabled);
    case HostSave(_) =>
    case Delete(_) =>
  }

  lemma WriteKeepsIssued(h: History, io: Io, id: string)
    requires h.pending != [] && id in h.s.creds && h.s.creds[id].rev.Issued?
    ensures id in PersistOne(h.s, h.pending[0], io).creds && PersistOne(h.s, h.pending[0], io).creds[id].rev.Issued?
  {
    var m := h.pending[0];
    hide CoreBlock, Read;
    if m.id == id && Current(h.s, m) {
      PersistCore(h.s, m, io);
      hide PersistOne;
    } else {
      hide Pending, Rewritten;
    }
  }

  lemma ReadKeepsIssued(h: History, k: string, content: Cred, resolved: bool, id: string)
    requires id in h.s.creds && h.s.creds[id].rev.Issued?
    requires var t := Parsed(h.s, k, content, resolved); id in t.creds && t.creds[id].key == h.s.creds[id].key
    ensures Parsed(h.s, k, content, resolved).creds[id].rev.Issued?
  {
    if Parsed(h.s, k, content, resolved) != h.s {
      ParsedFrom(h.s, k, content, resolved);
      hide Parsed;
    }
  }

  /** A block under a revision of the plugin's stays under one as long as it holds. */
  lemma StepKeepsIssued(h: History, op: Op, id: string)
    requires Inv(h) && Enabled(h, op) && Blocked(h.s, id) && h.s.creds[id].rev.Issued?
    requires var t := Step(h, op).s; id in t.creds && t.creds[id].key == h.s.creds[id].key
    ensures Step(h, op).s.creds[id].rev.Issued?
  {
    hide CoreBlock, Merge, Normalize, Read, Parsed, PersistOne, Publish, Edited, Projected;
    match op
    case ErrorSeen(source, kind, reset, now) =>
      ErrorIsReady(h, source, kind, reset, now);
      hide Inv;
      PublishBlocks(h.s, ErrorGroup(h.s, source, kind, reset, now));
    case UsageSeen(source, v, started) =>
      UsageIsReady(h, source, v, started);
      hide Inv;
      var s := Learned(h.s, source, v.account);
      PublishBlocks(s, UsageGroup(s, source, v, started));
    case Query(_) =>
    case Answer(_, _, _) =>
    case WriteNext(io) => WriteKeepsIssued(h, io, id);
    case Retry(_) =>
    case Parse(k, content, resolved) => ReadKeepsIssued(h, k, content, resolved, id);
    case External(_, _) =>
    case Operator(_, was, key, disabled, _) =>
      EditedCore(was, key, disabled);
      hide Inv, Edited, Read;
    case HostSave(_) =>
    case Delete(_) =>
  }

  /** Exactly which writes end a block: those of a planned end, for the same key, that reach an
      agreeing file. Being guarded is what rules out the ones planned without a sample. */
  lemma WriteEndsBlockIff(h: History, io: Io, id: string)
    requires Inv(h) && h.pending != [] && Blocked(h.s, id)
    ensures var m, t := h.pending[0], Step(h, WriteNext(io)).s;
            CoreBlock(t.creds[id]).None? <==>
              m.id == id && Current(h.s, m) && m.next.block.None? && FileAgrees(h.s, id, h.s.creds[id]) && io.matches
                && io.written
  {
    var m := h.pending[0];
    assert m in h.pending && Ready(m);
    hide CoreBlock, Inv, Pending, Rewritten, Normalize, Read;
    if m.id == id && Current(h.s, m) { PersistCore(h.s, m, io); }
    assert m.next.block.None? ==> CoreBlock(m.next).None? by { NoneIsNone(m.next); }
  }

  lemma NoneIsNone(c: Cred)
    ensures c.block.None? ==> CoreBlock(c).None?
  {}

  /** A sample that qualifies against a merged block qualifies against each block in it. */
  lemma QualifiesForEach(c: Cred, blocks: seq<Option<Block>>, b: Block, v: Usage, started: Time)
    requires Some(b) in blocks && Qualifies(Merge(c, blocks), v, started)
    ensures Qualifies(Some(b), v, started)
  {
    hide Joined, Reported, Canonical;
    var m := Merge(c, blocks).value;
    MergeCovers(c, blocks, b);
    forall l | l in b.limits ensures (l.reset.Some? ==> started >= l.reset.value) && Reported(l.kind, v.limits) {
      var t :| Limit(l.kind, t) in m.limits && NotAfter(l.reset, t);
    }
  }

  /** A merged block names every limit of its parts, with no earlier reset. */
  lemma MergeCovers(c: Cred, blocks: seq<Option<Block>>, b: Block)
    requires Some(b) in blocks
    ensures Merge(c, blocks).Some? && b.observedAt <= Merge(c, blocks).value.observedAt
    ensures forall l :: l in b.limits ==>
              exists t :: Limit(l.kind, t) in Merge(c, blocks).value.limits && NotAfter(l.reset, t)
  {
    hide Joined;
    JoinedBounds(blocks);
    var j := Joined(blocks).value;
    assert Among(blocks)(b);
    forall l | l in b.limits
      ensures exists t :: Limit(l.kind, t) in Merge(c, blocks).value.limits && NotAfter(l.reset, t) {
      assert Names(b, l.kind, l.reset);
      ListedNames(j.limits, l.kind, j.limits[l.kind]);
    }
  }
}
