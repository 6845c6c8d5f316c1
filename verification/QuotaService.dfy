/** Quota handling as the service does it: memory and files updated in place, under its locks. */
module QuotaService {
  import opened Common
  import opened QuotaBlocks
  import opened QuotaState

  method MergeLimits(known: map<string, Option<Time>>, ls: seq<Limit>) returns (limits: map<string, Option<Time>>)
    ensures limits == AddLimits(known, ls)
  {
    limits := known;
    for n := 0 to |ls|
      invariant limits == AddLimits(known, ls[..n])
    {
      assert ls[..n + 1][..n] == ls[..n];
      var l := ls[n];
      if l.kind !in limits || limits[l.kind].None? || (l.reset.Some? && l.reset.value > limits[l.kind].value) {
        limits := limits[l.kind := l.reset];
      }
    }
    assert ls[..|ls|] == ls;
  }

  method LatestReset(ls: seq<Limit>) returns (retryAt: Option<Time>)
    ensures retryAt == RetryOf(ls)
  {
    retryAt := None;
    for n := 0 to |ls|
      invariant retryAt == RetryOf(ls[..n])
    {
      assert ls[..n + 1][..n] == ls[..n];
      if ls[n].reset.Some? && (retryAt.None? || ls[n].reset.value > retryAt.value) {
        retryAt := ls[n].reset;
      }
    }
    assert ls[..|ls|] == ls;
  }

  method MergeQuotaBlocks(c: Cred, blocks: seq<Option<Block>>) returns (r: Option<Block>)
    ensures r == Merge(c, blocks)
  {
    hide AddLimits, Listed, RetryOf;
    var join: Option<Join> := None;
    for n := 0 to |blocks|
      invariant join == Joined(blocks[..n])
    {
      assert blocks[..n + 1][..n] == blocks[..n];
      if blocks[n].None? { continue; }
      var b := blocks[n].value;
      var j := if join.None? then Join(b, b.blockedAt, b.observedAt, b.source, map[]) else join.value;
      if b.blockedAt < j.blockedAt {
        j := j.(blockedAt := b.blockedAt);
      }
      if b.observedAt > j.observedAt {
        j := j.(observedAt := b.observedAt, source := b.source);
      }
      var limits := MergeLimits(j.limits, b.limits);
      join := Some(j.(limits := limits));
    }
    assert blocks[..|blocks|] == blocks;
    if join.None? { return None; }
    var ls := Listed(join.value.limits);
    var retryAt := LatestReset(ls);
    var account := if c.identity.Some? then c.identity.value.account else join.value.first.account;
    return Some(Block(account, c.key, Some(c.disabled), join.value.source, "quota_exhausted", retryAt,
                      join.value.blockedAt, join.value.observedAt, ls));
  }

  /** Kinds a sample reports, unless one of them is unknown or used up. */
  method KnownRoom(ls: seq<UsageLimit>) returns (room: bool, known: set<string>)
    ensures room == forall l :: l in ls && Canonical(l.kind) != "" ==> l.percent.Some? && 0.0 <= l.percent.value < 100.0
    ensures room ==> forall k :: k in known <==> k != "" && exists l :: l in ls && Canonical(l.kind) == k
  {
    hide Canonical;
    known := {};
    for n := 0 to |ls|
      invariant forall l :: l in ls[..n] && Canonical(l.kind) != "" ==>
                  l.percent.Some? && 0.0 <= l.percent.value < 100.0
      invariant forall k :: k in known <==> k != "" && exists l :: l in ls[..n] && Canonical(l.kind) == k
    {
      assert ls[..n + 1] == ls[..n] + [ls[n]];
      var kind := Canonical(ls[n].kind);
      if kind != "" {
        assert ls[n] in ls;
        if ls[n].percent.None? || ls[n].percent.value < 0.0 { return false, known; }
        known := known + {kind};
        if ls[n].percent.value >= 100.0 { return false, known; }
      }
    }
    assert ls[..|ls|] == ls;
    room := true;
  }

  method QuotaUsageHasRoom(block: Option<Block>, v: Usage, started: Time) returns (room: bool)
    ensures room == Qualifies(block, v, started)
  {
    hide Canonical;
    if block.None? || !v.ok || v.planError || v.updatedAt.None? || started <= block.value.observedAt { return false; }
    var known;
    room, known := KnownRoom(v.limits);
    if !room { return false; }
    var limits := block.value.limits;
    for n := 0 to |limits|
      invariant forall b :: b in limits[..n] ==>
                  (b.reset.Some? ==> started >= b.reset.value) && Reported(b.kind, v.limits)
    {
      assert limits[..n + 1] == limits[..n] + [limits[n]];
      var b := limits[n];
      assert b in limits;
      if b.reset.Some? && started < b.reset.value { return false; }
      if b.kind == "quota" {
        if known == {} {
          NothingReported(b.kind, v.limits, known);
          return false;
        }
        var k :| k in known;
      } else if b.kind !in known {
        NothingReported(b.kind, v.limits, known);
        return false;
      }
    }
    assert limits[..|limits|] == limits;
    return true;
  }

  lemma NothingReported(kind: string, ls: seq<UsageLimit>, known: set<string>)
    requires forall k :: k in known <==> k != "" && exists l :: l in ls && Canonical(l.kind) == k
    requires if kind == "quota" then known == {} else kind !in known
    ensures !Reported(kind, ls)
  {
    hide Canonical;
    forall l | l in ls && Canonical(l.kind) != "" ensures Canonical(l.kind) in known {}
  }

  class Quotas {
    var creds: map<string, Cred>
    var files: map<string, Cred>
    var errors: set<string>
    var revoked: set<string>
    var cache: map<string, Entry>
    var issued: nat

    constructor (s: State)
      ensures Value() == s
    {
      creds, files, errors, revoked, cache, issued := s.creds, s.files, s.errors, s.revoked, s.cache, s.issued;
    }

    function Value(): State
      reads this
    {
      State(creds, files, errors, revoked, cache, issued)
    }

    /** Members of an account's group, in order of their names. */
    method QuotaGroup(source: string, account: string) returns (g: seq<Member>)
      ensures g == Group(Value(), source, account)
    {
      hide Normalize;
      var s := Value();
      var ids := Sorted(GroupIds(s, source, account));
      g := [];
      for n := 0 to |ids|
        invariant |g| == n && forall i :: 0 <= i < n ==>
                    ids[i] in creds && g[i] == Member(ids[i], Grouped(creds[ids[i]], account))
      {
        assert ids[n] in GroupIds(s, source, account);
        g := g + [Member(ids[n], Grouped(creds[ids[n]], account))];
      }
    }

    /** Publishes every new block in memory before the first write. */
    method PublishGroup(group: seq<Member>) returns (writes: seq<Member>)
      modifies this`creds, this`issued
      ensures Publish(old(Value()), group) == (Value(), writes)
    {
      writes := [];
      ghost var s := Value();
      for n := 0 to |group|
        invariant Publish(s, group[..n]) == (Value(), writes)
      {
        assert group[..n + 1][..n] == group[..n];
        var m := group[n];
        if m.id !in creds || creds[m.id].key != m.next.key { continue; }
        var current := creds[m.id];
        var changed := Differs(current, m.next);
        if changed || m.id in errors {
          writes := writes + [m];
        }
        if changed && m.next.block.Some? {
          creds := creds[m.id := current.(block := m.next.block, identity := m.next.identity, rev := Issued(issued))];
          issued := issued + 1;
        }
      }
      assert group[..|group|] == group;
    }

    /** Writes one credential's quota state; a block takes effect before the file is touched. */
    method PersistQuotaCredential(m: Member, io: Io) returns (ok: bool)
      modifies this`creds, this`files, this`errors, this`issued
      ensures Value() == PersistOne(old(Value()), m, io)
      ensures ok ==>
                Current(old(Value()), m) && FileAgrees(old(Value()), m.id, old(creds)[m.id]) && io.matches && io.written
    {
      hide Normalize, Read;
      if m.id !in creds || creds[m.id].key != m.next.key { return false; }
      var current := creds[m.id];
      var next := Pending(current, m.next, Issued(issued));
      issued := issued + 1;
      var early := current.(rev := next.rev);
      if next.block.Some? {
        early := early.(block := next.block, identity := next.identity);
      }
      creds := creds[m.id := early];
      if !(m.id in files && Read(files[m.id]).key == current.key && Read(files[m.id]).disabled == current.disabled)
        || !io.matches || !io.written {
        errors := errors + {m.id};
        return false;
      }
      PendingKeeps(current, m.next, next.rev);
      files := files[m.id := Rewritten(files[m.id], next)];
      creds := creds[m.id := early.(block := next.block, identity := next.identity, rev := next.rev)];
      errors := errors - {m.id};
      return true;
    }

    method SaveQuotaGroup(group: seq<Member>, ios: seq<Io>)
      requires |ios| >= |group|
      modifies this`creds, this`files, this`errors, this`issued
      ensures var (t, writes) := Publish(old(Value()), group);
              |writes| <= |group| && Value() == PersistAll(t, writes, ios[..|writes|])
    {
      hide PersistOne, Publish;
      PublishedLength(Value(), group);
      var writes := PublishGroup(group);
      ghost var t := Value();
      for n := 0 to |writes|
        invariant Value() == PersistAll(t, writes[..n], ios[..n])
      {
        assert writes[..n + 1][..n] == writes[..n] && ios[..n + 1][..n] == ios[..n];
        var ok := PersistQuotaCredential(writes[n], ios[n]);
      }
      assert writes[..|writes|] == writes;
    }

    /** An upstream quota error blocks the whole account. */
    method ObserveQuotaError(source: string, key: string, exhausted: bool, kind: string, reset: Option<Time>,
                             now: Time, ios: seq<Io>)
      requires |ios| >= |creds|
      modifies this`creds, this`files, this`errors, this`issued
      ensures var s := old(Value());
              if !exhausted || source !in s.creds || s.creds[source].key != key || source in s.revoked then Value() == s
              else
                var (t, writes) := Publish(s, ErrorGroup(s, source, kind, reset, now));
                |writes| <= |ios| && Value() == PersistAll(t, writes, ios[..|writes|])
    {
      hide PersistAll, Publish, Merge, AccountOf;
      if !exhausted || source !in creds || creds[source].key != key || source in revoked { return; }
      var account := AccountOf(Value(), source, creds[source]);
      var group := QuotaGroup(source, account);
      GroupLength(Value(), source, account);
      var seen := Observed("error", now, [Limit(if kind == "" then "quota" else kind, reset)]);
      var next := MergeErrors(group, seen);
      assert next == ErrorGroup(Value(), source, kind, reset, now);
      SaveQuotaGroup(next, ios);
    }

    /** The cache entry a usage query works on, made anew for a key it does not fit. */
    method OpenUsage(id: string) returns (serial: nat)
      requires id in creds
      modifies this`cache, this`issued
      ensures Value() == Queried(old(Value()), id)
      ensures id in cache && cache[id].key == creds[id].key && serial == cache[id].serial
    {
      if id !in cache || cache[id].key != creds[id].key {
        cache := cache[id := Entry("", creds[id].key, issued)];
        issued := issued + 1;
      }
      serial := cache[id].serial;
    }

    /** The answer goes to the entry it was asked for, whatever has become of the credential. */
    method CloseUsage(id: string, serial: nat, account: string)
      modifies this`cache
      ensures Value() == Answered(old(Value()), id, serial, account)
    {
      if id in cache && cache[id].serial == serial {
        cache := cache[id := cache[id].(account := account)];
      }
    }

    /** A usage sample merges the account's blocks, adds the limits it shows used up, and ends the
        block where it qualifies. */
    method ObserveQuotaUsage(source: string, same: bool, v: Usage, started: Time, ios: seq<Io>)
      requires |ios| >= |creds|
      modifies this
      ensures var s := Learned(old(Value()), source, v.account);
              if !v.ok || v.updatedAt.None? || source !in s.creds || source in s.revoked || !same
              then Value() == old(Value())
              else
                var (t, writes) := Publish(s, UsageGroup(s, source, v, started));
                |writes| <= |ios| && Value() == PersistAll(t, writes, ios[..|writes|])
    {
      hide PersistAll, Publish, Merge, Qualifies, AccountOf, Exhausted;
      if !v.ok || v.updatedAt.None? || source !in creds || source in revoked || !same { return; }
      if v.account != "" && source in cache {
        cache := cache[source := cache[source].(account := v.account)];
      }
      var s := Value();
      var account := UsageAccount(s, source, v);
      var group := QuotaGroup(source, account);
      GroupLength(s, source, account);
      var used := ExhaustedLimits(v.limits);
      var blocks := Blocks(group) + if used != [] then [Some(Observed("usage", v.updatedAt.value, used))] else [];
      var next := MergeSample(group, blocks, used, v, started);
      assert next == UsageGroup(s, source, v, started);
      SaveQuotaGroup(next, ios);
    }

    /** Takes in a credential the watcher read. */
    method ParseAuth(id: string, content: Cred, resolved: bool)
      modifies this`creds, this`revoked, this`errors
      ensures Value() == Parsed(old(Value()), id, content, resolved)
    {
      hide Normalize, Read, Differs;
      if content.key == "" { return; }
      if id in revoked && !resolved { return; }
      var raw := Read(content);
      var c := Normalize(raw);
      var stale := Differs(raw, c);
      if id in creds && creds[id].key == c.key && creds[id].rev != NoRev && creds[id].rev != c.rev {
        c := c.(block := creds[id].block, identity := creds[id].identity, rev := creds[id].rev);
      } else if id in creds && creds[id].key != c.key {
        errors := errors - {id};
      }
      if resolved {
        revoked := revoked - {id};
      }
      creds := creds[id := c];
      if stale {
        errors := errors + {id};
      }
    }

    /** An edit of what `baseline` was; a credential that has changed since is left alone. */
    method SaveCredential(id: string, baseline: Cred, key: string, disabled: bool, route: Route) returns (ok: bool)
      modifies this`creds, this`files, this`errors
      ensures Value() == Edit(old(Value()), id, baseline, key, disabled, route)
      ensures ok == EditLands(old(Value()), id, baseline, route)
    {
      hide Normalize, Read;
      if id !in creds || creds[id] != baseline { return false; }
      var c := Edited(baseline, key, disabled);
      if !EditLands(Value(), id, baseline, route) { return false; }
      files := files[id := c];
      if key != baseline.key {
        errors := errors - {id};
      }
      creds := creds[id := c];
      return true;
    }

    method SelectedCredential(r: Request) returns (selection: Selection)
      ensures selection == Select(Value(), r)
    {
      hide Normalize, Read;
      var id, c := r.storedId, Read(r.stored);
      if r.storedId in creds {
        c := creds[r.storedId];
      } else if r.authId in creds {
        id, c := r.authId, creds[r.authId];
      } else if r.storedId == "" && r.routed.Some? && r.routed.value in creds {
        id, c := r.routed.value, creds[r.routed.value];
      }
      if c.key == "" || c.disabled || id in revoked || r.authId in revoked { return Missing; }
      NormalBlock(c);
      if Normalize(c).block.Some? { return QuotaBlocked(c.block.value.retryAt); }
      return Selected(id, c);
    }
  }

  lemma NormalBlock(c: Cred)
    ensures Normalize(c).block.Some? ==> c.block.Some?
  {}

  method MergeErrors(group: seq<Member>, seen: Block) returns (next: seq<Member>)
    ensures |next| == |group| && forall i :: 0 <= i < |group| ==> next[i] == ErrorMember(group[i], seen)
  {
    hide Merge;
    next := [];
    for n := 0 to |group|
      invariant |next| == n && forall i :: 0 <= i < n ==> next[i] == ErrorMember(group[i], seen)
    {
      var block := MergeQuotaBlocks(group[n].next, [group[n].next.block, Some(seen)]);
      next := next + [WithBlock(group[n], block)];
    }
  }

  method MergeSample(group: seq<Member>, blocks: seq<Option<Block>>, used: seq<Limit>, v: Usage, started: Time)
    returns (next: seq<Member>)
    requires used == Exhausted(v.limits)
    ensures |next| == |group| && forall i :: 0 <= i < |group| ==> next[i] == UsageMember(group[i], blocks, v, started)
  {
    hide Merge, Qualifies, Exhausted;
    next := [];
    for n := 0 to |group|
      invariant |next| == n && forall i :: 0 <= i < n ==> next[i] == UsageMember(group[i], blocks, v, started)
    {
      var block := MergeQuotaBlocks(group[n].next, blocks);
      if used == [] {
        var room := QuotaUsageHasRoom(block, v, started);
        if room { block := None; }
      }
      next := next + [WithBlock(group[n], block)];
    }
  }

  method ExhaustedLimits(ls: seq<UsageLimit>) returns (used: seq<Limit>)
    ensures used == Exhausted(ls)
  {
    hide Canonical;
    used := [];
    for n := 0 to |ls|
      invariant used == Exhausted(ls[..n])
    {
      assert ls[..n + 1][..n] == ls[..n];
      var kind := Canonical(ls[n].kind);
      if kind != "" && kind != "quota" && ls[n].percent.Some? && ls[n].percent.value >= 100.0 {
        used := used + [Limit(kind, ls[n].reset)];
      }
    }
    assert ls[..|ls|] == ls;
  }

  lemma PendingKeeps(cur: Cred, next: Cred, rev: Rev)
    ensures var n := Pending(cur, next, rev); n.rev == rev && n.disabled == cur.disabled
  {}

  lemma {:induction false} PublishedLength(s: State, g: seq<Member>)
    ensures |Publish(s, g).1| <= |g|
  {
    hide PublishOne;
    if g != [] { PublishedLength(s, g[..|g| - 1]); }
  }

  lemma {:induction false} SortedLength(ks: set<string>)
    ensures |Sorted(ks)| == |ks|
    decreases |ks|
  {
    if ks != {} { SortedLength(ks - {Least(ks)}); }
  }

  lemma SubsetIsSmaller(a: set<string>, b: set<string>)
    requires a <= b
    ensures |a| <= |b|
  {
    assert b == a + (b - a);
  }

  lemma GroupLength(s: State, source: string, account: string)
    ensures |Group(s, source, account)| <= |s.creds|
  {
    hide AccountOf;
    var ids := GroupIds(s, source, account);
    SortedLength(ids);
    SubsetIsSmaller(ids, s.creds.Keys);
  }
}
