/**
 Quota state of all credentials: observations merge blocks into an account's credentials, and
 each change is published in memory first and then written to the credential's file.
 */
module QuotaState {
  import opened Common
  import opened ModelPatterns
  import opened QuotaBlocks

  datatype UsageLimit = UsageLimit(kind: string, percent: Option<real>, reset: Option<Time>)

  /** A usage response; `account` is empty when it does not prove which account it is about. */
  datatype Usage = Usage(ok: bool, planError: bool, updatedAt: Option<Time>, limits: seq<UsageLimit>, account: string)

  function Folded(s: string): string {
    if s == "" then ""
    else
      var c := s[0];
      [if 'A' <= c <= 'Z' then c - 'A' + 'a' else if c == '-' || c == ' ' then '_' else c] + Folded(s[1..])
  }

  function Canonical(kind: string): string {
    var k := Folded(Trim(kind));
    if k in {"weekly", "week"} then "weekly"
    else if k in {"five_hour", "five_hours", "5_hour", "5_hours"} then "five_hour"
    else if k in {"monthly", "month"} then "monthly"
    else if k == "quota" then "quota"
    else ""
  }

  /** The sample was taken after everything the block knows of, no earlier than its resets, and
      reports every limit it names, and every limit it reports, to have room. */
  predicate Qualifies(block: Option<Block>, v: Usage, started: Time) {
    && block.Some? && v.ok && !v.planError && v.updatedAt.Some? && started > block.value.observedAt
    && (forall l :: l in v.limits && Canonical(l.kind) != "" ==> l.percent.Some? && 0.0 <= l.percent.value < 100.0)
    && (forall b :: b in block.value.limits ==>
          (b.reset.Some? ==> started >= b.reset.value) && Reported(b.kind, v.limits))
  }

  predicate Reported(kind: string, limits: seq<UsageLimit>) {
    exists l :: l in limits && Canonical(l.kind) != "" && (kind == "quota" || Canonical(l.kind) == kind)
  }

  /** Limits a sample shows to be used up. */
  function Exhausted(ls: seq<UsageLimit>): seq<Limit> {
    if ls == [] then []
    else
      var l, k := ls[|ls| - 1], Canonical(ls[|ls| - 1].kind);
      Exhausted(ls[..|ls| - 1])
      + if k != "" && k != "quota" && l.percent.Some? && l.percent.value >= 100.0 then [Limit(k, l.reset)] else []
  }

  function Observed(source: string, at: Time, limits: seq<Limit>): Block {
    Block("", "", None, source, "", None, at, at, limits)
  }

  // ---------------------------------------------------------------- credentials and files

  datatype State = State(
    creds: map<string, Cred>, files: map<string, Cred>, errors: set<string>, revoked: set<string>,
    cache: map<string, Entry>, issued: nat)

  /** An entry of the usage cache: the account it is known to be of, "" if of none, the key it was
      opened for, and a number that no other entry has. */
  datatype Entry = Entry(account: string, key: string, serial: nat)

  /** A credential with the quota state it is to get. */
  datatype Member = Member(id: string, next: Cred)

  /** What happens to one write: whether the file still reads as expected, and whether it is replaced. */
  datatype Io = Io(matches: bool, written: bool)

  /** The account a credential is known to belong to. */
  function AccountOf(s: State, id: string, c: Cred): string {
    if Normalize(c).identity.Some? then Normalize(c).identity.value.account
    else if id in s.cache && s.cache[id].key == c.key then s.cache[id].account
    else ""
  }

  function GroupIds(s: State, source: string, account: string): set<string> {
    set k | k in s.creds && k !in s.revoked
      && (k == source || (account != "" && AccountOf(s, k, s.creds[k]) == account))
  }

  function Grouped(c: Cred, account: string): Cred {
    var n := Normalize(c);
    if account != "" then n.(identity := Some(Identity(account, c.key))) else n
  }

  function Group(s: State, source: string, account: string): (g: seq<Member>)
    ensures |g| == |Sorted(GroupIds(s, source, account))|
    ensures forall i :: 0 <= i < |g| ==> g[i].id == Sorted(GroupIds(s, source, account))[i]
    ensures forall i :: 0 <= i < |g| ==> g[i].id in s.creds && g[i].next == Grouped(s.creds[g[i].id], account)
  {
    var ids := Sorted(GroupIds(s, source, account));
    assert forall i :: 0 <= i < |ids| ==> ids[i] in GroupIds(s, source, account);
    seq(|ids|, i requires 0 <= i < |ids| => if ids[i] in s.creds then Member(ids[i], Grouped(s.creds[ids[i]], account))
                                            else Member(ids[i], Cred("", false, None, None, NoRev)))
  }

  function Blocks(g: seq<Member>): (r: seq<Option<Block>>)
    ensures |r| == |g| && forall i :: 0 <= i < |g| ==> r[i] == g[i].next.block
  {
    seq(|g|, i requires 0 <= i < |g| => g[i].next.block)
  }

  function WithBlock(m: Member, block: Option<Block>): Member { m.(next := m.next.(block := block)) }

  function ErrorMember(m: Member, seen: Block): Member {
    WithBlock(m, Merge(m.next, [m.next.block, Some(seen)]))
  }

  function ErrorGroup(s: State, source: string, kind: string, reset: Option<Time>, now: Time): (g: seq<Member>)
    requires source in s.creds
  {
    var group := Group(s, source, AccountOf(s, source, s.creds[source]));
    var seen := Observed("error", now, [Limit(if kind == "" then "quota" else kind, reset)]);
    seq(|group|, i requires 0 <= i < |group| => ErrorMember(group[i], seen))
  }

  /** The cache learns the account a response proves. */
  function Learned(s: State, source: string, account: string): State {
    if account != "" && source in s.cache
    then s.(cache := s.cache[source := s.cache[source].(account := account)])
    else s
  }

  /** A usage query opens an entry for the credential's key if there is none. */
  function Queried(s: State, id: string): State
    requires id in s.creds
  {
    if id in s.cache && s.cache[id].key == s.creds[id].key then s
    else s.(cache := s.cache[id := Entry("", s.creds[id].key, s.issued)], issued := s.issued + 1)
  }

  /** Its answer, however late, says which account that entry is of; an entry that has been replaced
      is of no further use. */
  function Answered(s: State, id: string, serial: nat, account: string): State {
    if id in s.cache && s.cache[id].serial == serial
    then s.(cache := s.cache[id := s.cache[id].(account := account)])
    else s
  }

  function UsageAccount(s: State, source: string, v: Usage): string
    requires source in s.creds
  {
    if v.account != "" && s.creds[source].key != "" then v.account else AccountOf(s, source, s.creds[source])
  }

  function AllBlocks(group: seq<Member>, v: Usage, at: Time): seq<Option<Block>> {
    var used := Exhausted(v.limits);
    Blocks(group) + if used != [] then [Some(Observed("usage", at, used))] else []
  }

  function UsageMember(m: Member, blocks: seq<Option<Block>>, v: Usage, started: Time): Member {
    var block := Merge(m.next, blocks);
    WithBlock(m, if Exhausted(v.limits) == [] && Qualifies(block, v, started) then None else block)
  }

  function UsageGroup(s: State, source: string, v: Usage, started: Time): (g: seq<Member>)
    requires source in s.creds && v.updatedAt.Some?
  {
    var group := Group(s, source, UsageAccount(s, source, v));
    var blocks := AllBlocks(group, v, v.updatedAt.value);
    seq(|group|, i requires 0 <= i < |group| => UsageMember(group[i], blocks, v, started))
  }

  // ---------------------------------------------------------------- publishing and writing

  predicate Differs(cur: Cred, next: Cred) { cur.block != next.block || cur.identity != next.identity }

  predicate Current(s: State, m: Member) { m.id in s.creds && s.creds[m.id].key == m.next.key }

  /** A new block takes effect in memory before anything is written. */
  function PublishOne(s: State, m: Member): State {
    if Current(s, m) && Differs(s.creds[m.id], m.next) && m.next.block.Some? then
      s.(creds := s.creds[m.id := s.creds[m.id].(block := m.next.block, identity := m.next.identity,
                                                 rev := Issued(s.issued))],
         issued := s.issued + 1)
    else s
  }

  predicate Writes(s: State, m: Member) { Current(s, m) && (Differs(s.creds[m.id], m.next) || m.id in s.errors) }

  function Publish(s: State, g: seq<Member>): (State, seq<Member>) {
    if g == [] then (s, [])
    else
      var (before, writes) := Publish(s, g[..|g| - 1]);
      var m := g[|g| - 1];
      (PublishOne(before, m), if Writes(before, m) then writes + [m] else writes)
  }

  /** The quota state to be written for a credential: its key and the operator's choice are current. */
  function Pending(cur: Cred, next: Cred, rev: Rev): Cred {
    Normalize(next.(disabled := cur.disabled)).(rev := rev)
  }

  function Rewritten(file: Cred, n: Cred): Cred {
    file.(block := n.block, identity := n.identity, disabled := n.disabled, rev := n.rev)
  }

  predicate FileAgrees(s: State, id: string, cur: Cred) {
    id in s.files && Read(s.files[id]).key == cur.key && Read(s.files[id]).disabled == cur.disabled
  }

  function PersistOne(s: State, m: Member, io: Io): State {
    if !Current(s, m) then s
    else
      var cur := s.creds[m.id];
      var n := Pending(cur, m.next, Issued(s.issued));
      var early := if n.block.Some?
                   then cur.(block := n.block, identity := n.identity, rev := n.rev)
                   else cur.(rev := n.rev);
      if FileAgrees(s, m.id, cur) && io.matches && io.written then
        s.(creds := s.creds[m.id := cur.(block := n.block, identity := n.identity, rev := n.rev)],
           files := s.files[m.id := Rewritten(s.files[m.id], n)],
           errors := s.errors - {m.id}, issued := s.issued + 1)
      else
        s.(creds := s.creds[m.id := early], errors := s.errors + {m.id}, issued := s.issued + 1)
  }

  function PersistAll(s: State, writes: seq<Member>, ios: seq<Io>): State
    requires |ios| == |writes|
  {
    if writes == [] then s
    else
      var n := |writes| - 1;
      PersistOne(PersistAll(s, writes[..n], ios[..n]), writes[n], ios[n])
  }

  // ---------------------------------------------------------------- everything else

  /** A stored credential as the watcher brings it in; `resolved` when it was read afresh from its file. */
  function Parsed(s: State, id: string, content: Cred, resolved: bool): State {
    var raw := Read(content);
    var c := Normalize(raw);
    var known := id in s.creds;
    if content.key == "" || (id in s.revoked && !resolved) then s
    else
      var kept := known && s.creds[id].key == c.key && s.creds[id].rev != NoRev && s.creds[id].rev != c.rev;
      var replaced := known && s.creds[id].key != c.key;
      var errors := if replaced then s.errors - {id} else s.errors;
      var next := if kept
                  then c.(block := s.creds[id].block, identity := s.creds[id].identity, rev := s.creds[id].rev)
                  else c;
      s.(creds := s.creds[id := next],
         revoked := if resolved then s.revoked - {id} else s.revoked,
         errors := if Differs(raw, c) then errors + {id} else errors)
  }

  /** An operator's edit of a credential's key or switch. */
  function Edited(cur: Cred, key: string, disabled: bool): Cred {
    var c := Normalize(cur.(key := key, disabled := disabled));
    if key != cur.key then c.(rev := NoRev) else c
  }

  /** Through its file when that is known, through the host otherwise. */
  datatype Route = ViaFile(io: Io) | ViaHost(saved: bool)

  /** Only if the credential is still what the edit started from. */
  predicate EditLands(s: State, id: string, baseline: Cred, route: Route) {
    id in s.creds && s.creds[id] == baseline
    && match route
       case ViaFile(io) => FileAgrees(s, id, s.creds[id]) && io.matches && io.written
       case ViaHost(saved) => saved
  }

  function Edit(s: State, id: string, baseline: Cred, key: string, disabled: bool, route: Route): State {
    if !EditLands(s, id, baseline, route) then s
    else
      var c := Edited(baseline, key, disabled);
      s.(creds := s.creds[id := c], files := s.files[id := c],
         errors := if key != baseline.key then s.errors - {id} else s.errors)
  }

  /** The host stores a credential's record with its effective switch. */
  function Projected(c: Cred): Cred {
    var n := Normalize(c);
    n.(disabled := n.disabled || n.block.Some?)
  }

  predicate Selectable(s: State, id: string) {
    id in s.creds && id !in s.revoked && s.creds[id].key != "" && !s.creds[id].disabled
      && Normalize(s.creds[id]).block.None?
  }

  /** A request's credential: what memory has under the stored record's name, or else under the
      host's name for it, or else under its routing name; only then the record itself. */
  datatype Request = Request(storedId: string, stored: Cred, authId: string, routed: Option<string>)

  datatype Selection = Missing | QuotaBlocked(retryAt: Option<Time>) | Selected(id: string, c: Cred)

  function Candidate(s: State, r: Request): (string, Cred) {
    if r.storedId in s.creds then (r.storedId, s.creds[r.storedId])
    else if r.authId in s.creds then (r.authId, s.creds[r.authId])
    else if r.storedId == "" && r.routed.Some? && r.routed.value in s.creds
    then (r.routed.value, s.creds[r.routed.value])
    else (r.storedId, Read(r.stored))
  }

  function Select(s: State, r: Request): Selection {
    var (id, c) := Candidate(s, r);
    if c.key == "" || c.disabled || id in s.revoked || r.authId in s.revoked then Missing
    else if Normalize(c).block.Some? then QuotaBlocked(c.block.value.retryAt)
    else Selected(id, c)
  }

  /** No stored record brings back a credential that memory holds to be blocked, switched off or
      removed; a record of its own speaks for itself only where memory knows none of its names. */
  lemma MemoryDecides(s: State, r: Request)
    ensures Select(s, r).Selected? && Select(s, r).id in s.creds ==> Selectable(s, Select(s, r).id)
    ensures Select(s, r).Selected? && Select(s, r).id !in s.creds ==>
              r.storedId !in s.creds && r.authId !in s.creds && Select(s, r).c == Read(r.stored)
    ensures r.storedId in s.creds && r.authId !in s.revoked ==> (Select(s, r).Selected? <==> Selectable(s, r.storedId))
  {}
}
