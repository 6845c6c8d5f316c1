/** What is remembered of an exhausted quota, told from what was observed and from the blocks there were. */
module QuotaObservations {
  import opened Common
  import opened ModelPatterns
  import opened QuotaBlocks
  import opened QuotaState
  import opened QuotaRuns
  import opened QuotaRecovery

  // ---------------------------------------------------------------- merged blocks

  /** Each kind stands once, in order of the names. */
  predicate Listing(ls: seq<Limit>) { forall i, j :: 0 <= i < j < |ls| ==> Less(ls[i].kind, ls[j].kind) }

  /** The instant after which no limit stands any more, as far as that is known. */
  predicate LatestOf(t: Option<Time>, ls: seq<Limit>) {
    && (forall l :: l in ls ==> NotAfter(l.reset, t))
    && (t.Some? ==> exists l :: l in ls && l.reset == t)
  }

  lemma {:induction false} RetryIs(ls: seq<Limit>)
    ensures LatestOf(RetryOf(ls), ls)
  {
    if ls != [] {
      var n := |ls| - 1;
      RetryIs(ls[..n]);
      assert ls == ls[..n] + [ls[n]];
    }
  }

  /** The block has the limit's kind, until its reset or later. */
  ghost predicate Lists(b: Block, l: Limit) { exists t :: Limit(l.kind, t) in b.limits && NotAfter(l.reset, t) }

  /** A merged block, by the blocks it is made from: blocked since the first, observed last when one was,
      each kind once until its latest reset, to be tried again when all are over, and under the key,
      switch and account of the credential it is for. */
  lemma MergedBlockIs(c: Cred, blocks: seq<Option<Block>>)
    requires exists b :: Some(b) in blocks
    ensures Merge(c, blocks).Some?
    ensures var m := Merge(c, blocks).value;
            && (forall b :: Some(b) in blocks ==> m.blockedAt <= b.blockedAt && b.observedAt <= m.observedAt)
            && (exists b :: Some(b) in blocks && b.blockedAt == m.blockedAt)
            && (exists b :: Some(b) in blocks && b.observedAt == m.observedAt)
            && Listing(m.limits) && LatestOf(m.retryAt, m.limits)
            && m.key == c.key && m.manual == Some(c.disabled)
            && (c.identity.Some? ==> m.account == c.identity.value.account)
    ensures forall l :: l in Merge(c, blocks).value.limits ==> exists b :: Some(b) in blocks && l in b.limits
    ensures forall b, l :: Some(b) in blocks && l in b.limits ==> Lists(Merge(c, blocks).value, l)
  {
    MergedTimes(c, blocks);
    forall l | l in Merge(c, blocks).value.limits ensures exists b :: Some(b) in blocks && l in b.limits {
      var b := MergeNames(c, blocks, l);
    }
    forall b, l | Some(b) in blocks && l in b.limits ensures Lists(Merge(c, blocks).value, l) {
      MergeCovers(c, blocks, b);
    }
    hide Merge;
  }

  lemma MergedTimes(c: Cred, blocks: seq<Option<Block>>)
    requires exists b :: Some(b) in blocks
    ensures Merge(c, blocks).Some?
    ensures var m := Merge(c, blocks).value;
            && (forall b :: Some(b) in blocks ==> m.blockedAt <= b.blockedAt && b.observedAt <= m.observedAt)
            && (exists b :: Some(b) in blocks && b.blockedAt == m.blockedAt)
            && (exists b :: Some(b) in blocks && b.observedAt == m.observedAt)
            && Listing(m.limits) && LatestOf(m.retryAt, m.limits)
            && m.key == c.key && m.manual == Some(c.disabled)
            && (c.identity.Some? ==> m.account == c.identity.value.account)
  {
    hide Joined, Less;
    JoinedBounds(blocks);
    var j := Joined(blocks).value;
    RetryIs(Listed(j.limits));
    hide LatestOf, RetryOf;
    assert forall b :: Some(b) in blocks <==> Among(blocks)(b);
  }

  // ---------------------------------------------------------------- what a sample shows

  /** The sample reports a kind that can be told to be used up. */
  predicate UsedUp(v: Usage, kind: string, reset: Option<Time>) {
    exists u :: u in v.limits && Canonical(u.kind) == kind && kind != "" && kind != "quota"
                && u.percent.Some? && u.percent.value >= 100.0 && u.reset == reset
  }

  lemma {:induction false} ExhaustedIff(v: Usage, kind: string, reset: Option<Time>)
    ensures Limit(kind, reset) in Exhausted(v.limits) <==> UsedUp(v, kind, reset)
    decreases |v.limits|
  {
    hide Canonical;
    if v.limits != [] {
      var n := |v.limits| - 1;
      var front := v.(limits := v.limits[..n]);
      ExhaustedIff(front, kind, reset);
      assert v.limits == front.limits + [v.limits[n]];
      assert UsedUp(v, kind, reset) <==>
               UsedUp(front, kind, reset) || UsedUp(v.(limits := [v.limits[n]]), kind, reset);
    }
  }

  // ---------------------------------------------------------------- what is remembered

  /** The block knows that the kind was used up until the reset, when it was observed at that time. */
  ghost predicate Remembers(b: Block, kind: string, reset: Option<Time>, at: Time) {
    at <= b.observedAt && b.blockedAt <= at && Lists(b, Limit(kind, reset))
  }

  /** The second block knows at least what the first one does. */
  ghost predicate Extends(b: Block, d: Block) {
    && b.observedAt <= d.observedAt && d.blockedAt <= b.blockedAt
    && forall l :: l in b.limits ==> Lists(d, l)
  }

  lemma ListsOn(b: Block, d: Block, l: Limit)
    requires Extends(b, d) && Lists(b, l)
    ensures Lists(d, l)
  {
    var t :| Limit(l.kind, t) in b.limits && NotAfter(l.reset, t);
    assert Lists(d, Limit(l.kind, t));
    var u :| Limit(Limit(l.kind, t).kind, u) in d.limits && NotAfter(t, u);
  }

  lemma ExtendsOn(b: Block, d: Block, e: Block)
    requires Extends(b, d) && Extends(d, e)
    ensures Extends(b, e)
  {
    forall l | l in b.limits ensures Lists(e, l) { ListsOn(d, e, l); }
  }

  lemma RemembersOn(b: Block, d: Block, kind: string, reset: Option<Time>, at: Time)
    requires Extends(b, d) && Remembers(b, kind, reset, at)
    ensures Remembers(d, kind, reset, at)
  {
    ListsOn(b, d, Limit(kind, reset));
  }

  lemma OutlastsOn(b: Block, kind: string, reset: Option<Time>, at: Time, v: Usage, started: Time)
    requires Remembers(b, kind, reset, at) && Outlasts(b, v, started)
    ensures at < started && (reset.Some? ==> reset.value <= started)
    ensures exists u :: u in v.limits && IsAbout(u, kind) && u.percent.Some? && u.percent.value < 100.0
  {
    hide Canonical;
    var t :| Limit(Limit(kind, reset).kind, t) in b.limits && NotAfter(reset, t);
  }

  lemma MergeExtends(c: Cred, blocks: seq<Option<Block>>, b: Block)
    requires Some(b) in blocks
    ensures Merge(c, blocks).Some? && Extends(b, Merge(c, blocks).value)
  {
    MergedBlockIs(c, blocks);
    hide Merge;
  }

  /** A limit of a merged part is remembered. */
  lemma MergeRemembers(c: Cred, blocks: seq<Option<Block>>, b: Block, kind: string, reset: Option<Time>)
    requires Some(b) in blocks && Limit(kind, reset) in b.limits && b.blockedAt == b.observedAt
    ensures Merge(c, blocks).Some? && Remembers(Merge(c, blocks).value, kind, reset, b.observedAt)
  {
    MergeExtends(c, blocks, b);
    assert NotAfter(reset, reset);
    assert Remembers(b, kind, reset, b.observedAt);
    RemembersOn(b, Merge(c, blocks).value, kind, reset, b.observedAt);
  }

  // ---------------------------------------------------------------- what an observation plans

  /** Blocks are known by what they say of their limits, whoever's switch they note. */
  predicate SameExtent(b: Block, d: Block) {
    b.observedAt == d.observedAt && b.blockedAt == d.blockedAt && b.limits == d.limits
  }

  lemma CoreExtent(c: Cred)
    ensures Normalize(c).block.Some? <==> CoreBlock(c).Some?
    ensures CoreBlock(c).Some? ==> c.block.Some? && SameExtent(CoreBlock(c).value, c.block.value)
    ensures CoreBlock(c).Some? ==> SameExtent(CoreBlock(c).value, Normalize(c).block.value)
  {}

  lemma SameExtends(b: Block, d: Block, b2: Block, d2: Block)
    requires SameExtent(b, b2) && SameExtent(d, d2)
    ensures Extends(b, d) == Extends(b2, d2)
    ensures forall k, r, t :: Remembers(b, k, r, t) == Remembers(b2, k, r, t)
  {}

  /** The plan for a credential leaves its key and forgets nothing. */
  ghost predicate Plans(s: State, m: Member) {
    && m.id in s.creds && m.next.key == s.creds[m.id].key
    && (m.next.block.Some? ==> CoreBlock(m.next).Some?)
    && (m.next.block.Some? && CoreBlock(s.creds[m.id]).Some? ==>
          Extends(CoreBlock(s.creds[m.id]).value, CoreBlock(m.next).value))
  }

  ghost predicate Single(g: seq<Member>) { forall m, n :: m in g && n in g && m.id == n.id ==> m == n }

  /** A merge of blocks with the credential's own among them. */
  lemma OwnMergePlans(h: History, s: State, m: Member, c: Cred, blocks: seq<Option<Block>>)
    requires s.creds == h.s.creds && m.id in s.creds && c.block == Normalize(s.creds[m.id]).block
    requires m.next.key == s.creds[m.id].key && c.block in blocks && m.next.block.Some? && Ready(m)
    requires m.next.block == Merge(c, blocks)
    ensures Plans(s, m)
  {
    CoreExtent(s.creds[m.id]);
    CoreExtent(m.next);
    if CoreBlock(s.creds[m.id]).Some? {
      MergeExtends(c, blocks, c.block.value);
      SameExtends(CoreBlock(s.creds[m.id]).value, CoreBlock(m.next).value, c.block.value, m.next.block.value);
    }
    hide Merge, CoreBlock, Normalize, Extends;
  }

  lemma ErrorPlans(h: History, source: string, kind: string, reset: Option<Time>, now: Time)
    requires Inv(h) && Enabled(h, ErrorSeen(source, kind, reset, now))
    ensures var g := ErrorGroup(h.s, source, kind, reset, now);
            && Single(g)
            && forall m :: m in g ==>
                 && Plans(h.s, m) && m.next.block.Some? && CoreBlock(m.next).Some?
                 && Remembers(CoreBlock(m.next).value, if kind == "" then "quota" else kind, reset, now)
  {
    hide Inv, Merge, CoreBlock, AccountOf, Normalize, Extends, Remembers, Plans;
    var account := AccountOf(h.s, source, h.s.creds[source]);
    ErrorIsReady(h, source, kind, reset, now);
    GroupIsKeyed(h, h.s, source, account);
    var group, g := Group(h.s, source, account), ErrorGroup(h.s, source, kind, reset, now);
    var k := if kind == "" then "quota" else kind;
    var seen := Observed("error", now, [Limit(k, reset)]);
    forall m | m in g
      ensures Plans(h.s, m) && m.next.block.Some? && CoreBlock(m.next).Some?
              && Remembers(CoreBlock(m.next).value, k, reset, now)
              && m == ErrorMember(Member(m.id, Grouped(h.s.creds[m.id], account)), seen)
    {
      var i :| 0 <= i < |g| && g[i] == m;
      assert group[i] in group;
      var c := group[i].next;
      var blocks := [c.block, Some(seen)];
      assert c.block == Normalize(h.s.creds[m.id]).block && blocks[0] == c.block && blocks[1] == Some(seen);
      OwnMergePlans(h, h.s, m, c, blocks);
      assert seen.limits[0] == Limit(k, reset);
      MergeRemembers(c, blocks, seen, k, reset);
      CoreExtent(m.next);
      assert CoreBlock(m.next).Some?;
      SameExtends(CoreBlock(m.next).value, CoreBlock(m.next).value, m.next.block.value, m.next.block.value);
    }
  }

  lemma UsagePlans(h: History, source: string, v: Usage, started: Time)
    requires Inv(h) && Enabled(h, UsageSeen(source, v, started))
    ensures var g := UsageGroup(Learned(h.s, source, v.account), source, v, started);
            && Single(g)
            && forall m :: m in g ==>
                 && Plans(h.s, m)
                 && forall k, r :: UsedUp(v, k, r) ==>
                      CoreBlock(m.next).Some? && Remembers(CoreBlock(m.next).value, k, r, v.updatedAt.value)
  {
    hide Inv, Merge, CoreBlock, AccountOf, Normalize, Extends, Remembers, Plans, UsageAccount, Qualifies, Exhausted,
         UsedUp;
    var s := Learned(h.s, source, v.account);
    var account := UsageAccount(s, source, v);
    UsageIsReady(h, source, v, started);
    GroupIsKeyed(h, s, source, account);
    var group, g := Group(s, source, account), UsageGroup(s, source, v, started);
    var blocks := AllBlocks(group, v, v.updatedAt.value);
    forall m | m in g
      ensures Plans(h.s, m) && m == UsageMember(Member(m.id, Grouped(h.s.creds[m.id], account)), blocks, v, started)
    {
      var i :| 0 <= i < |g| && g[i] == m;
      assert group[i] in group;
      var c := group[i].next;
      assert Blocks(group)[i] == c.block && c.block == Normalize(h.s.creds[m.id]).block;
      assert blocks[i] == c.block;
      if m.next.block.Some? {
        OwnMergePlans(h, s, m, c, blocks);
        PlansAlike(s, h.s, m);
      } else {
        NothingPlans(h.s, m);
      }
    }
    forall m, k, r | m in g && UsedUp(v, k, r)
      ensures CoreBlock(m.next).Some? && Remembers(CoreBlock(m.next).value, k, r, v.updatedAt.value)
    {
      UsageRemembers(s, source, v, started, m, k, r);
    }
  }

  lemma UsageRemembers(s: State, source: string, v: Usage, started: Time, m: Member, kind: string, reset: Option<Time>)
    requires source in s.creds && v.updatedAt.Some? && m in UsageGroup(s, source, v, started) && Ready(m)
    requires UsedUp(v, kind, reset)
    ensures CoreBlock(m.next).Some? && Remembers(CoreBlock(m.next).value, kind, reset, v.updatedAt.value)
  {
    hide Merge, CoreBlock, AccountOf, Normalize, Remembers, UsageAccount, Qualifies, Exhausted, UsedUp;
    var group, g := Group(s, source, UsageAccount(s, source, v)), UsageGroup(s, source, v, started);
    var blocks := AllBlocks(group, v, v.updatedAt.value);
    var i :| 0 <= i < |g| && g[i] == m;
    var seen := Observed("usage", v.updatedAt.value, Exhausted(v.limits));
    ExhaustedIff(v, kind, reset);
    assert Exhausted(v.limits) != [] && blocks[|blocks| - 1] == Some(seen);
    MergeRemembers(group[i].next, blocks, seen, kind, reset);
    CoreExtent(m.next);
    BlockIsCore(m);
    SameExtends(CoreBlock(m.next).value, CoreBlock(m.next).value, m.next.block.value, m.next.block.value);
  }

  lemma BlockIsCore(m: Member)
    requires Ready(m) && m.next.block.Some?
    ensures CoreBlock(m.next).Some?
  {}

  lemma PlansAlike(s: State, t: State, m: Member)
    requires s.creds == t.creds && Plans(s, m)
    ensures Plans(t, m)
  {}

  lemma NothingPlans(s: State, m: Member)
    requires m.id in s.creds && m.next.key == s.creds[m.id].key && m.next.block.None?
    ensures Plans(s, m)
  {}

  // ---------------------------------------------------------------- whose quota it is

  /** The credential's identity was verified for the key it has. */
  predicate Verified(c: Cred) {
    c.key != "" && c.identity.Some? && c.identity.value.key == c.key && c.identity.value.account != ""
  }

  /** The credential is known to be of the account: by its verified identity or, without one, by a usage
      answer for its key. */
  predicate BelongsTo(s: State, k: string, account: string) {
    && k in s.creds && account != ""
    && var c := s.creds[k];
       if Verified(c) then c.identity.value.account == account
       else k in s.cache && s.cache[k].key == c.key && s.cache[k].account == account
  }

  lemma BelongsIff(s: State, k: string, account: string)
    requires k in s.creds && account != ""
    ensures BelongsTo(s, k, account) <==> AccountOf(s, k, s.creds[k]) == account
  {}

  /** An error is about the credential it came from and all others, not removed, of the same known account. */
  lemma ErrorIsAboutIff(s: State, source: string, k: string)
    requires source in s.creds
    ensures k in GroupIds(s, source, AccountOf(s, source, s.creds[source])) <==>
              && k in s.creds && k !in s.revoked
              && (k == source || exists a :: BelongsTo(s, source, a) && BelongsTo(s, k, a))
  {
    var account := AccountOf(s, source, s.creds[source]);
    forall j, a | j in s.creds && a != "" ensures BelongsTo(s, j, a) <==> AccountOf(s, j, s.creds[j]) == a {
      BelongsIff(s, j, a);
    }
    assert account != "" ==> BelongsTo(s, source, account);
    hide BelongsTo, AccountOf;
    if k in s.creds && account != "" && AccountOf(s, k, s.creds[k]) == account { assert BelongsTo(s, k, account); }
    if a :| BelongsTo(s, source, a) && BelongsTo(s, k, a) { BelongsIsNamed(s, k, a); }
  }

  lemma BelongsIsNamed(s: State, k: string, a: string)
    requires BelongsTo(s, k, a)
    ensures k in s.creds && a != ""
  {}

  /** A sample that names its account is about the credential it was taken with and all of that account;
      any other is about the same credentials as an error. */
  lemma SampleIsAboutIff(s: State, source: string, v: Usage, k: string)
    requires source in s.creds && v.account != "" && s.creds[source].key != ""
    ensures k in About(s, source, v) <==>
              k in s.creds && k !in s.revoked && (k == source || BelongsTo(s, k, v.account))
  {
    var t := Learned(s, source, v.account);
    if k in s.creds {
      BelongsIff(t, k, v.account);
      hide AccountOf;
      if k != source { assert BelongsTo(t, k, v.account) <==> BelongsTo(s, k, v.account); }
    }
    hide AccountOf;
  }

  /** What a sample shows of its own credential's account is known from then on, if the cache has an entry
      for it; what is known of others stays. */
  lemma SampleIsLearned(s: State, source: string, account: string, k: string, a: string)
    requires source in s.creds && account != ""
    ensures var t := Learned(s, source, account);
            && (k != source ==> (BelongsTo(t, k, a) <==> BelongsTo(s, k, a)))
            && (source in s.cache && s.cache[source].key == s.creds[source].key && !Verified(s.creds[source]) ==>
                  (BelongsTo(t, source, a) <==> a == account))
            && t.creds == s.creds && t.files == s.files
  {}

  /** The record the host stores is off for as long as the credential is off or blocked; read back, it has the
      operator's own choice. */
  lemma EffectiveSwitch(c: Cred)
    ensures Projected(c).disabled <==> c.disabled || CoreBlock(c).Some?
    ensures Read(Projected(c)).disabled == c.disabled
    ensures CoreBlock(Projected(c)) == CoreBlock(c) && Projected(c).rev == c.rev && Projected(c).key == c.key
  {}

  // ---------------------------------------------------------------- what a write leaves behind

  /** A write that lands leaves file and memory in agreement and no error; any other is noted as one, to be
      made up for. Memory has the new block at once, and the old one until its end is on disk. */
  lemma WriteIsNoted(s: State, m: Member, io: Io)
    requires Current(s, m)
    ensures var t, lands := PersistOne(s, m, io), FileAgrees(s, m.id, s.creds[m.id]) && io.matches && io.written;
            && m.id in t.creds
            && (m.id in t.errors <==> !lands) && (forall k :: k != m.id ==> (k in t.errors <==> k in s.errors))
            && (lands ==>
                  && m.id in t.files && t.files[m.id].rev == t.creds[m.id].rev
                  && CoreBlock(t.files[m.id]) == CoreBlock(t.creds[m.id]) == CoreBlock(m.next))
            && (!lands ==>
                  t.files == s.files
                  && CoreBlock(t.creds[m.id]) ==
                     if CoreBlock(m.next).Some? then CoreBlock(m.next) else CoreBlock(s.creds[m.id]))
  {
    PersistCore(s, m, io);
    hide CoreBlock, Pending, Rewritten, Read;
  }

  /** The file has the key and, as it is read, the operator's choice that memory has. */
  predicate AsInMemory(s: State, id: string) {
    id in s.files && id in s.creds && s.files[id].key == s.creds[id].key
    && s.creds[id].disabled == (match s.files[id].block
                                case Some(b) => if b.manual.Some? then b.manual.value else s.files[id].disabled
                                case None => s.files[id].disabled)
  }

  /** Neither a quota write nor an edit that goes through the file replaces a file whose key or switch an
      outsider has changed; an edit lands only on what the credential was when it began, and then the file
      and memory are just that with the new key and switch. */
  lemma OutsidersAreKept(s: State, m: Member, io: Io, id: string, was: Cred, key: string, disabled: bool)
    ensures PersistOne(s, m, io).files != s.files ==> AsInMemory(s, m.id) && io.matches && io.written
    ensures var t := Edit(s, id, was, key, disabled, ViaFile(io));
            t != s ==>
              && AsInMemory(s, id) && io.matches && io.written && s.creds[id] == was
              && t.creds[id] == t.files[id] && t.creds[id].key == key && t.creds[id].disabled == disabled
              && (key == was.key ==> CoreBlock(t.creds[id]) == CoreBlock(was) && t.creds[id].rev == was.rev)
              && (key != was.key ==> t.creds[id].rev == NoRev)
  {
    EditedCore(was, key, disabled);
    hide CoreBlock, Pending, Rewritten;
  }

  /** What a watcher read takes in: a credential with a key that is not removed, or was read afresh from its
      file, which makes it present again. Memory has its switch; its quota state too, unless memory's is
      under another revision for the same key. What the content had to be corrected in is to be written. */
  lemma ReadIs(s: State, id: string, content: Cred, resolved: bool)
    ensures var t, c := Parsed(s, id, content, resolved), Read(content);
            var taken := content.key != "" && (id !in s.revoked || resolved);
            var replaced := id in s.creds && s.creds[id].key != content.key;
            && (!taken ==> t == s) && t.files == s.files && t.cache == s.cache && t.issued == s.issued
            && (taken ==>
                  && t.creds.Keys == s.creds.Keys + {id} && t.creds[id].disabled == c.disabled && id in t.creds
                  && (forall k :: k in s.creds && k != id ==> t.creds[k] == s.creds[k])
                  && t.revoked == (if resolved then s.revoked - {id} else s.revoked)
                  && (id in t.errors <==> (id in s.errors && !replaced) || Differs(c, Normalize(c)))
                  && (forall k :: k != id ==> (k in t.errors <==> k in s.errors)))
  {
    CoreIsStable(content);
    CoreIsStable(Read(content));
    hide Differs, Read, Normalize, CoreBlock;
  }

  /** Everyone in the group of a known account gets its identity, for the key at hand. */
  lemma GroupIsIdentified(s: State, source: string, v: Usage, started: Time, m: Member)
    requires source in s.creds && v.updatedAt.Some? && v.account != "" && s.creds[source].key != ""
    requires m in UsageGroup(Learned(s, source, v.account), source, v, started)
    ensures m.id in s.creds && m.next.identity == Some(Identity(v.account, s.creds[m.id].key))
  {
    hide Merge, Qualifies, Exhausted, AccountOf;
    var t := Learned(s, source, v.account);
    var group, g := Group(t, source, v.account), UsageGroup(t, source, v, started);
    var i :| 0 <= i < |g| && g[i] == m;
    assert group[i].next == Grouped(t.creds[m.id], v.account);
  }

  /** And a write that lands makes it known for good, to this process and to the next. */
  lemma IdentityIsWritten(s: State, m: Member, io: Io, account: string)
    requires Current(s, m) && m.next.key != "" && account != ""
    requires m.next.identity == Some(Identity(account, m.next.key))
    requires FileAgrees(s, m.id, s.creds[m.id]) && io.matches && io.written
    ensures var t := PersistOne(s, m, io);
            && BelongsTo(t, m.id, account)
            && m.id in t.files && Verified(t.files[m.id]) && t.files[m.id].identity.value.account == account
  {}

  // ---------------------------------------------------------------- names of limits

  /** Capitals do not matter within a name, and blanks and hyphens stand for underscores. */
  predicate SameLetter(a: char, b: char) {
    || a == b || (a in "_- " && b in "_- ")
    || ('A' <= a <= 'Z' && b == a - 'A' + 'a') || ('A' <= b <= 'Z' && a == b - 'A' + 'a')
  }

  predicate SameName(a: string, b: string) { |a| == |b| && forall i :: 0 <= i < |a| ==> SameLetter(a[i], b[i]) }

  lemma {:induction false} FoldIff(a: string, b: string)
    ensures Folded(a) == Folded(b) <==> SameName(a, b)
    ensures |Folded(a)| == |a|
  {
    if a != "" && b != "" {
      FoldIff(a[1..], b[1..]);
      assert Folded(a)[1..] == Folded(a[1..]) && Folded(b)[1..] == Folded(b[1..]);
      assert Folded(a)[0] == Folded(b)[0] <==> SameLetter(a[0], b[0]);
      assert SameName(a, b) <==> SameLetter(a[0], b[0]) && SameName(a[1..], b[1..]);
      assert Folded(a) == Folded(b) <==> Folded(a)[0] == Folded(b)[0] && Folded(a)[1..] == Folded(b)[1..];
    } else if a != "" {
      FoldIff(a[1..], b);
    }
  }

  predicate Lower(s: string) { forall i :: 0 <= i < |s| ==> 'a' <= s[i] <= 'z' || s[i] == '_' || s[i] == '5' }

  lemma {:induction false} LowerFolds(s: string, name: string)
    requires Lower(name)
    ensures Folded(s) == name <==> SameName(s, name)
  {
    FoldIff(s, name);
    FoldsToItself(name);
    hide Folded, SameName, Lower;
  }

  lemma {:induction false} FoldsToItself(s: string)
    requires Lower(s)
    ensures Folded(s) == s
  {
    if s != "" { FoldsToItself(s[1..]); }
  }

  /** A limit is one of the kinds exactly if, but for white space around it, it has one of the kind's names. */
  lemma CanonicalIff(kind: string)
    ensures var t := Trim(kind);
            && Canonical(kind) in {"", "weekly", "five_hour", "monthly", "quota"}
            && (Canonical(kind) == "weekly" <==> SameName(t, "weekly") || SameName(t, "week"))
            && (Canonical(kind) == "monthly" <==> SameName(t, "monthly") || SameName(t, "month"))
            && (Canonical(kind) == "quota" <==> SameName(t, "quota"))
            && (Canonical(kind) == "five_hour" <==>
                  || SameName(t, "five_hour") || SameName(t, "five_hours")
                  || SameName(t, "5_hour") || SameName(t, "5_hours"))
  {
    var t := Trim(kind);
    hide Folded, Trim, SameName;
    LowerFolds(t, "weekly");
    LowerFolds(t, "week");
    LowerFolds(t, "monthly");
    LowerFolds(t, "month");
    LowerFolds(t, "quota");
    LowerFolds(t, "five_hour");
    LowerFolds(t, "five_hours");
    LowerFolds(t, "5_hour");
    LowerFolds(t, "5_hours");
  }

  // ---------------------------------------------------------------- selecting a credential

  /** The names a request's credential can be known by, in the order they are tried. */
  function FirstKnown(s: State, r: Request): Option<string> {
    if r.storedId in s.creds then Some(r.storedId)
    else if r.authId in s.creds then Some(r.authId)
    else if r.storedId == "" && r.routed.Some? && r.routed.value in s.creds then r.routed
    else None
  }

  /** A credential with a key, switched on by the operator, and not removed under its name or the host's. */
  predicate Usable(s: State, r: Request, id: string, c: Cred) {
    c.key != "" && !c.disabled && id !in s.revoked && r.authId !in s.revoked
  }

  /** Which credential a request gets: what memory has under the first name it knows, or else the stored
      record itself. It gets it exactly if that is usable and not blocked; if it is usable and blocked,
      it is told when the block may end. */
  lemma SelectIff(s: State, r: Request)
    ensures var known := FirstKnown(s, r);
            var id := if known.Some? then known.value else r.storedId;
            var c := if known.Some? then s.creds[id] else Read(r.stored);
            && (Select(s, r) == Selected(id, c) <==> Usable(s, r, id, c) && CoreBlock(c).None?)
            && (Select(s, r).Selected? ==> Select(s, r) == Selected(id, c))
            && (Select(s, r).QuotaBlocked? <==> Usable(s, r, id, c) && CoreBlock(c).Some?)
            && (Select(s, r).QuotaBlocked? ==> Select(s, r).retryAt == CoreBlock(c).value.retryAt)
  {}
}
