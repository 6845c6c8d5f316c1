/**
 The egress pool as objects: groups shared by endpoints and by the leases that hold them,
 scanned in turn for one that has room. Each change of a group is a step of EgressGroups.
 */
module EgressPool {
  import opened Common
  import opened EgressGroups

  /** What admission looks at in a configured endpoint. */
  datatype Endpoint = Endpoint(group: string, rpm: Rate, maxInflight: nat)

  /** Endpoints of one group agree on its limits. */
  ghost predicate Consistent(es: seq<Endpoint>) {
    forall e, f :: e in es && f in es && e.group == f.group ==> e == f
  }

  function GroupOf(gs: map<string, Group>, e: Endpoint): Group {
    if e.group in gs then gs[e.group] else NewGroup(e.rpm, e.maxInflight)
  }

  /** The instant a rejected scan reports for one endpoint. */
  function NextTry(g: Group, now: Time): Time
  {
    if Available(Pruned(g, now)) > now then Available(Pruned(g, now)) else now + SECOND
  }

  predicate Roomy(gs: map<string, Group>, e: Endpoint, now: Time)
  {
    HasRoom(GroupOf(gs, e), now)
  }

  /** Two states that differ by pruning alone, and by groups not used before. */
  ghost predicate PrunedOnly(before: map<string, Group>, after: map<string, Group>, es: seq<Endpoint>, now: Time) {
    && before.Keys <= after.Keys
    && (forall k :: k in before ==> after[k] == before[k] || after[k] == Pruned(before[k], now))
    && (forall k :: k in after && k !in before ==>
          exists e :: e in es && e.group == k && after[k] == NewGroup(e.rpm, e.maxInflight))
  }

  lemma NewIsPruned(rpm: Rate, maxInflight: nat, now: Time)
    ensures Pruned(NewGroup(rpm, maxInflight), now) == NewGroup(rpm, maxInflight)
  {}

  lemma PrunedTwice(g: Group, now: Time)
    ensures Pruned(Pruned(g, now), now) == Pruned(g, now)
  {
    DropOldShape(g.sent, now - MINUTE);
  }

  lemma RoomAsPruned(g: Group, h: Group, now: Time)
    requires Pruned(g, now) == Pruned(h, now)
    ensures HasRoom(g, now) == HasRoom(h, now) && NextTry(g, now) == NextTry(h, now)
    ensures Admitted(g, now) == Admitted(h, now)
  {
    hide DropOld;
    assert Pruned(g, now).rpm == g.rpm && Pruned(h, now).rpm == h.rpm;
    assert Pruned(g, now).inflight == g.inflight && Pruned(h, now).inflight == h.inflight;
    assert Pruned(g, now).maxInflight == g.maxInflight && Pruned(h, now).maxInflight == h.maxInflight;
  }

  /** A state that differs by pruning alone looks the same to the next scan. */
  lemma PrunesAlike(before: map<string, Group>, after: map<string, Group>, es: seq<Endpoint>, e: Endpoint, now: Time)
    requires PrunedOnly(before, after, es, now) && Consistent(es) && e in es
    ensures Pruned(GroupOf(after, e), now) == Pruned(GroupOf(before, e), now)
  {
    hide Pruned;
    if e.group in before { PrunedTwice(before[e.group], now); }
    NewIsPruned(e.rpm, e.maxInflight, now);
  }

  lemma RoomOfVisited(cur: map<string, Group>, e: Endpoint, g: Group, now: Time)
    requires g == Pruned(GroupOf(cur, e), now)
    ensures Roomy(cur, e, now) == HasRoom(g, now)
  {
    hide Pruned, HasRoom;
    PrunedTwice(GroupOf(cur, e), now);
    RoomAsPruned(GroupOf(cur, e), g, now);
  }

  lemma VisitPrunesOnly(before: map<string, Group>, cur: map<string, Group>, es: seq<Endpoint>, e: Endpoint, now: Time)
    requires PrunedOnly(before, cur, es, now) && Consistent(es) && e in es
    ensures PrunedOnly(before, cur[e.group := Pruned(GroupOf(cur, e), now)], es, now)
  {
    hide Pruned;
    var next := cur[e.group := Pruned(GroupOf(cur, e), now)];
    PrunedTwice(GroupOf(cur, e), now);
    if e.group in before { PrunedTwice(before[e.group], now); }
    NewIsPruned(e.rpm, e.maxInflight, now);
    forall k | k in next && k !in before
      ensures exists f :: f in es && f.group == k && next[k] == NewGroup(f.rpm, f.maxInflight)
    {
      if k == e.group && k in cur {
        var f :| f in es && f.group == k && cur[k] == NewGroup(f.rpm, f.maxInflight);
        assert f == e;
      }
    }
  }

  class EgressGroup {
    var rpm: Rate
    var maxInflight: nat
    var inflight: int
    var sent: seq<Time>
    var cooldown: Time

    constructor (rpm: Rate, maxInflight: nat)
      ensures Value() == NewGroup(rpm, maxInflight)
    {
      this.rpm, this.maxInflight := rpm, maxInflight;
      inflight, sent, cooldown := 0, [], 0;
    }

    function Value(): Group
      reads this
    {
      Group(rpm, maxInflight, inflight, sent, cooldown)
    }

    method PruneUsage(now: Time)
      modifies this`sent
      ensures Value() == Pruned(old(Value()), now)
    {
      var cutoff := now - MINUTE;
      var n := 0;
      while n < |sent| && sent[n] <= cutoff
        invariant n <= |sent| && forall i :: 0 <= i < n ==> sent[i] <= cutoff
      {
        n := n + 1;
      }
      DropOldIs(sent, cutoff, n);
      if n > 0 {
        sent := sent[n..];
      }
    }

    /** Whether a freshly pruned group admits now, and if not, when to ask again. */
    method Offer(now: Time) returns (room: bool, available: Time)
      requires Pruned(Value(), now) == Value()
      ensures room == HasRoom(Value(), now) && (!room ==> available == NextTry(Value(), now))
    {
      available := cooldown;
      if |sent| >= rpm {
        available := Max(available, sent[|sent| - rpm] + MINUTE);
      }
      room := available <= now && inflight < maxInflight;
      if !room && available <= now {
        available := now + SECOND;
      }
    }
  }

  class EgressLease {
    const group: EgressGroup
    const reserved: Time
    var sent: bool
    var released: bool

    constructor (group: EgressGroup, reserved: Time)
      ensures this.group == group && this.reserved == reserved && !sent && !released
    {
      this.group, this.reserved := group, reserved;
      sent, released := false, false;
    }

    method MarkSent()
      requires !released
      modifies this`sent
      ensures sent
    {
      sent := true;
    }

    /** Gives the admission back, once; an unsent request also gives its reservation back. */
    method Release()
      modifies this`released, group
      ensures released
      ensures group.Value() ==
              if old(released) then old(group.Value()) else Released(old(group.Value()), reserved, sent)
    {
      if released {
        return;
      }
      released := true;
      group.inflight := group.inflight - 1;
      if !sent {
        group.sent := WithoutFirst(group.sent, reserved);
      }
    }
  }

  /** A group after new limits are configured: usage, bodies in flight and cooldown are kept. */
  function Relimited(gs: map<string, Group>, e: Endpoint): map<string, Group> {
    if e.group in gs then gs[e.group := gs[e.group].(rpm := e.rpm, maxInflight := e.maxInflight)] else gs
  }

  function Reconfigured(gs: map<string, Group>, es: seq<Endpoint>): map<string, Group> {
    if es == [] then gs else Relimited(Reconfigured(gs, es[..|es| - 1]), es[|es| - 1])
  }

  /** New limits reach exactly the groups that are configured, whichever of their endpoints is
      looked at, and no group loses its history. */
  lemma {:induction false} ReconfiguredGroup(gs: map<string, Group>, es: seq<Endpoint>, k: string)
    requires Consistent(es) && k in gs
    ensures var r := Reconfigured(gs, es);
            && r.Keys == gs.Keys
            && (forall e :: e in es && e.group == k ==> r[k] == gs[k].(rpm := e.rpm, maxInflight := e.maxInflight))
            && ((forall e :: e in es ==> e.group != k) ==> r[k] == gs[k])
  {
    if es != [] {
      var init, e := es[..|es| - 1], es[|es| - 1];
      assert forall f :: f in es <==> f in init || f == e;
      ReconfiguredGroup(gs, init, k);
      var mid := Reconfigured(gs, init);
      if e.group == k && exists f :: f in init && f.group == k {
        var f :| f in init && f.group == k;
        assert f == e;
      }
    }
  }

  method WithoutFirst(s: seq<Time>, t: Time) returns (r: seq<Time>)
    ensures r == RemoveFirst(s, t)
  {
    hide RemoveFirst;
    RemoveNothing(t);
    var i := 0;
    assert s[..0] + RemoveFirst(s[0..], t) == RemoveFirst(s, t) by { assert s[0..] == s; }
    while i < |s|
      invariant i <= |s| && RemoveFirst(s, t) == s[..i] + RemoveFirst(s[i..], t)
    {
      RemoveFirstTail(s[i..], t);
      assert s[i..][1..] == s[i + 1..];
      if s[i] == t {
        return s[..i] + s[i + 1..];
      }
      assert s[..i + 1] == s[..i] + [s[i]];
      i := i + 1;
    }
    assert s[..i] == s && s[i..] == [];
    return s;
  }

  lemma RemoveNothing(t: Time)
    ensures RemoveFirst([], t) == []
  {}

  lemma RemoveFirstTail(s: seq<Time>, t: Time)
    requires s != []
    ensures RemoveFirst(s, t) == if s[0] == t then s[1..] else [s[0]] + RemoveFirst(s[1..], t)
  {}

  /** Groups are only ever added: a lease's group stays the pool's group. */
  ghost predicate Grown(past: map<string, EgressGroup>, cur: map<string, EgressGroup>) {
    forall k :: k in past ==> k in cur && cur[k] == past[k]
  }

  lemma GrownFurther(past: map<string, EgressGroup>, mid: map<string, EgressGroup>, cur: map<string, EgressGroup>)
    requires Grown(past, mid) && Grown(mid, cur)
    ensures Grown(past, cur)
  {}

  class EgressManager {
    var groups: map<string, EgressGroup>
    var cursor: nat
    ghost var owned: set<EgressGroup>

    ghost predicate Valid()
      reads this`groups, this`owned, owned
    {
      && (forall k :: k in groups ==> groups[k] in owned)
      && (forall k, l :: k in groups && l in groups && groups[k] == groups[l] ==> k == l)
    }

    ghost function Value(): map<string, Group>
      requires forall k :: k in groups ==> groups[k] in owned
      reads this`groups, this`owned, owned
    {
      map k | k in groups :: groups[k].Value()
    }

    constructor ()
      ensures Valid() && Value() == map[] && cursor == 0
    {
      groups, cursor, owned := map[], 0, {};
    }

    /** Finds or makes the group of an endpoint. */
    method Find(e: Endpoint) returns (g: EgressGroup)
      requires Valid()
      modifies this`groups, this`owned
      ensures Valid() && Grown(old(groups), groups) && old(owned) <= owned && fresh(owned - old(owned))
      ensures e.group in groups && g == groups[e.group] && g.Value() == GroupOf(old(Value()), e)
      ensures Value() == old(Value())[e.group := GroupOf(old(Value()), e)]
    {
      hide Pruned, HasRoom;
      if e.group !in groups {
        g := new EgressGroup(e.rpm, e.maxInflight);
        groups := groups[e.group := g];
        owned := owned + {g};
      }
      g := groups[e.group];
    }

    /** Finds or makes the group of an endpoint and prunes it. */
    method Visit(e: Endpoint, now: Time) returns (g: EgressGroup)
      requires Valid()
      modifies this`groups, this`owned, owned
      ensures Valid() && Grown(old(groups), groups) && old(owned) <= owned && fresh(owned - old(owned))
      ensures e.group in groups && g == groups[e.group] && g.Value() == Pruned(GroupOf(old(Value()), e), now)
      ensures Value() == old(Value())[e.group := Pruned(GroupOf(old(Value()), e), now)]
    {
      hide Pruned, HasRoom, GroupOf;
      g := Find(e);
      Prune(g, e.group, now);
    }

    /** Pruning one group leaves the others as they are. */
    method Prune(g: EgressGroup, name: string, now: Time)
      requires Valid() && name in groups && groups[name] == g
      modifies g
      ensures Valid() && g.Value() == Pruned(old(g.Value()), now) && Value() == old(Value())[name := g.Value()]
    {
      hide Pruned, HasRoom;
      g.PruneUsage(now);
    }

    /** Takes one admission of a group that has just been pruned. */
    method Admit(g: EgressGroup, name: string, now: Time) returns (lease: EgressLease)
      requires Valid() && name in groups && g == groups[name] && Pruned(g.Value(), now) == g.Value()
      modifies g
      ensures Valid() && groups == old(groups) && owned == old(owned)
              && Value() == old(Value())[name := Admitted(old(g.Value()), now)]
      ensures fresh(lease) && lease.group == g && lease.reserved == now && !lease.sent && !lease.released
    {
      g.inflight := g.inflight + 1;
      g.sent := g.sent + [now];
      lease := new EgressLease(g, now);
    }

    /** The n-th turn of a pass: an admission, or one more candidate known to have no room. */
    method Try(endpoints: seq<Endpoint>, n: nat, now: Time, next: Time, ghost before: map<string, Group>,
               ghost first: nat)
      returns (lease: EgressLease?, later: Time)
      requires Valid() && n < |endpoints| && first == First(|endpoints|, cursor)
      requires Scanned(before, Value(), endpoints, now, first, n, next)
      modifies this`groups, this`owned, owned
      ensures Valid() && Grown(old(groups), groups) && old(owned) <= owned && fresh(owned - old(owned))
      ensures lease == null ==> Scanned(before, Value(), endpoints, now, first, n + 1, later)
      ensures lease != null ==> Admits(before, Value(), endpoints, now, first, Turn(|endpoints|, first, n))
      ensures lease != null ==>
                fresh(lease) && Unused(lease, now) && Holds(lease, endpoints[Turn(|endpoints|, first, n)].group)
    {
      hide Scanned, First, Admits, PrunedOnly, HasRoom, NextTry, Pruned, Admitted, Turn;
      hide Roomy, Consistent, GroupOf, Grown;
      lease := null;
      ghost var cur := Value();
      ghost var e := endpoints[Turn(|endpoints|, first, n)];
      TurnIsModulo(|endpoints|, cursor, n);
      ScanVisits(before, cur, endpoints, now, first, n, next);
      var g := Visit(endpoints[(cursor + n) % |endpoints|], now);
      var room, available := g.Offer(now);
      RoomOfVisited(cur, e, g.Value(), now);
      if room {
        ScanAdmits(before, cur, endpoints, now, first, n, next);
        lease := Admit(g, endpoints[(cursor + n) % |endpoints|].group, now);
      } else {
        ScanMovesOn(before, cur, endpoints, now, first, n, next);
      }
      later := if n == 0 || available < next then available else next;
    }

    /** A group's cooldown is only ever put off. */
    method CooldownGroup(g: EgressGroup, name: string, until: Time) returns (cooldown: Time)
      requires Valid() && name in groups && groups[name] == g
      modifies g
      ensures Valid() && cooldown == Max(old(g.cooldown), until)
      ensures Value() == old(Value())[name := old(g.Value()).(cooldown := cooldown)]
    {
      g.cooldown := Max(g.cooldown, until);
      cooldown := g.cooldown;
    }

    method Relimit(e: Endpoint)
      requires Valid()
      modifies owned
      ensures Valid() && Value() == Relimited(old(Value()), e)
    {
      if e.group in groups {
        var g := groups[e.group];
        g.rpm, g.maxInflight := e.rpm, e.maxInflight;
      }
    }

    /** New limits apply to groups in use, whose history is kept. */
    method Apply(endpoints: seq<Endpoint>)
      requires Valid()
      modifies owned
      ensures Valid() && Value() == Reconfigured(old(Value()), endpoints)
    {
      hide Relimited;
      ghost var before := Value();
      var n := 0;
      while n < |endpoints|
        invariant n <= |endpoints| && Valid() && Value() == Reconfigured(before, endpoints[..n])
      {
        Relimit(endpoints[n]);
        assert endpoints[..n + 1][..n] == endpoints[..n];
        n := n + 1;
      }
      assert endpoints[..n] == endpoints;
    }

    ghost predicate Holds(lease: EgressLease, name: string)
      reads this`groups
    {
      name in groups && groups[name] == lease.group
    }

    /** One pass over the candidates from the cursor on. */
    method Acquire(endpoints: seq<Endpoint>, now: Time) returns (lease: EgressLease?, chosen: nat, next: Time)
      requires Valid() && Consistent(endpoints)
      modifies this, owned
      ensures Valid() && Grown(old(groups), groups) && old(owned) <= owned && fresh(owned - old(owned))
      ensures lease == null ==> Rejects(old(Value()), Value(), endpoints, now, next) && cursor == old(cursor)
      ensures lease != null ==>
                Admits(old(Value()), Value(), endpoints, now, First(|endpoints|, old(cursor)), chosen)
                  && cursor == (chosen + 1) % |endpoints|
      ensures lease != null ==>
                fresh(lease) && Unused(lease, now) && chosen < |endpoints| && Holds(lease, endpoints[chosen].group)
    {
      hide Scanned, First, Admits, Rejects, PrunedOnly, HasRoom, NextTry, Pruned, Admitted, Turn;
      hide Roomy, Consistent, GroupOf;
      assert Grown(groups, groups);
      hide Grown, EgressManager.Valid, EgressManager.Value;
      ghost var before, first := Value(), First(|endpoints|, cursor);
      var n := 0;
      lease, chosen, next := null, 0, 0;
      ScanStarts(before, endpoints, now, first);
      while n < |endpoints|
        invariant n <= |endpoints| && Valid() && cursor == old(cursor) && lease == null
        invariant Grown(old(groups), groups) && old(owned) <= owned && fresh(owned - old(owned))
        invariant Scanned(before, Value(), endpoints, now, first, n, next)
      {
        TurnIsModulo(|endpoints|, cursor, n);
        ghost var known := groups;
        lease, next := Try(endpoints, n, now, next, before, first);
        GrownFurther(old(groups), known, groups);
        if lease != null {
          chosen := (cursor + n) % |endpoints|;
          cursor := (chosen + 1) % |endpoints|;
          return;
        }
        n := n + 1;
      }
      ghost var scanned := next;
      if |endpoints| == 0 {
        next := now + SECOND;
      }
      EveryoneHasATurn(before, Value(), endpoints, now, first, scanned, next);
    }
  }

  ghost predicate Unused(lease: EgressLease, now: Time)
    reads lease
  {
    lease.reserved == now && !lease.sent && !lease.released
  }

  /** Where a pass from the cursor begins. */
  function First(len: nat, cursor: nat): (first: nat)
    ensures first < len || len == 0
  {
    if len == 0 then 0 else cursor % len
  }

  /** The m-th endpoint of a pass that begins at `first`. */
  function Turn(len: nat, first: nat, m: nat): (i: nat)
    requires first < len && m < len
    ensures i < len
  {
    if first + m < len then first + m else first + m - len
  }

  lemma TurnIsModulo(len: nat, cursor: nat, m: nat)
    requires m < len
    ensures (cursor + m) % len == Turn(len, First(len, cursor), m)
  {
    var q, c := cursor / len, cursor % len;
    assert cursor == q * len + c;
    if c + m < len {
      ModuloIs(cursor + m, q, c + m, len);
    } else {
      assert (q + 1) * len == q * len + len;
      ModuloIs(cursor + m, q + 1, c + m - len, len);
    }
  }

  lemma ModuloIs(x: nat, q: nat, r: nat, len: nat)
    requires r < len && x == q * len + r
    ensures x % len == r
  {
    var d := x / len - q;
    assert x == (x / len) * len + x % len;
    assert d * len == r - x % len;
    MultipleIsFar(d, len);
  }

  lemma MultipleIsFar(d: int, len: nat)
    requires len >= 1
    ensures d >= 1 ==> d * len >= len
    ensures d <= -1 ==> d * len <= -1 * len
  {}

  /** What a pass has established after n turns without an admission. */
  ghost predicate Scanned(before: map<string, Group>, cur: map<string, Group>, es: seq<Endpoint>, now: Time,
                          first: nat, n: nat, next: Time)
    requires n <= |es| && (es != [] ==> first < |es|)
  {
    && Consistent(es) && PrunedOnly(before, cur, es, now)
    && (forall m :: 0 <= m < n ==> !Roomy(before, es[Turn(|es|, first, m)], now))
    && (forall m :: 0 <= m < n ==> next <= NextTry(GroupOf(before, es[Turn(|es|, first, m)]), now))
    && (n > 0 ==> exists m :: 0 <= m < n && next == NextTry(GroupOf(before, es[Turn(|es|, first, m)]), now))
  }

  /** A rejection: no candidate has room, and `next` is the earliest instant any of them names. */
  ghost predicate Rejects(before: map<string, Group>, after: map<string, Group>, es: seq<Endpoint>, now: Time,
                          next: Time) {
    && Consistent(es) && PrunedOnly(before, after, es, now)
    && (forall e :: e in es ==> !Roomy(before, e, now))
    && (es == [] ==> next == now + SECOND)
    && (forall e :: e in es ==> next <= NextTry(GroupOf(before, e), now))
    && (es != [] ==> exists e :: e in es && next == NextTry(GroupOf(before, e), now))
  }

  /** An admission: the first candidate with room, from `first` on, gets it; other groups are only pruned. */
  ghost predicate Admits(before: map<string, Group>, after: map<string, Group>, es: seq<Endpoint>, now: Time,
                         first: nat, chosen: nat) {
    && Consistent(es) && chosen < |es| && first < |es|
    && Roomy(before, es[chosen], now)
    && (exists n :: 0 <= n < |es| && chosen == Turn(|es|, first, n)
          && forall m :: 0 <= m < n ==> !Roomy(before, es[Turn(|es|, first, m)], now))
    && var e := es[chosen];
       e.group in after && after[e.group] == Admitted(GroupOf(before, e), now)
       && PrunedOnly(before, after[e.group := GroupOf(before, e)], es, now)
  }

  lemma ScanStarts(before: map<string, Group>, es: seq<Endpoint>, now: Time, first: nat)
    requires Consistent(es) && (es != [] ==> first < |es|)
    ensures Scanned(before, before, es, now, first, 0, 0)
  {}

  /** The next turn of a pass sees its group as it was before the pass, but for pruning. */
  lemma ScanVisits(before: map<string, Group>, cur: map<string, Group>, es: seq<Endpoint>, now: Time, first: nat,
                   n: nat, next: Time)
    requires n < |es| && first < |es| && Scanned(before, cur, es, now, first, n, next)
    ensures var e := es[Turn(|es|, first, n)];
            var g := Pruned(GroupOf(cur, e), now);
            && PrunedOnly(before, cur[e.group := g], es, now)
            && g == Pruned(GroupOf(before, e), now) && Pruned(g, now) == g
            && PrunedOnly(before, cur[e.group := GroupOf(before, e)], es, now)
  {
    hide Pruned, Roomy, NextTry, Turn;
    var e := es[Turn(|es|, first, n)];
    PrunedTwice(GroupOf(cur, e), now);
    PrunesAlike(before, cur, es, e, now);
    VisitPrunesOnly(before, cur, es, e, now);
    PutBack(before, cur, es, e, now);
  }

  lemma PutBack(before: map<string, Group>, cur: map<string, Group>, es: seq<Endpoint>, e: Endpoint, now: Time)
    requires PrunedOnly(before, cur, es, now) && Consistent(es) && e in es
    ensures PrunedOnly(before, cur[e.group := GroupOf(before, e)], es, now)
  {
    hide Pruned;
  }

  lemma ScanAdmits(before: map<string, Group>, cur: map<string, Group>, es: seq<Endpoint>, now: Time, first: nat,
                   n: nat, next: Time)
    requires n < |es| && first < |es| && Scanned(before, cur, es, now, first, n, next)
    requires Roomy(cur, es[Turn(|es|, first, n)], now)
    ensures var e := es[Turn(|es|, first, n)];
            var g := Admitted(Pruned(GroupOf(cur, e), now), now);
            forall after :: after == cur[e.group := Pruned(GroupOf(cur, e), now)][e.group := g] ==>
              Admits(before, after, es, now, first, Turn(|es|, first, n))
  {
    hide Pruned, HasRoom, NextTry, Turn, Admitted, PrunedOnly;
    ScanVisits(before, cur, es, now, first, n, next);
    var e := es[Turn(|es|, first, n)];
    var p := Pruned(GroupOf(cur, e), now);
    RoomAsPruned(GroupOf(before, e), p, now);
    RoomOfVisited(cur, e, p, now);
    var after := cur[e.group := p][e.group := Admitted(p, now)];
    assert after[e.group := GroupOf(before, e)] == cur[e.group := GroupOf(before, e)];
  }

  lemma ScanMovesOn(before: map<string, Group>, cur: map<string, Group>, es: seq<Endpoint>, now: Time, first: nat,
                    n: nat, next: Time)
    requires n < |es| && first < |es| && Scanned(before, cur, es, now, first, n, next)
    requires !Roomy(cur, es[Turn(|es|, first, n)], now)
    ensures var e := es[Turn(|es|, first, n)];
            var p := Pruned(GroupOf(cur, e), now);
            var later := if n == 0 || NextTry(p, now) < next then NextTry(p, now) else next;
            Scanned(before, cur[e.group := p], es, now, first, n + 1, later)
  {
    hide Pruned, HasRoom, NextTry, Turn, PrunedOnly;
    ScanVisits(before, cur, es, now, first, n, next);
    var e := es[Turn(|es|, first, n)];
    RoomAsPruned(GroupOf(before, e), Pruned(GroupOf(cur, e), now), now);
    RoomOfVisited(cur, e, Pruned(GroupOf(cur, e), now), now);
  }

  lemma {:induction false} EveryoneHasATurn(before: map<string, Group>, cur: map<string, Group>, es: seq<Endpoint>,
                                            now: Time, first: nat, scanned: Time, next: Time)
    requires es != [] ==> first < |es|
    requires Scanned(before, cur, es, now, first, |es|, scanned) && next == if es == [] then now + SECOND else scanned
    ensures Rejects(before, cur, es, now, next)
  {
    hide Roomy, NextTry, PrunedOnly;
    forall e | e in es ensures !Roomy(before, e, now) && next <= NextTry(GroupOf(before, e), now) {
      var i :| 0 <= i < |es| && es[i] == e;
      var m := if i >= first then i - first else i + |es| - first;
      assert Turn(|es|, first, m) == i;
    }
  }
}
