/** Whom the pool admits, told from its leases over a whole run: bodies in flight, and room in the last minute. */
module EgressAdmissions {
  import opened Common
  import opened EgressGroups
  import opened EgressPool
  import opened EgressPoolRuns

  /** A lease that still counts against the rate at `now`: reserved in the last minute, and not given
      back unsent. */
  predicate Recent(l: Lease, now: Time) { (l.sent || !l.released) && l.reserved > now - MINUTE }

  function Bodies(ls: seq<Lease>, name: string): nat {
    if ls == [] then 0
    else Bodies(ls[..|ls| - 1], name) + if ls[|ls| - 1].name == name && !ls[|ls| - 1].released then 1 else 0
  }

  function Uses(ls: seq<Lease>, name: string, now: Time): nat {
    if ls == [] then 0
    else Uses(ls[..|ls| - 1], name, now) + if ls[|ls| - 1].name == name && Recent(ls[|ls| - 1], now) then 1 else 0
  }

  /** The endpoint's group is past its cooldown and has used less than its rate in the last minute. */
  predicate Ready(p: Pool, e: Endpoint, now: Time) {
    GroupOf(p.groups, e).cooldown <= now && Uses(p.leases, e.group, now) < GroupOf(p.groups, e).rpm
  }

  /** It can take one more: it is ready and has fewer bodies in flight than its limit. */
  predicate CanTake(p: Pool, e: Endpoint, now: Time) {
    Ready(p, e, now) && Bodies(p.leases, e.group) < GroupOf(p.groups, e).maxInflight
  }

  // ---------------------------------------------------------------- counting leases

  lemma {:induction false} BodiesAreHolds(ls: seq<Lease>, name: string)
    ensures Bodies(ls, name) == Unreleased(HoldsOf(ls, name))
  {
    hide Slots, Unreleased;
    if ls != [] {
      var l := ls[|ls| - 1];
      BodiesAreHolds(ls[..|ls| - 1], name);
      HoldsOfMore(ls[..|ls| - 1], l, name);
      UnreleasedOfMore(HoldsOf(ls[..|ls| - 1], name), HoldOf(l));
      assert ls == ls[..|ls| - 1] + [l];
      if l.name != name { assert HoldsOf(ls, name) == HoldsOf(ls[..|ls| - 1], name); }
    } else {
      NoSlots(0);
    }
  }

  lemma UnreleasedOfMore(hs: seq<Hold>, x: Hold)
    ensures Unreleased(hs + [x]) == Unreleased(hs) + if x.released then 0 else 1
    ensures forall lo :: |Slots(hs + [x], lo)| == |Slots(hs, lo)| + if Counts(x) && x.reserved > lo then 1 else 0
  {
    assert (hs + [x])[..|hs|] == hs;
  }

  lemma {:induction false} UsesAreSlots(ls: seq<Lease>, name: string, now: Time)
    ensures Uses(ls, name, now) == |Slots(HoldsOf(ls, name), now - MINUTE)|
  {
    hide Slots, Unreleased;
    if ls != [] {
      var l := ls[|ls| - 1];
      UsesAreSlots(ls[..|ls| - 1], name, now);
      HoldsOfMore(ls[..|ls| - 1], l, name);
      UnreleasedOfMore(HoldsOf(ls[..|ls| - 1], name), HoldOf(l));
      assert ls == ls[..|ls| - 1] + [l];
      if l.name != name { assert HoldsOf(ls, name) == HoldsOf(ls[..|ls| - 1], name); }
    } else {
      NoSlots(now - MINUTE);
    }
  }

  lemma NoSlots(lo: Time)
    ensures |Slots([], lo)| == 0 == Unreleased([])
  {}

  lemma {:induction false} NoLeases(ls: seq<Lease>, name: string, now: Time)
    requires forall j :: 0 <= j < |ls| ==> ls[j].name != name
    ensures Bodies(ls, name) == 0 && Uses(ls, name, now) == 0
  {
    if ls != [] { NoLeases(ls[..|ls| - 1], name, now); }
  }

  // ---------------------------------------------------------------- admission

  /** Room in a group is room by the rate of its remembered reservations, and a body to spare. */
  lemma RoomIs(g: Group, now: Time)
    requires Sorted(g.sent)
    ensures HasRoom(g, now) <==>
              g.inflight < g.maxInflight && g.cooldown <= now && |Pruned(g, now).sent| < g.rpm
    ensures Available(Pruned(g, now)) <= now <==> g.cooldown <= now && |Pruned(g, now).sent| < g.rpm
  {
    RateFrom(g.sent, g.rpm, now - MINUTE);
    AvailableAt(g, now);
  }

  /** The group an endpoint has, as its leases account for it. */
  lemma GroupIs(p: Pool, e: Endpoint, now: Time)
    requires PoolInv(p) && now >= p.clock
    ensures var g := GroupOf(p.groups, e);
            && Sorted(g.sent) && g.inflight == Bodies(p.leases, e.group)
            && |Pruned(g, now).sent| == Uses(p.leases, e.group, now)
  {
    hide HasRoom, Pruned;
    var g := GroupOf(p.groups, e);
    if e.group in p.groups {
      assert HasHistory(g, p.leases, p.clock, e.group);
      var h :| Tracks(h, g, p.leases, p.clock, e.group);
      BodiesAreHolds(p.leases, e.group);
      UsesAreSlots(p.leases, e.group, now);
      PruneKeepsSlots(h, now);
      assert |multiset(Pruned(g, now).sent)| == |Pruned(g, now).sent|;
    } else {
      NoLeases(p.leases, e.group, now);
      NewIsPruned(e.rpm, e.maxInflight, now);
    }
  }

  lemma RoomyIff(p: Pool, e: Endpoint, now: Time)
    requires PoolInv(p) && now >= p.clock
    ensures Roomy(p.groups, e, now) <==> CanTake(p, e, now)
  {
    hide HasRoom, Pruned;
    GroupIs(p, e, now);
    RoomIs(GroupOf(p.groups, e), now);
  }

  /** In every state of every run: an endpoint is given a lease only if its group has fewer bodies in
      flight than its limit, is past its cooldown and has fewer reservations in the last minute than
      its rate, and only if no endpoint whose turn came earlier is like that. A request is refused
      only if none is. */
  lemma AdmittedIff(run: seq<Pool>, acts: seq<Act>, i: nat)
    requires IsRun(run, acts) && i < |acts|
    ensures var p := run[i];
            match acts[i]
            case Grant(es, now, first, chosen) =>
              && chosen < |es| && first < |es| && CanTake(p, es[chosen], now)
              && exists n :: 0 <= n < |es| && chosen == Turn(|es|, first, n)
                   && forall m :: 0 <= m < n ==> !CanTake(p, es[Turn(|es|, first, m)], now)
            case Refuse(es, now, _) => forall e :: e in es ==> !CanTake(p, e, now)
            case _ => true
  {
    EgressPoolRuns.RunKeepsInv(run, acts, i);
    var p := run[i];
    assert Next(p, acts[i], run[i + 1]);
    hide IsRun, PoolInv, CanTake, Roomy, Pruned, PrunedOnly, Turn;
    match acts[i]
    case Grant(es, now, first, chosen) =>
      forall e ensures Roomy(p.groups, e, now) <==> CanTake(p, e, now) { RoomyIff(p, e, now); }
    case Refuse(es, now, _) =>
      forall e ensures Roomy(p.groups, e, now) <==> CanTake(p, e, now) { RoomyIff(p, e, now); }
    case _ =>
  }

  // ---------------------------------------------------------------- bodies in flight

  lemma {:induction false} BodiesOfUpdate(ls: seq<Lease>, j: nat, x: Lease, name: string)
    requires j < |ls| && x.name == ls[j].name
    ensures Bodies(ls[j := x], name) == Bodies(ls, name)
              + if x.name == name then (if x.released then 0 else 1) - (if ls[j].released then 0 else 1) else 0
  {
    var n := |ls| - 1;
    if j < n {
      assert ls[j := x][..n] == ls[..n][j := x];
      BodiesOfUpdate(ls[..n], j, x, name);
    } else {
      assert ls[j := x][..n] == ls[..n];
    }
  }

  lemma BodiesOfMore(ls: seq<Lease>, l: Lease, name: string)
    ensures Bodies(ls + [l], name) == Bodies(ls, name) + if l.name == name && !l.released then 1 else 0
  {
    assert (ls + [l])[..|ls|] == ls;
  }

  /** The group has no more bodies in flight than its limit allows, or than the given number. */
  predicate Within(p: Pool, name: string, before: nat) {
    name in p.groups ==> Bodies(p.leases, name) <= Max(p.groups[name].maxInflight, before)
  }

  predicate SameLimit(p: Pool, q: Pool, name: string) {
    name in p.groups ==> name in q.groups && q.groups[name].maxInflight == p.groups[name].maxInflight
  }

  /** What an admission does to limits: nothing. */
  lemma GrantKeepsLimits(p: Pool, es: seq<Endpoint>, now: Time, first: nat, chosen: nat, q: Pool)
    requires Next(p, Grant(es, now, first, chosen), q)
    ensures var e := es[chosen];
            e.group in q.groups && q.groups[e.group].maxInflight == GroupOf(p.groups, e).maxInflight
    ensures forall k :: SameLimit(p, q, k)
  {
    hide Roomy, DropOld, Turn, Consistent;
    var e := es[chosen];
    var back := q.groups[e.group := GroupOf(p.groups, e)];
    forall k | k in p.groups ensures k in q.groups && q.groups[k].maxInflight == p.groups[k].maxInflight {
      assert k in back;
      if k != e.group { assert q.groups[k] == back[k]; }
    }
  }

  lemma GrantIsWithin(p: Pool, es: seq<Endpoint>, now: Time, first: nat, chosen: nat, q: Pool, name: string,
                      before: nat)
    requires PoolInv(p) && Next(p, Grant(es, now, first, chosen), q) && Within(p, name, before)
    ensures Within(q, name, before) && SameLimit(p, q, name)
    ensures es[chosen].group == name ==> name in q.groups && Bodies(q.leases, name) <= q.groups[name].maxInflight
  {
    GrantKeepsLimits(p, es, now, first, chosen, q);
    GrantIs(p, es, now, first, chosen, q);
    RoomyIff(p, es[chosen], now);
    if name !in p.groups { NoLeases(p.leases, name, now); }
    hide Next, PoolInv, Ready, Bodies, Roomy;
    OneMoreBody(p, q, q.leases[|p.leases|], name, before);
  }

  /** One more lease, in a group with room for it. */
  lemma OneMoreBody(p: Pool, q: Pool, l: Lease, name: string, before: nat)
    requires q.leases == p.leases + [l] && !l.released && Within(p, name, before) && SameLimit(p, q, name)
    requires name !in p.groups ==> Bodies(p.leases, name) == 0
    requires l.name == name ==> name in q.groups && Bodies(p.leases, name) < q.groups[name].maxInflight
    ensures Within(q, name, before)
    ensures l.name == name ==> Bodies(q.leases, name) <= q.groups[name].maxInflight
  {
    BodiesOfMore(p.leases, l, name);
  }

  lemma GrantIs(p: Pool, es: seq<Endpoint>, now: Time, first: nat, chosen: nat, q: Pool)
    requires Next(p, Grant(es, now, first, chosen), q)
    ensures now >= p.clock && Roomy(p.groups, es[chosen], now)
    ensures q.leases ==
            p.leases + [Lease(es[chosen].group, now, false, false, GroupOf(p.groups, es[chosen]).rpm)]
  {
    hide Roomy, DropOld, Turn, PrunedOnly, Admitted;
  }

  lemma LookIsWithin(p: Pool, es: seq<Endpoint>, now: Time, next: Time, q: Pool, name: string, before: nat)
    requires PoolInv(p) && Next(p, Refuse(es, now, next), q) && Within(p, name, before)
    ensures Within(q, name, before) && SameLimit(p, q, name)
  {
    hide Roomy, DropOld, HasHistory, NextTry;
    if name !in p.groups { NoLeases(p.leases, name, now); }
  }

  lemma NextIsWithin(p: Pool, act: Act, q: Pool, name: string, before: nat)
    requires PoolInv(p) && Next(p, act, q) && !act.Configure? && Within(p, name, before)
    ensures Within(q, name, before) && SameLimit(p, q, name)
  {
    match act
    case Refuse(es, now, next) => LookIsWithin(p, es, now, next, q, name, before);
    case Grant(es, now, first, chosen) => GrantIsWithin(p, es, now, first, chosen, q, name, before);
    case Send(j) => LeaseIsWithin(p, act, q, name, before);
    case Free(j) => LeaseIsWithin(p, act, q, name, before);
    case Cool(_, _) => hide Rejects, Admits, Released;
  }

  lemma LeaseIsWithin(p: Pool, act: Act, q: Pool, name: string, before: nat)
    requires (act.Send? || act.Free?) && Next(p, act, q) && Within(p, name, before)
    ensures Within(q, name, before) && SameLimit(p, q, name)
  {
    hide Rejects, Admits, RemoveFirst, Bodies;
    var l := p.leases[act.j];
    BodiesOfUpdate(p.leases, act.j, if act.Send? then l.(sent := true) else l.(released := true), name);
  }

  ghost predicate Unconfigured(acts: seq<Act>, i: nat, j: nat)
    requires i <= j <= |acts|
  {
    forall n :: i <= n < j ==> !acts[n].Configure?
  }

  /** Over every run, from any state to a later one with no configuration between them: a group has at
      most as many bodies in flight as its limit or as it had in the first, and its limit is the same. */
  lemma {:induction false} BodiesStayWithin(run: seq<Pool>, acts: seq<Act>, i: nat, j: nat, name: string)
    requires IsRun(run, acts) && i <= j < |run| && Unconfigured(acts, i, j)
    ensures Within(run[j], name, Bodies(run[i].leases, name)) && SameLimit(run[i], run[j], name)
  {
    hide Next;
    if i < j {
      assert Unconfigured(acts, i, j - 1);
      BodiesStayWithin(run, acts, i, j - 1, name);
      EgressPoolRuns.RunKeepsInv(run, acts, j - 1);
      hide PoolInv;
      NextIsWithin(run[j - 1], acts[j - 1], run[j], name, Bodies(run[i].leases, name));
    }
  }

  /** Right after an admission the group has at most as many bodies in flight as its limit. */
  lemma AdmissionIsWithin(run: seq<Pool>, acts: seq<Act>, i: nat)
    requires IsRun(run, acts) && i < |acts| && acts[i].Grant?
    ensures acts[i].chosen < |acts[i].es|
    ensures var name := acts[i].es[acts[i].chosen].group;
            name in run[i + 1].groups && Bodies(run[i + 1].leases, name) <= run[i + 1].groups[name].maxInflight
  {
    EgressPoolRuns.RunKeepsInv(run, acts, i);
    var p, a := run[i], acts[i];
    assert Next(p, a, run[i + 1]);
    var name := a.es[a.chosen].group;
    hide PoolInv, IsRun;
    GrantIsWithin(p, a.es, a.now, a.first, a.chosen, run[i + 1], name, Bodies(p.leases, name));
  }

  // ---------------------------------------------------------------- when to try again

  lemma TryIs(p: Pool, e: Endpoint, now: Time, later: Time)
    requires PoolInv(p) && p.clock <= now <= later
    ensures var t := NextTry(GroupOf(p.groups, e), now);
            && (Ready(p, e, now) ==> t == now + SECOND)
            && (!Ready(p, e, now) ==> t > now && (t <= later <==> Ready(p, e, later)))
  {
    var g := GroupOf(p.groups, e);
    GroupIs(p, e, now);
    GroupIs(p, e, later);
    RoomIs(g, now);
    RoomIs(g, later);
    AvailableAt(g, now);
    AvailableAt(g, later);
    hide Available, Pruned;
  }

  /** A refused request is told when to try again: as long as nothing else happens, that instant has
      come exactly when some endpoint that was not ready is, or, if one is ready and lacks a body,
      after a second. */
  lemma RetryIsInTime(run: seq<Pool>, acts: seq<Act>, i: nat, es: seq<Endpoint>, now: Time, next: Time, later: Time)
    requires IsRun(run, acts) && i < |acts| && acts[i] == Refuse(es, now, next) && now <= later
    ensures next > now && (es == [] ==> next == now + SECOND)
    ensures var p := run[i];
            es != [] ==>
              (next <= later <==>
               exists e :: e in es && if Ready(p, e, now) then later >= now + SECOND else Ready(p, e, later))
  {
    EgressPoolRuns.RunKeepsInv(run, acts, i);
    var p := run[i];
    assert Next(p, acts[i], run[i + 1]);
    forall e ensures var t := NextTry(GroupOf(p.groups, e), now);
                     && (Ready(p, e, now) ==> t == now + SECOND)
                     && (!Ready(p, e, now) ==> t > now && (t <= later <==> Ready(p, e, later)))
    {
      TryIs(p, e, now, later);
    }
    hide IsRun, PoolInv, Ready, NextTry, PrunedOnly, Roomy, GroupOf;
  }

  // ---------------------------------------------------------------- cooldowns

  predicate CooledUntil(p: Pool, name: string, until: Time) { name in p.groups && p.groups[name].cooldown >= until }

  lemma {:induction false} ConfigureKeepsCooldown(gs: map<string, Group>, es: seq<Endpoint>, name: string)
    requires name in gs
    ensures name in Reconfigured(gs, es) && Reconfigured(gs, es)[name].cooldown == gs[name].cooldown
  {
    if es != [] { ConfigureKeepsCooldown(gs, es[..|es| - 1], name); }
  }

  lemma NextKeepsCooldown(p: Pool, act: Act, q: Pool, name: string, until: Time)
    requires Next(p, act, q) && CooledUntil(p, name, until)
    ensures CooledUntil(q, name, until)
  {
    match act
    case Refuse(_, _, _) => hide DropOld, Roomy, NextTry;
    case Grant(es, now, first, chosen) =>
      hide DropOld, Roomy, Turn;
      var e := es[chosen];
      var back := q.groups[e.group := GroupOf(p.groups, e)];
      assert name in back;
      if name != e.group { assert q.groups[name] == back[name]; }
    case Send(_) =>
    case Free(_) =>
    case Cool(_, _) =>
    case Configure(es) => ConfigureKeepsCooldown(p.groups, es, name);
  }

  lemma {:induction false} CooldownStays(run: seq<Pool>, acts: seq<Act>, i: nat, j: nat, name: string, until: Time)
    requires IsRun(run, acts) && i <= j < |run| && CooledUntil(run[i], name, until)
    ensures CooledUntil(run[j], name, until)
  {
    hide Next, CooledUntil;
    if i < j {
      CooldownStays(run, acts, i, j - 1, name, until);
      NextKeepsCooldown(run[j - 1], acts[j - 1], run[j], name, until);
    }
  }

  /** Over every run: once a group is cooled until some time it admits nothing before, whatever other
      cooldowns, releases and configurations come in between. */
  lemma CooldownIsEnforced(run: seq<Pool>, acts: seq<Act>, i: nat, j: nat, name: string, until: Time)
    requires IsRun(run, acts) && i < j < |acts| && acts[i] == Act.Cool(name, until)
    requires acts[j].Grant? && acts[j].chosen < |acts[j].es| && acts[j].es[acts[j].chosen].group == name
    ensures acts[j].now >= until
  {
    assert Next(run[i], acts[i], run[i + 1]);
    CooldownStays(run, acts, i + 1, j, name, until);
    AdmittedIff(run, acts, j);
  }
}
