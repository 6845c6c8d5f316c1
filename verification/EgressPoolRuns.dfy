/**
 The pool over whole runs of scans, leases and configuration: every group has a history of its
 own, made of just the leases that were taken from it.
 */
module EgressPoolRuns {
  import opened Common
  import opened EgressGroups
  import opened EgressPool

  /** A lease the pool has given out, and the rate its group then had. */
  datatype Lease = Lease(name: string, reserved: Time, sent: bool, released: bool, rpm: Rate)

  datatype Pool = Pool(groups: map<string, Group>, leases: seq<Lease>, clock: Time)

  /** What the manager's methods and its leases' methods do to the pool, each as its contract says. */
  datatype Act =
    | Refuse(es: seq<Endpoint>, now: Time, next: Time)
    | Grant(es: seq<Endpoint>, now: Time, first: nat, chosen: nat)
    | Send(j: nat)
    | Free(j: nat)
    | Cool(name: string, until: Time)
    | Configure(es: seq<Endpoint>)

  ghost predicate Next(p: Pool, act: Act, q: Pool) {
    match act
    case Refuse(es, now, next) =>
      now >= p.clock && Rejects(p.groups, q.groups, es, now, next) && q.leases == p.leases && q.clock == now
    case Grant(es, now, first, chosen) =>
      && now >= p.clock && Admits(p.groups, q.groups, es, now, first, chosen) && q.clock == now
      && q.leases == p.leases + [Lease(es[chosen].group, now, false, false, GroupOf(p.groups, es[chosen]).rpm)]
    case Send(j) =>
      j < |p.leases| && !p.leases[j].released && q == p.(leases := p.leases[j := p.leases[j].(sent := true)])
    case Free(j) =>
      && j < |p.leases| && p.leases[j].name in p.groups
      && var l := p.leases[j];
         q == if l.released then p
              else p.(groups := p.groups[l.name := Released(p.groups[l.name], l.reserved, l.sent)],
                      leases := p.leases[j := l.(released := true)])
    case Cool(name, until) =>
      && name in p.groups
      && var g := p.groups[name];
         q == p.(groups := p.groups[name := g.(cooldown := Max(g.cooldown, until))])
    case Configure(es) => q == p.(groups := Reconfigured(p.groups, es))
  }

  /** The leases of one group, as its history knows them. */
  function HoldOf(l: Lease): Hold { Hold(l.reserved, l.sent, l.released, l.rpm) }

  function HoldsOf(ls: seq<Lease>, name: string): seq<Hold> {
    if ls == [] then []
    else HoldsOf(ls[..|ls| - 1], name) + if ls[|ls| - 1].name == name then [HoldOf(ls[|ls| - 1])] else []
  }

  ghost predicate HasHistory(g: Group, ls: seq<Lease>, clock: Time, name: string) {
    exists h :: Tracks(h, g, ls, clock, name)
  }

  ghost predicate Tracks(h: History, g: Group, ls: seq<Lease>, clock: Time, name: string) {
    Inv(h) && h.group == g && h.clock <= clock && h.holds == HoldsOf(ls, name)
  }

  ghost predicate PoolInv(p: Pool) {
    && (forall k :: k in p.groups ==> HasHistory(p.groups[k], p.leases, p.clock, k))
    && (forall j :: 0 <= j < |p.leases| ==> p.leases[j].name in p.groups)
  }

  // ---------------------------------------------------------------- leases of a group

  lemma HoldsOfMore(ls: seq<Lease>, l: Lease, name: string)
    ensures HoldsOf(ls + [l], name) == HoldsOf(ls, name) + if l.name == name then [HoldOf(l)] else []
  {
    assert (ls + [l])[..|ls|] == ls;
  }

  lemma {:induction false} NoHolds(ls: seq<Lease>, name: string)
    requires forall j :: 0 <= j < |ls| ==> ls[j].name != name
    ensures HoldsOf(ls, name) == []
  {
    if ls != [] { NoHolds(ls[..|ls| - 1], name); }
  }

  /** Where a lease of the pool is among those of its group. */
  lemma {:induction false} HoldAt(ls: seq<Lease>, j: nat, x: Lease) returns (i: nat)
    requires j < |ls| && x.name == ls[j].name
    ensures i < |HoldsOf(ls, x.name)| && HoldsOf(ls, x.name)[i] == HoldOf(ls[j])
    ensures HoldsOf(ls[j := x], x.name) == HoldsOf(ls, x.name)[i := HoldOf(x)]
  {
    var n := |ls| - 1;
    if j == n {
      i := |HoldsOf(ls[..n], x.name)|;
      assert ls[j := x][..n] == ls[..n];
    } else {
      i := HoldAt(ls[..n], j, x);
      assert ls[j := x][..n] == ls[..n][j := x];
    }
  }

  lemma {:induction false} OtherHolds(ls: seq<Lease>, j: nat, x: Lease, name: string)
    requires j < |ls| && x.name == ls[j].name != name
    ensures HoldsOf(ls[j := x], name) == HoldsOf(ls, name)
  {
    var n := |ls| - 1;
    if j == n {
      assert ls[j := x][..n] == ls[..n];
    } else {
      OtherHolds(ls[..n], j, x, name);
      assert ls[j := x][..n] == ls[..n][j := x];
    }
  }

  // ---------------------------------------------------------------- what an act does to a group

  lemma NewHasHistory(e: Endpoint, ls: seq<Lease>, clock: Time)
    requires forall j :: 0 <= j < |ls| ==> ls[j].name != e.group
    ensures HasHistory(NewGroup(e.rpm, e.maxInflight), ls, clock, e.group)
  {
    NoHolds(ls, e.group);
    assert Tracks(Start(e.rpm, e.maxInflight, clock), NewGroup(e.rpm, e.maxInflight), ls, clock, e.group);
  }

  lemma StepTracks(h: History, op: Op, g: Group, ls: seq<Lease>, clock: Time, name: string, ms: seq<Lease>, later: Time)
    requires Tracks(h, g, ls, clock, name) && Enabled(h, op)
    requires Step(h, op).clock <= later && Step(h, op).holds == HoldsOf(ms, name)
    ensures HasHistory(Step(h, op).group, ms, later, name)
  {
    hide Inv;
    StepKeepsInv(h, op);
    assert Tracks(Step(h, op), Step(h, op).group, ms, later, name);
  }

  lemma LookedAt(g: Group, ls: seq<Lease>, clock: Time, name: string, after: Group, now: Time)
    requires HasHistory(g, ls, clock, name) && now >= clock && (after == g || after == Pruned(g, now))
    ensures HasHistory(after, ls, now, name)
  {
    hide Inv, Pruned;
    var h :| Tracks(h, g, ls, clock, name);
    if after == g {
      assert Tracks(h, g, ls, now, name);
    } else {
      StepTracks(h, EgressGroups.Look(now), g, ls, clock, name, ls, now);
    }
  }

  /** A scan prunes groups or makes new ones, and leaves their leases alone. */
  lemma ScanKeepsHistories(p: Pool, after: map<string, Group>, es: seq<Endpoint>, now: Time, k: string)
    requires PoolInv(p) && PrunedOnly(p.groups, after, es, now) && now >= p.clock && k in after
    ensures HasHistory(after[k], p.leases, now, k)
  {
    hide HasHistory, Pruned;
    if k in p.groups {
      LookedAt(p.groups[k], p.leases, p.clock, k, after[k], now);
    } else {
      var e :| e in es && e.group == k && after[k] == NewGroup(e.rpm, e.maxInflight);
      NewHasHistory(e, p.leases, now);
    }
  }

  lemma GrantKeepsHistory(p: Pool, e: Endpoint, now: Time, l: Lease)
    requires PoolInv(p) && now >= p.clock && HasRoom(GroupOf(p.groups, e), now)
    requires l == Lease(e.group, now, false, false, GroupOf(p.groups, e).rpm)
    ensures HasHistory(Admitted(GroupOf(p.groups, e), now), p.leases + [l], now, e.group)
  {
    hide Inv, HasRoom, Admitted, Pruned;
    var g := GroupOf(p.groups, e);
    if e.group !in p.groups { NewHasHistory(e, p.leases, p.clock); }
    var h :| Tracks(h, g, p.leases, p.clock, e.group);
    HoldsOfMore(p.leases, l, e.group);
    StepTracks(h, EgressGroups.Admit(now), g, p.leases, p.clock, e.group, p.leases + [l], now);
  }

  lemma LeaseKeepsHistory(p: Pool, j: nat, op: Op, x: Lease, after: Group)
    requires PoolInv(p) && j < |p.leases| && x.name == p.leases[j].name && !p.leases[j].released
    requires if op.Send? then x == p.leases[j].(sent := true) && after == p.groups[x.name]
             else op.Free? && x == p.leases[j].(released := true)
                  && after == Released(p.groups[x.name], x.reserved, x.sent)
    ensures HasHistory(after, p.leases[j := x], p.clock, x.name)
  {
    hide Inv, Released;
    var g := p.groups[x.name];
    assert HasHistory(g, p.leases, p.clock, x.name);
    var h :| Tracks(h, g, p.leases, p.clock, x.name);
    var i := HoldAt(p.leases, j, x);
    StepTracks(h, if op.Send? then EgressGroups.Send(i) else EgressGroups.Free(i), g, p.leases, p.clock, x.name,
               p.leases[j := x], p.clock);
  }

  lemma SetKeepsHistory(g: Group, ls: seq<Lease>, clock: Time, name: string, op: Op)
    requires HasHistory(g, ls, clock, name) && (op.Cool? || op.Limit?)
    ensures HasHistory(if op.Cool? then g.(cooldown := Max(g.cooldown, op.until))
                       else g.(rpm := op.rpm, maxInflight := op.maxInflight), ls, clock, name)
  {
    hide Inv;
    var h :| Tracks(h, g, ls, clock, name);
    StepTracks(h, op, g, ls, clock, name, ls, clock);
  }

  lemma {:induction false} ConfigureKeepsHistories(p: Pool, es: seq<Endpoint>)
    requires PoolInv(p)
    ensures PoolInv(p.(groups := Reconfigured(p.groups, es)))
    ensures Reconfigured(p.groups, es).Keys == p.groups.Keys
  {
    hide HasHistory;
    if es != [] {
      var e, before := es[|es| - 1], Reconfigured(p.groups, es[..|es| - 1]);
      ConfigureKeepsHistories(p, es[..|es| - 1]);
      if e.group in before {
        SetKeepsHistory(before[e.group], p.leases, p.clock, e.group, EgressGroups.Limit(e.rpm, e.maxInflight));
      }
    }
  }

  lemma GrantKeepsInv(p: Pool, q: Pool, es: seq<Endpoint>, now: Time, first: nat, chosen: nat)
    requires PoolInv(p) && Next(p, Grant(es, now, first, chosen), q)
    ensures PoolInv(q)
  {
    hide HasHistory, Pruned, HasRoom, Admitted, Turn, Consistent;
    var e := es[chosen];
    var l := Lease(e.group, now, false, false, GroupOf(p.groups, e).rpm);
    var back := q.groups[e.group := GroupOf(p.groups, e)];
    forall k | k in q.groups ensures HasHistory(q.groups[k], q.leases, now, k) {
      if k == e.group {
        GrantKeepsHistory(p, e, now, l);
      } else {
        ScanKeepsHistories(p, back, es, now, k);
        SameHolds(q.groups[k], p.leases, now, k, q.leases, l);
      }
    }
    forall j | 0 <= j < |q.leases| ensures q.leases[j].name in q.groups {
      if j < |p.leases| { assert p.leases[j].name in back; }
    }
  }

  lemma SameHolds(g: Group, ls: seq<Lease>, clock: Time, k: string, ms: seq<Lease>, l: Lease)
    requires HasHistory(g, ls, clock, k) && ms == ls + [l] && l.name != k
    ensures HasHistory(g, ms, clock, k)
  {
    hide Inv;
    HoldsOfMore(ls, l, k);
    var h :| Tracks(h, g, ls, clock, k);
    assert Tracks(h, g, ms, clock, k);
  }

  lemma LeaseActKeepsInv(p: Pool, act: Act, q: Pool)
    requires PoolInv(p) && (act.Send? || act.Free?) && Next(p, act, q)
    ensures PoolInv(q)
  {
    hide HasHistory, Released;
    var j := act.j;
    if !p.leases[j].released {
      var x := q.leases[j];
      LeaseKeepsHistory(p, j, if act.Send? then EgressGroups.Send(0) else EgressGroups.Free(0), x, q.groups[x.name]);
      forall k | k in q.groups && k != x.name ensures HasHistory(q.groups[k], q.leases, q.clock, k) {
        OtherHolds(p.leases, j, x, k);
        SameHistory(p.groups[k], p.leases, p.clock, k, q.leases);
      }
      assert q.leases == p.leases[j := x];
    }
  }

  lemma SameHistory(g: Group, ls: seq<Lease>, clock: Time, k: string, ms: seq<Lease>)
    requires HasHistory(g, ls, clock, k) && HoldsOf(ms, k) == HoldsOf(ls, k)
    ensures HasHistory(g, ms, clock, k)
  {
    hide Inv;
    var h :| Tracks(h, g, ls, clock, k);
    assert Tracks(h, g, ms, clock, k);
  }

  lemma NextKeepsInv(p: Pool, act: Act, q: Pool)
    requires PoolInv(p) && Next(p, act, q)
    ensures PoolInv(q)
  {
    hide HasHistory, Pruned, Roomy, NextTry;
    match act
    case Refuse(es, now, _) =>
      forall k | k in q.groups ensures HasHistory(q.groups[k], q.leases, now, k) {
        ScanKeepsHistories(p, q.groups, es, now, k);
      }
    case Grant(es, now, first, chosen) => GrantKeepsInv(p, q, es, now, first, chosen);
    case Send(_) => LeaseActKeepsInv(p, act, q);
    case Free(_) => LeaseActKeepsInv(p, act, q);
    case Cool(name, until) => SetKeepsHistory(p.groups[name], p.leases, p.clock, name, EgressGroups.Cool(until));
    case Configure(es) => ConfigureKeepsHistories(p, es);
  }

  ghost predicate IsRun(run: seq<Pool>, acts: seq<Act>) {
    && |run| == |acts| + 1 && run[0].groups == map[] && run[0].leases == []
    && forall i, j :: 0 <= i < j < |run| && j == i + 1 ==> Next(run[i], acts[i], run[j])
  }

  lemma {:induction false} RunKeepsInv(run: seq<Pool>, acts: seq<Act>, i: nat)
    requires IsRun(run, acts) && i < |run|
    ensures PoolInv(run[i])
  {
    hide Next;
    if i > 0 {
      RunKeepsInv(run, acts, i - 1);
      NextKeepsInv(run[i - 1], acts[i - 1], run[i]);
    }
  }

  /** In every state of every run of the pool, for every group: bodies in flight are its unreleased
      leases, and in the minute up to any instant at most `rate` of its sent leases were reserved,
      where `rate` bounds the rates those were admitted under. */
  lemma EveryGroupIsSound(run: seq<Pool>, acts: seq<Act>, i: nat, name: string, t: Time, rate: nat)
    requires IsRun(run, acts) && i < |run| && name in run[i].groups
    requires forall l :: l in run[i].leases && l.name == name && l.sent && t - MINUTE < l.reserved <= t ==>
               l.rpm <= rate
    ensures run[i].groups[name].inflight == Unreleased(HoldsOf(run[i].leases, name))
    ensures SentIn(HoldsOf(run[i].leases, name), t - MINUTE, t) <= rate
  {
    hide Next, IsRun;
    RunKeepsInv(run, acts, i);
    var ls := run[i].leases;
    assert HasHistory(run[i].groups[name], ls, run[i].clock, name);
    var h :| Tracks(h, run[i].groups[name], ls, run[i].clock, name);
    forall j | 0 <= j < |h.holds| && h.holds[j].sent && t - MINUTE < h.holds[j].reserved <= t
      ensures h.holds[j].rpm <= rate {
      var l := HoldIsLease(ls, name, j);
    }
    SentBound(h.holds, t, rate);
  }

  lemma {:induction false} HoldIsLease(ls: seq<Lease>, name: string, i: nat) returns (l: Lease)
    requires i < |HoldsOf(ls, name)|
    ensures l in ls && l.name == name && HoldOf(l) == HoldsOf(ls, name)[i]
  {
    var n := |ls| - 1;
    if i < |HoldsOf(ls[..n], name)| { l := HoldIsLease(ls[..n], name, i); } else { l := ls[n]; }
  }
}
