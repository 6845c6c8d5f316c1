/**
 One egress group as values: a rolling minute of reservations, an in-flight count and a
 cooldown. Reservations of requests that were never sent are refunded on release.
 */
module EgressGroups {
  import opened Common

  /** Configuration refuses a rate below one. */
  type Rate = n: int | n >= 1 witness 1

  datatype Group = Group(rpm: Rate, maxInflight: nat, inflight: int, sent: seq<Time>, cooldown: Time)

  predicate Sorted(s: seq<Time>) { forall i, j :: 0 <= i < j < |s| ==> s[i] <= s[j] }

  /** Drops the leading entries that are not after the cutoff. */
  function DropOld(s: seq<Time>, cutoff: Time): seq<Time> {
    if s == [] || s[0] > cutoff then s else DropOld(s[1..], cutoff)
  }

  /** What is left is the end of the list from the first entry after the cutoff. */
  lemma {:induction false} DropOldShape(s: seq<Time>, cutoff: Time)
    ensures var r := DropOld(s, cutoff);
            && |r| <= |s| && r == s[|s| - |r|..] && (r != [] ==> r[0] > cutoff)
            && forall i :: 0 <= i < |s| - |r| ==> s[i] <= cutoff
  {
    if s != [] && s[0] <= cutoff { DropOldShape(s[1..], cutoff); }
  }

  lemma {:induction false} DropOldIs(s: seq<Time>, cutoff: Time, n: nat)
    requires n <= |s| && (forall i :: 0 <= i < n ==> s[i] <= cutoff) && (n < |s| ==> s[n] > cutoff)
    ensures DropOld(s, cutoff) == s[n..]
  {
    if n > 0 {
      DropOldIs(s[1..], cutoff, n - 1);
    }
  }

  function Pruned(g: Group, now: Time): Group { g.(sent := DropOld(g.sent, now - MINUTE)) }

  /** When cooldown and request rate next allow an admission, for a group pruned at that time. */
  function Available(g: Group): Time
  {
    if |g.sent| >= g.rpm then Max(g.cooldown, g.sent[|g.sent| - g.rpm] + MINUTE) else g.cooldown
  }

  predicate HasRoom(g: Group, now: Time)
  {
    Available(Pruned(g, now)) <= now && g.inflight < g.maxInflight
  }

  function Admitted(g: Group, now: Time): Group {
    var p := Pruned(g, now);
    p.(inflight := p.inflight + 1, sent := p.sent + [now])
  }

  function RemoveFirst(s: seq<Time>, t: Time): seq<Time> {
    if s == [] then [] else if s[0] == t then s[1..] else [s[0]] + RemoveFirst(s[1..], t)
  }

  function Released(g: Group, reserved: Time, wasSent: bool): Group {
    g.(inflight := g.inflight - 1, sent := if wasSent then g.sent else RemoveFirst(g.sent, reserved))
  }

  // ---------------------------------------------------------------- when a group admits again

  /** Fewer than n entries survive a cutoff exactly when the n-th newest does not. */
  lemma RateFrom(s: seq<Time>, n: nat, cutoff: Time)
    requires Sorted(s) && 1 <= n
    ensures |DropOld(s, cutoff)| < n <==> |s| < n || s[|s| - n] <= cutoff
    ensures var r := DropOld(s, cutoff); |r| >= n ==> r[|r| - n] == s[|s| - n]
  {
    DropOldShape(s, cutoff);
    var r := DropOld(s, cutoff);
    if |r| >= n {
      assert s[|s| - |r|] <= s[|s| - n];
    }
  }

  lemma AvailableAt(g: Group, now: Time)
    requires Sorted(g.sent)
    ensures Available(Pruned(g, now)) ==
            if |g.sent| < g.rpm || g.sent[|g.sent| - g.rpm] <= now - MINUTE then g.cooldown
            else Max(g.cooldown, g.sent[|g.sent| - g.rpm] + MINUTE)
  {
    hide Sorted, DropOld;
    RateFrom(g.sent, g.rpm, now - MINUTE);
  }

  /** With a body to spare in flight, a group that is left alone has room at a later time
      exactly from the computed instant on; this holds as well after the rate was lowered. */
  lemma RoomFromAvailable(g: Group, now: Time, later: Time)
    requires Sorted(g.sent) && now <= later && g.inflight < g.maxInflight
    ensures HasRoom(g, later) <==> later >= Available(Pruned(g, now))
  {
    hide Available, Pruned;
    AvailableAt(g, now);
    AvailableAt(g, later);
  }

  // ---------------------------------------------------------------- a group and its leases over time

  /** A lease in the history of a group: when it was reserved, whether its request was sent and
      its admission released, and the rate in force when it was admitted. */
  datatype Hold = Hold(reserved: Time, sent: bool, released: bool, rpm: Rate)

  /** `cutoff` is the latest instant the group has been pruned to. */
  datatype History = History(group: Group, clock: Time, cutoff: Time, holds: seq<Hold>)

  datatype Op =
    | Look(now: Time)
    | Admit(now: Time)
    | Send(i: nat)
    | Free(i: nat)
    | Cool(until: Time)
    | Limit(rpm: Rate, maxInflight: nat)

  function NewGroup(rpm: Rate, maxInflight: nat): Group { Group(rpm, maxInflight, 0, [], 0) }

  /** A request is only sent while its lease is held. */
  predicate Enabled(h: History, op: Op) {
    match op
    case Look(now) => now >= h.clock
    case Admit(now) => now >= h.clock && HasRoom(h.group, now)
    case Send(i) => i < |h.holds| && !h.holds[i].released
    case Free(i) => i < |h.holds|
    case Cool(_) => true
    case Limit(_, _) => true
  }

  function Step(h: History, op: Op): History
    requires Enabled(h, op)
  {
    match op
    case Look(now) => History(Pruned(h.group, now), now, Max(h.cutoff, now - MINUTE), h.holds)
    case Admit(now) =>
      History(Admitted(h.group, now), now, Max(h.cutoff, now - MINUTE),
              h.holds + [Hold(now, false, false, h.group.rpm)])
    case Send(i) => h.(holds := h.holds[i := h.holds[i].(sent := true)])
    case Free(i) =>
      if h.holds[i].released then h
      else h.(group := Released(h.group, h.holds[i].reserved, h.holds[i].sent),
              holds := h.holds[i := h.holds[i].(released := true)])
    case Cool(until) => h.(group := h.group.(cooldown := Max(h.group.cooldown, until)))
    case Limit(rpm, maxInflight) => h.(group := h.group.(rpm := rpm, maxInflight := maxInflight))
  }

  /** A hold uses up rate unless it was released without having been sent. */
  predicate Counts(x: Hold) { x.sent || !x.released }

  /** The reservations after `lo` that use up rate. */
  function Slots(hs: seq<Hold>, lo: Time): multiset<Time> {
    if hs == [] then multiset{}
    else
      var x := hs[|hs| - 1];
      Slots(hs[..|hs| - 1], lo) + if Counts(x) && x.reserved > lo then multiset{x.reserved} else multiset{}
  }

  function Unreleased(hs: seq<Hold>): nat {
    if hs == [] then 0 else Unreleased(hs[..|hs| - 1]) + if hs[|hs| - 1].released then 0 else 1
  }

  function SentIn(hs: seq<Hold>, lo: Time, hi: Time): nat {
    if hs == [] then 0
    else
      var x := hs[|hs| - 1];
      SentIn(hs[..|hs| - 1], lo, hi) + if x.sent && lo < x.reserved <= hi then 1 else 0
  }

  /** When `holds[j]` was admitted, the minute before it held at most its rate of reservations. */
  ghost predicate WithinRate(hs: seq<Hold>, j: nat)
    requires j < |hs|
  {
    Counts(hs[j]) ==> |Slots(hs[..j + 1], hs[j].reserved - MINUTE)| <= hs[j].rpm
  }

  predicate AtMost(s: seq<Time>, hi: Time) { forall i :: 0 <= i < |s| ==> s[i] <= hi }

  ghost predicate InOrder(hs: seq<Hold>) {
    forall i, j :: 0 <= i < j < |hs| ==> hs[i].reserved <= hs[j].reserved
  }

  ghost predicate Inv(h: History) {
    && Sorted(h.group.sent) && AtMost(h.group.sent, h.clock)
    && h.cutoff <= h.clock - MINUTE
    && multiset(h.group.sent) == Slots(h.holds, h.cutoff)
    && h.group.inflight == Unreleased(h.holds)
    && InOrder(h.holds) && (forall i :: 0 <= i < |h.holds| ==> h.holds[i].reserved <= h.clock)
    && (forall j :: 0 <= j < |h.holds| ==> WithinRate(h.holds, j))
  }

  // ---------------------------------------------------------------- counting

  lemma {:induction false} SlotsAt(hs: seq<Hold>, early: Time, lo: Time, t: Time)
    requires early <= lo
    ensures Slots(hs, lo)[t] == if t > lo then Slots(hs, early)[t] else 0
  {
    if hs != [] { SlotsAt(hs[..|hs| - 1], early, lo, t); }
  }

  lemma NotBelow(s: seq<Time>, lo: Time, t: Time)
    requires Sorted(s) && (s != [] ==> s[0] > lo) && t <= lo
    ensures multiset(s)[t] == 0
  {
    assert forall i :: 0 <= i < |s| ==> s[i] > lo;
    assert t !in s;
  }

  lemma {:induction false} DropOldAt(s: seq<Time>, lo: Time, t: Time)
    requires Sorted(s)
    ensures multiset(DropOld(s, lo))[t] == if t > lo then multiset(s)[t] else 0
  {
    DropOldTail(s, lo);
    hide *;
    if s != [] && s[0] <= lo {
      MultisetOfTail(s);
      SortedTail(s);
      DropOldAt(s[1..], lo, t);
    } else if t <= lo {
      NotBelow(s, lo, t);
    }
  }

  lemma SortedTail(s: seq<Time>)
    requires Sorted(s) && s != []
    ensures Sorted(s[1..])
  {}

  lemma MultisetOfTail(s: seq<Time>)
    requires s != []
    ensures multiset(s) == multiset{s[0]} + multiset(s[1..])
  {
    assert s == [s[0]] + s[1..];
  }

  lemma DropOldTail(s: seq<Time>, lo: Time)
    ensures DropOld(s, lo) == if s != [] && s[0] <= lo then DropOld(s[1..], lo) else s
  {}

  lemma {:induction false} RemoveFirstAs(s: seq<Time>, t: Time)
    ensures multiset(RemoveFirst(s, t)) == multiset(s) - multiset{t}
  {
    if s != [] {
      assert s == [s[0]] + s[1..];
      if s[0] != t { RemoveFirstAs(s[1..], t); }
    }
  }

  lemma {:induction false} RemoveFirstSorted(s: seq<Time>, t: Time)
    requires Sorted(s)
    ensures Sorted(RemoveFirst(s, t))
    ensures RemoveFirst(s, t) != [] ==> s != [] && s[0] <= RemoveFirst(s, t)[0]
  {
    if s != [] && s[0] != t {
      RemoveFirstSorted(s[1..], t);
    }
  }

  lemma {:induction false} SlotsOfUpdateAt(hs: seq<Hold>, i: nat, y: Hold, lo: Time, t: Time)
    requires i < |hs| && y.reserved == hs[i].reserved && (Counts(y) ==> Counts(hs[i]))
    ensures Slots(hs, lo)[t] ==
            Slots(hs[i := y], lo)[t]
            + if Counts(hs[i]) && !Counts(y) && y.reserved > lo && t == y.reserved then 1 else 0
  {
    hide Counts, Slots;
    var n := |hs| - 1;
    SlotsOfLast(hs, lo, t);
    SlotsOfLast(hs[i := y], lo, t);
    if i < n {
      assert hs[i := y][..n] == hs[..n][i := y];
      SlotsOfUpdateAt(hs[..n], i, y, lo, t);
    } else {
      assert hs[i := y][..n] == hs[..n];
    }
  }

  lemma SlotsOfLast(hs: seq<Hold>, lo: Time, t: Time)
    requires hs != []
    ensures var x := hs[|hs| - 1];
            Slots(hs, lo)[t] ==
              Slots(hs[..|hs| - 1], lo)[t] + if Counts(x) && x.reserved > lo && t == x.reserved then 1 else 0
  {
    hide Counts;
  }

  /** Replacing one hold changes the slots by that hold alone. */
  lemma SlotsOfUpdate(hs: seq<Hold>, i: nat, y: Hold, lo: Time)
    requires i < |hs| && y.reserved == hs[i].reserved && (Counts(y) ==> Counts(hs[i]))
    ensures Slots(hs, lo) ==
            Slots(hs[i := y], lo)
            + if Counts(hs[i]) && !Counts(y) && y.reserved > lo then multiset{y.reserved} else multiset{}
  {
    hide Slots, Counts;
    var gone := if Counts(hs[i]) && !Counts(y) && y.reserved > lo then multiset{y.reserved} else multiset{};
    forall t ensures Slots(hs, lo)[t] == (Slots(hs[i := y], lo) + gone)[t] { SlotsOfUpdateAt(hs, i, y, lo, t); }
  }

  lemma {:induction false} UnreleasedOfUpdate(hs: seq<Hold>, i: nat, y: Hold)
    requires i < |hs|
    ensures Unreleased(hs[i := y]) == Unreleased(hs) + (if hs[i].released then 1 else 0) - (if y.released then 1 else 0)
  {
    var n := |hs| - 1;
    if i < n {
      assert hs[i := y][..n] == hs[..n][i := y];
      UnreleasedOfUpdate(hs[..n], i, y);
    } else {
      assert hs[i := y][..n] == hs[..n];
    }
  }

  lemma RateSurvivesUpdate(hs: seq<Hold>, i: nat, y: Hold, j: nat)
    requires i < |hs| && j < |hs| && WithinRate(hs, j)
    requires y.reserved == hs[i].reserved && y.rpm == hs[i].rpm && (Counts(y) ==> Counts(hs[i]))
    ensures WithinRate(hs[i := y], j)
  {
    if i <= j {
      assert hs[i := y][..j + 1] == hs[..j + 1][i := y];
      SlotsOfUpdate(hs[..j + 1], i, y, hs[j].reserved - MINUTE);
    } else {
      assert hs[i := y][..j + 1] == hs[..j + 1];
    }
  }

  // ---------------------------------------------------------------- steps keep the invariant

  lemma {:induction false} PrunedSlots(sent: seq<Time>, hs: seq<Hold>, cutoff: Time, lo: Time)
    requires Sorted(sent) && multiset(sent) == Slots(hs, cutoff) && cutoff <= lo
    ensures multiset(DropOld(sent, lo)) == Slots(hs, lo)
  {
    hide *;
    forall t ensures multiset(DropOld(sent, lo))[t] == Slots(hs, lo)[t] {
      DropOldAt(sent, lo, t);
      SlotsAt(hs, cutoff, lo, t);
    }
  }

  lemma PruneKeepsSlots(h: History, now: Time)
    requires Inv(h) && now >= h.clock
    ensures multiset(Pruned(h.group, now).sent) == Slots(h.holds, now - MINUTE)
    ensures Sorted(Pruned(h.group, now).sent) && AtMost(Pruned(h.group, now).sent, now)
  {
    hide DropOld, Slots, WithinRate, Unreleased, InOrder;
    PrunedSlots(h.group.sent, h.holds, h.cutoff, now - MINUTE);
    DropOldIsSuffix(h.group.sent, now - MINUTE, now);
  }

  lemma DropOldIsSuffix(s: seq<Time>, lo: Time, hi: Time)
    requires Sorted(s) && AtMost(s, hi)
    ensures Sorted(DropOld(s, lo)) && AtMost(DropOld(s, lo), hi)
  {
    DropOldShape(s, lo);
  }

  lemma UpdateKeepsInv(h: History, i: nat, y: Hold, g: Group)
    requires Inv(h) && i < |h.holds|
    requires y.reserved == h.holds[i].reserved && y.rpm == h.holds[i].rpm && (Counts(y) ==> Counts(h.holds[i]))
    requires Sorted(g.sent) && multiset(g.sent) == Slots(h.holds[i := y], h.cutoff)
    requires g.inflight == Unreleased(h.holds[i := y])
    requires multiset(g.sent) <= multiset(h.group.sent)
    ensures Inv(h.(group := g, holds := h.holds[i := y]))
  {
    hide Slots, Unreleased, WithinRate, AtMost, Counts, Sorted, InOrder;
    var hs := h.holds[i := y];
    forall j | 0 <= j < |hs| ensures WithinRate(hs, j) {
      RateSurvivesUpdate(h.holds, i, y, j);
    }
    OrderSurvivesUpdate(h.holds, i, y, h.clock);
    AtMostOfFewer(g.sent, h.group.sent, h.clock);
  }

  lemma OrderSurvivesUpdate(hs: seq<Hold>, i: nat, y: Hold, hi: Time)
    requires i < |hs| && y.reserved == hs[i].reserved && InOrder(hs)
    requires forall j :: 0 <= j < |hs| ==> hs[j].reserved <= hi
    ensures var next := hs[i := y]; InOrder(next) && forall j :: 0 <= j < |next| ==> next[j].reserved <= hi
  {}

  lemma AtMostOfFewer(few: seq<Time>, many: seq<Time>, hi: Time)
    requires multiset(few) <= multiset(many) && AtMost(many, hi)
    ensures AtMost(few, hi)
  {
    forall n | 0 <= n < |few| ensures few[n] <= hi {
      assert few[n] in multiset(few) && few[n] in multiset(many);
    }
  }

  lemma SlotsOfNext(hs: seq<Hold>, x: Hold, lo: Time)
    requires Counts(x) && x.reserved > lo
    ensures Slots(hs + [x], lo) == Slots(hs, lo) + multiset{x.reserved}
    ensures Unreleased(hs + [x]) == Unreleased(hs) + if x.released then 0 else 1
  {
    assert (hs + [x])[..|hs|] == hs;
  }

  lemma OthersWithinRate(hs: seq<Hold>, x: Hold, j: nat)
    requires j < |hs| && WithinRate(hs, j)
    ensures WithinRate(hs + [x], j)
  {
    assert (hs + [x])[..j + 1] == hs[..j + 1];
  }

  lemma {:induction false} NewestWithinRate(hs: seq<Hold>, x: Hold, sent: seq<Time>)
    requires !x.released && |sent| < x.rpm && multiset(sent) == Slots(hs, x.reserved - MINUTE)
    ensures WithinRate(hs + [x], |hs|)
    ensures multiset(sent + [x.reserved]) == Slots(hs + [x], x.reserved - MINUTE)
  {
    hide Slots, WithinRate;
    SlotsOfNext(hs, x, x.reserved - MINUTE);
    MultisetMore(sent, x.reserved);
    LastWithinRate(hs + [x]);
  }

  lemma {:induction false} LastWithinRate(hs: seq<Hold>)
    requires hs != [] && |Slots(hs, hs[|hs| - 1].reserved - MINUTE)| <= hs[|hs| - 1].rpm
    ensures WithinRate(hs, |hs| - 1)
  {
    hide Slots, Counts;
    assert hs[..|hs|] == hs;
  }

  lemma MultisetMore(s: seq<Time>, t: Time)
    ensures multiset(s + [t]) == multiset(s) + multiset{t} && |multiset(s + [t])| == |s| + 1
  {}

  lemma RoomMeansFewer(g: Group, now: Time)
    requires Sorted(g.sent) && HasRoom(g, now)
    ensures |Pruned(g, now).sent| < g.rpm
  {
    RateFrom(g.sent, g.rpm, now - MINUTE);
    AvailableAt(g, now);
  }

  lemma AllWithinRate(hs: seq<Hold>, x: Hold)
    requires WithinRate(hs + [x], |hs|)
    requires forall j :: 0 <= j < |hs| ==> WithinRate(hs, j)
    ensures forall j :: 0 <= j < |hs + [x]| ==> WithinRate(hs + [x], j)
  {
    hide WithinRate;
    forall j | 0 <= j < |hs + [x]| ensures WithinRate(hs + [x], j) {
      if j < |hs| { OthersWithinRate(hs, x, j); }
    }
  }

  lemma AdmitKeepsInv(h: History, now: Time)
    requires Inv(h) && Enabled(h, Admit(now))
    ensures Inv(Step(h, Admit(now)))
  {
    hide DropOld, HasRoom, Slots, Unreleased, WithinRate, Counts;
    var x := Hold(now, false, false, h.group.rpm);
    var sent := Pruned(h.group, now).sent;
    PruneKeepsSlots(h, now);
    RoomMeansFewer(h.group, now);
    NewestWithinRate(h.holds, x, sent);
    SlotsOfNext(h.holds, x, now - MINUTE);
    AllWithinRate(h.holds, x);
    NextInOrder(sent, h.holds, x);
    hide Sorted, AtMost, InOrder;
  }

  lemma NextInOrder(sent: seq<Time>, hs: seq<Hold>, x: Hold)
    requires Sorted(sent) && AtMost(sent, x.reserved)
    requires InOrder(hs) && forall i :: 0 <= i < |hs| ==> hs[i].reserved <= x.reserved
    ensures Sorted(sent + [x.reserved]) && AtMost(sent + [x.reserved], x.reserved)
    ensures InOrder(hs + [x]) && forall i :: 0 <= i < |hs + [x]| ==> (hs + [x])[i].reserved <= x.reserved
  {}

  lemma LookKeepsInv(h: History, now: Time)
    requires Inv(h) && Enabled(h, Look(now))
    ensures Inv(Step(h, Look(now)))
  {
    hide Slots, WithinRate, Unreleased, DropOld, Sorted, AtMost, InOrder;
    PruneKeepsSlots(h, now);
  }

  lemma FreeKeepsInv(h: History, i: nat)
    requires Inv(h) && i < |h.holds| && !h.holds[i].released
    ensures Inv(Step(h, Free(i)))
  {
    hide Slots, Unreleased, WithinRate, RemoveFirst, AtMost, Sorted, InOrder;
    var x := h.holds[i];
    var y := x.(released := true);
    SlotsOfUpdate(h.holds, i, y, h.cutoff);
    UnreleasedOfUpdate(h.holds, i, y);
    RemoveFirstAs(h.group.sent, x.reserved);
    RemoveFirstSorted(h.group.sent, x.reserved);
    SlotsAt(h.holds, h.cutoff, h.cutoff, x.reserved);
    UpdateKeepsInv(h, i, y, Released(h.group, x.reserved, x.sent));
  }

  lemma StepKeepsInv(h: History, op: Op)
    requires Inv(h) && Enabled(h, op)
    ensures Inv(Step(h, op))
  {
    match op {
      case Look(now) => LookKeepsInv(h, now);
      case Admit(now) => AdmitKeepsInv(h, now);
      case Send(i) =>
        SlotsOfUpdate(h.holds, i, h.holds[i].(sent := true), h.cutoff);
        UnreleasedOfUpdate(h.holds, i, h.holds[i].(sent := true));
        UpdateKeepsInv(h, i, h.holds[i].(sent := true), h.group);
      case Free(i) => if !h.holds[i].released { FreeKeepsInv(h, i); }
      case Cool(_) =>
      case Limit(_, _) =>
    }
  }

  // ---------------------------------------------------------------- every run

  predicate Possible(h: History, ops: seq<Op>)
    decreases |ops|
  {
    ops == [] || (Enabled(h, ops[0]) && Possible(Step(h, ops[0]), ops[1..]))
  }

  function After(h: History, ops: seq<Op>): History
    requires Possible(h, ops)
    decreases |ops|
  {
    if ops == [] then h else After(Step(h, ops[0]), ops[1..])
  }

  lemma {:induction false} RunKeepsInv(h: History, ops: seq<Op>)
    requires Inv(h) && Possible(h, ops)
    ensures Inv(After(h, ops))
    decreases |ops|
  {
    if ops != [] {
      StepKeepsInv(h, ops[0]);
      RunKeepsInv(Step(h, ops[0]), ops[1..]);
    }
  }

  function Start(rpm: Rate, maxInflight: nat, now: Time): History {
    History(NewGroup(rpm, maxInflight), now, now - MINUTE, [])
  }

  /** In every reachable state the in-flight count is the number of unreleased leases, and the
      rolling window holds exactly one slot for every lease that still uses up rate: a refund
      never takes the slot of a sent request, at equal times or after pruning. */
  lemma {:induction false} SlotsAreConserved(rpm: Rate, maxInflight: nat, begin: Time, ops: seq<Op>)
    requires Possible(Start(rpm, maxInflight, begin), ops)
    ensures var h := After(Start(rpm, maxInflight, begin), ops);
            h.group.inflight == Unreleased(h.holds) && multiset(h.group.sent) == Slots(h.holds, h.cutoff)
  {
    RunKeepsInv(Start(rpm, maxInflight, begin), ops);
  }

  lemma {:induction false} SentWithinSlots(hs: seq<Hold>, lo: Time, hi: Time)
    ensures SentIn(hs, lo, hi) <= |Slots(hs, lo)|
  {
    if hs != [] { SentWithinSlots(hs[..|hs| - 1], lo, hi); }
  }

  lemma {:induction false} SlotsShrink(hs: seq<Hold>, lo: Time, late: Time)
    requires lo <= late
    ensures |Slots(hs, late)| <= |Slots(hs, lo)|
  {
    if hs != [] { SlotsShrink(hs[..|hs| - 1], lo, late); }
  }

  lemma SentUpToNewest(hs: seq<Hold>, t: Time, rate: nat)
    requires hs != [] && WithinRate(hs, |hs| - 1)
    requires var x := hs[|hs| - 1]; x.sent && x.reserved <= t && x.rpm <= rate
    ensures SentIn(hs, t - MINUTE, t) <= rate
  {
    assert hs[..|hs|] == hs;
    SentWithinSlots(hs, t - MINUTE, t);
    SlotsShrink(hs, hs[|hs| - 1].reserved - MINUTE, t - MINUTE);
  }

  lemma {:induction false} SentBound(hs: seq<Hold>, t: Time, rate: nat)
    requires forall j :: 0 <= j < |hs| ==> WithinRate(hs, j)
    requires forall j :: 0 <= j < |hs| && hs[j].sent && t - MINUTE < hs[j].reserved <= t ==> hs[j].rpm <= rate
    ensures SentIn(hs, t - MINUTE, t) <= rate
  {
    if hs != [] {
      var n := |hs| - 1;
      if hs[n].sent && t - MINUTE < hs[n].reserved <= t {
        SentUpToNewest(hs, t, rate);
      } else {
        forall j | 0 <= j < n ensures WithinRate(hs[..n], j) {
          assert WithinRate(hs, j) && hs[..n][..j + 1] == hs[..j + 1];
        }
        hide WithinRate;
        SentBound(hs[..n], t, rate);
      }
    }
  }

  /** For every instant t of every run: of the requests that were sent, at most `rate` were
      reserved in the minute up to t, where `rate` bounds the rates those were admitted under. */
  lemma {:induction false} SlidingWindow(rpm: Rate, maxInflight: nat, begin: Time, ops: seq<Op>, t: Time, rate: nat)
    requires Possible(Start(rpm, maxInflight, begin), ops)
    requires var h := After(Start(rpm, maxInflight, begin), ops);
             forall x :: x in h.holds && x.sent && t - MINUTE < x.reserved <= t ==> x.rpm <= rate
    ensures SentIn(After(Start(rpm, maxInflight, begin), ops).holds, t - MINUTE, t) <= rate
  {
    RunKeepsInv(Start(rpm, maxInflight, begin), ops);
    SentBound(After(Start(rpm, maxInflight, begin), ops).holds, t, rate);
  }
}
