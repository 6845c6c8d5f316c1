/**
 The single-probe rate limiter as values: per-key windows that hold a deadline, an epoch
 and the slot of one recovery probe, and what each locked step does to them.
 */
module RateLimits {
  import opened Common

  datatype RateKey = RateKey(credential: string, model: string, fingerprint: string)

  /** How a request ended. `TeamLimit` is an upstream team limit; local ones were never sent. */
  datatype Ending = Success | TeamLimit(local: bool, retryAt: Time, scope: string) | OtherFault

  /** `serial` is the identity of a window or lease object. */
  datatype Window = Window(serial: nat, retryAt: Time, scope: string, probe: Option<nat>, epoch: nat)

  datatype Lease = Lease(serial: nat, key: RateKey, window: Option<nat>, epoch: nat)

  datatype Limiter = Limiter(windows: map<RateKey, Window>, issued: nat)

  /** What a refused request is told: when to try again, what the limit is about, and which window refused it. */
  datatype Refusal = Refusal(until: Time, scope: string, window: nat)

  datatype Admission = Admission(state: Limiter, lease: Option<Lease>, refusal: Option<Refusal>)

  const IDLE: int := 10 * MINUTE
  const RETREAT: int := 5 * SECOND

  predicate Stale(w: Window, now: Time) { w.probe.None? && now - w.retryAt > IDLE }

  function Prune(windows: map<RateKey, Window>, now: Time): map<RateKey, Window> {
    map k | k in windows && !Stale(windows[k], now) :: windows[k]
  }

  /** Stale windows go first; then the key's own window decides. */
  function Acquire(s: Limiter, key: RateKey, now: Time): Admission { Admit(Prune(s.windows, now), s.issued, key, now) }

  function Admit(windows: map<RateKey, Window>, serial: nat, key: RateKey, now: Time): Admission {
    if key !in windows then
      Admission(Limiter(windows, serial + 1), Some(Lease(serial, key, None, 0)), None)
    else
      var w := windows[key];
      if now < w.retryAt then
        Admission(Limiter(windows, serial + 1), None, Some(Refusal(w.retryAt, w.scope, w.serial)))
      else if w.probe.Some? then
        Admission(Limiter(windows, serial + 1), None, Some(Refusal(now + SECOND, w.scope, w.serial)))
      else
        Admission(Limiter(windows[key := w.(probe := Some(serial))], serial + 1),
                  Some(Lease(serial, key, Some(w.serial), w.epoch)), None)
  }

  predicate HoldsProbe(s: Limiter, lease: Lease) {
    && lease.key in s.windows
    && lease.window == Some(s.windows[lease.key].serial)
    && s.windows[lease.key].probe == Some(lease.serial)
  }

  function Finish(s: Limiter, lease: Lease, ending: Ending, now: Time): Limiter {
    var found := lease.key in s.windows;
    if ending.TeamLimit? && !ending.local then
      var w := if found then s.windows[lease.key] else Window(s.issued, 0, "", None, 0);
      Limiter(s.windows[lease.key := w.(
          retryAt := Max(w.retryAt, ending.retryAt), scope := ending.scope, epoch := w.epoch + 1,
          probe := if w.probe == Some(lease.serial) then None else w.probe)],
        if found then s.issued else s.issued + 1)
    else if HoldsProbe(s, lease) then
      var w := s.windows[lease.key];
      if ending.Success? then
        if w.epoch == lease.epoch then s.(windows := s.windows - {lease.key})
        else s.(windows := s.windows[lease.key := w.(probe := None)])
      else
        s.(windows := s.windows[lease.key := w.(probe := None, retryAt := Max(w.retryAt, now + RETREAT))])
    else s
  }

  /** A failure that says nothing about the limit only gives the probe slot back. */
  function Release(s: Limiter, lease: Lease): Limiter {
    if HoldsProbe(s, lease) then
      s.(windows := s.windows[lease.key := s.windows[lease.key].(probe := None)])
    else s
  }

  function FinishRequest(s: Limiter, lease: Lease, ending: Ending, cooldown: bool, now: Time): Limiter {
    if ending.Success? || cooldown then Finish(s, lease, ending, now) else Release(s, lease)
  }

  /** The operator's reset keeps a window whose probe is still running. */
  function Reset(s: Limiter, credential: string, now: Time): Limiter {
    s.(windows := map k | k in s.windows && !(k.credential == credential && s.windows[k].probe.None?) ::
         if k.credential == credential then s.windows[k].(retryAt := now) else s.windows[k])
  }

  /** Recording a limit: the window is made if there is none, and then edited. */
  lemma LimitRecorded(s: Limiter, lease: Lease, ending: Ending, mid: Limiter)
    requires ending.TeamLimit? && !ending.local && lease.key in mid.windows
    requires mid == if lease.key in s.windows then s
                    else Limiter(s.windows[lease.key := Window(s.issued, 0, "", None, 0)], s.issued + 1)
    ensures var w := mid.windows[lease.key];
            forall now :: Finish(s, lease, ending, now) == mid.(windows := mid.windows[lease.key := w.(
              retryAt := Max(w.retryAt, ending.retryAt), scope := ending.scope, epoch := w.epoch + 1,
              probe := if w.probe == Some(lease.serial) then None else w.probe)])
  {
    if lease.key !in s.windows {
      var made := Window(s.issued, Max(0, ending.retryAt), ending.scope, None, 1);
      assert mid.windows[lease.key := made] == s.windows[lease.key := made];
    }
  }

  // ---------------------------------------------------------------- runs

  datatype Op =
    | DoAcquire(key: RateKey)
    | DoFinish(lease: nat, ending: Ending)
    | DoRelease(lease: nat)
    | DoReset(credential: string)

  /** The limiter with what a history of its steps needs to remember: every lease given out
      (`open` are unfinished recovery probes), and per key the latest deadline recorded since
      the last operator reset and the number of limits ever recorded. `admittedAt` is that
      number when a probe was admitted. */
  datatype World = World(
    limiter: Limiter, clock: Time, leases: map<nat, Lease>, open: set<nat>,
    deadline: map<RateKey, Time>, limits: map<RateKey, nat>, admittedAt: map<nat, nat>)

  function Fresh(): World { World(Limiter(map[], 0), 0, map[], {}, map[], map[], map[]) }

  function Count(w: World, key: RateKey): nat { if key in w.limits then w.limits[key] else 0 }

  predicate Records(ending: Ending) { ending.TeamLimit? && !ending.local }

  predicate Enabled(w: World, op: Op, now: Time) {
    now >= w.clock && (op.DoFinish? || op.DoRelease? ==> op.lease in w.leases)
  }

  function Step(w: World, op: Op, now: Time): World
    requires Enabled(w, op, now)
  {
    var at := w.(clock := now);
    match op
    case DoAcquire(key) =>
      var a := Acquire(w.limiter, key, now);
      var next := at.(limiter := a.state);
      if a.lease.None? then next
      else
        var l := a.lease.value;
        next.(leases := w.leases[l.serial := l], open := if l.window.Some? then w.open + {l.serial} else w.open,
              admittedAt := w.admittedAt[l.serial := Count(w, key)])
    case DoFinish(lease, ending) =>
      var l := w.leases[lease];
      var next := at.(limiter := Finish(w.limiter, l, ending, now), open := w.open - {lease});
      if Records(ending) then
        var latest := if l.key in w.deadline then Max(w.deadline[l.key], ending.retryAt) else ending.retryAt;
        next.(deadline := w.deadline[l.key := latest],
              limits := w.limits[l.key := Count(w, l.key) + 1])
      else next
    case DoRelease(lease) =>
      at.(limiter := Release(w.limiter, w.leases[lease]), open := w.open - {lease})
    case DoReset(credential) =>
      at.(limiter := Reset(w.limiter, credential, now),
          deadline := map k | k in w.deadline && k.credential != credential :: w.deadline[k])
  }

  // ---------------------------------------------------------------- the invariant

  /** A deadline still ahead has a window that enforces it. */
  ghost predicate Guarded(w: World) {
    forall k :: k in w.deadline ==>
      w.deadline[k] <= w.clock || (k in w.limiter.windows && w.deadline[k] <= w.limiter.windows[k].retryAt)
  }

  /** The probe in a window's slot: it was admitted to this very window, and while no limit
      was recorded since, the window's deadline has passed. */
  ghost predicate ProbeFits(w: World, k: RateKey)
    requires k in w.limiter.windows
  {
    var win := w.limiter.windows[k];
    win.probe.Some? ==>
      && var p := win.probe.value;
      && p in w.open && p in w.leases && w.leases[p].key == k && w.leases[p].window == Some(win.serial)
      && w.leases[p].epoch <= win.epoch
      && (w.leases[p].epoch == win.epoch ==> win.retryAt <= w.clock)
  }

  /** An unfinished probe is in its window's slot, and epochs count limits since its admission. */
  ghost predicate OpenFits(w: World, p: nat) {
    && p in w.leases && p in w.admittedAt
    && var l := w.leases[p];
    && l.key in w.limiter.windows
    && var win := w.limiter.windows[l.key];
    && win.probe == Some(p) && l.window == Some(win.serial)
    && win.epoch - l.epoch == Count(w, l.key) - w.admittedAt[p]
  }

  ghost predicate Inv(w: World) {
    && Guarded(w)
    && (forall k :: k in w.limiter.windows ==> ProbeFits(w, k))
    && (forall p :: p in w.open ==> OpenFits(w, p))
    && (forall p :: p in w.leases ==> p < w.limiter.issued && w.leases[p].serial == p)
  }

  /** What an acquire does to the windows: stale ones go, and at most the key's own gets a probe. */
  lemma AcquireShape(s: Limiter, key: RateKey, now: Time)
    ensures var a := Acquire(s, key, now);
            var probing := a.lease.Some? && a.lease.value.window.Some?;
            && a.state.issued == s.issued + 1 && a.state.windows.Keys <= s.windows.Keys
            && (forall k :: k in s.windows && k !in a.state.windows ==> Stale(s.windows[k], now))
            && (forall k :: k in a.state.windows && !(k == key && probing) ==> a.state.windows[k] == s.windows[k])
            && (a.lease.Some? ==> a.lease.value.serial == s.issued && a.lease.value.key == key)
            && (probing ==>
                  && key in a.state.windows && s.windows[key].probe.None? && s.windows[key].retryAt <= now
                  && a.state.windows[key] == s.windows[key].(probe := Some(s.issued))
                  && a.lease.value.window == Some(s.windows[key].serial) && a.lease.value.epoch == s.windows[key].epoch)
  {}

  lemma {:induction false} AcquireKeepsProbes(w: World, key: RateKey, now: Time, k: RateKey)
    requires Inv(w) && Enabled(w, DoAcquire(key), now)
    requires k in Step(w, DoAcquire(key), now).limiter.windows
    ensures ProbeFits(Step(w, DoAcquire(key), now), k)
  {
    hide OpenFits, Guarded, Stale, Acquire;
    AcquireShape(w.limiter, key, now);
    assert k in w.limiter.windows && ProbeFits(w, k);
  }

  lemma AcquireKeepsOpen(w: World, key: RateKey, now: Time, p: nat)
    requires Inv(w) && Enabled(w, DoAcquire(key), now)
    requires p in Step(w, DoAcquire(key), now).open
    ensures OpenFits(Step(w, DoAcquire(key), now), p)
  {
    hide Acquire, Guarded;
    AcquireShape(w.limiter, key, now);
    if p in w.open {
      assert OpenFits(w, p) && ProbeFits(w, w.leases[p].key);
    }
  }

  lemma {:induction false} AcquireKeepsInv(w: World, key: RateKey, now: Time)
    requires Inv(w) && Enabled(w, DoAcquire(key), now)
    ensures Inv(Step(w, DoAcquire(key), now))
  {
    hide Acquire, ProbeFits, OpenFits;
    AcquireShape(w.limiter, key, now);
    var next := Step(w, DoAcquire(key), now);
    forall k | k in next.limiter.windows ensures ProbeFits(next, k) { AcquireKeepsProbes(w, key, now, k); }
    forall p | p in next.open ensures OpenFits(next, p) { AcquireKeepsOpen(w, key, now, p); }
  }

  lemma FinishKeepsProbes(w: World, lease: nat, ending: Ending, now: Time, k: RateKey)
    requires Inv(w) && Enabled(w, DoFinish(lease, ending), now)
    requires k in Step(w, DoFinish(lease, ending), now).limiter.windows
    ensures ProbeFits(Step(w, DoFinish(lease, ending), now), k)
  {
    hide OpenFits;
    assert k in w.limiter.windows ==> ProbeFits(w, k);
  }

  lemma FinishKeepsOpen(w: World, lease: nat, ending: Ending, now: Time, p: nat)
    requires Inv(w) && Enabled(w, DoFinish(lease, ending), now) && p in w.open && p != lease
    ensures OpenFits(Step(w, DoFinish(lease, ending), now), p)
  {
    assert OpenFits(w, p);
  }

  lemma FinishKeepsInv(w: World, lease: nat, ending: Ending, now: Time)
    requires Inv(w) && Enabled(w, DoFinish(lease, ending), now)
    ensures Inv(Step(w, DoFinish(lease, ending), now))
  {
    var next := Step(w, DoFinish(lease, ending), now);
    forall k | k in next.limiter.windows ensures ProbeFits(next, k) { FinishKeepsProbes(w, lease, ending, now, k); }
    forall p | p in next.open ensures OpenFits(next, p) { FinishKeepsOpen(w, lease, ending, now, p); }
    hide OpenFits;
  }

  lemma StepKeepsInv(w: World, op: Op, now: Time)
    requires Inv(w) && Enabled(w, op, now)
    ensures Inv(Step(w, op, now))
  {
    hide Inv, Step;
    match op {
      case DoAcquire(key) => AcquireKeepsInv(w, key, now);
      case DoFinish(lease, ending) => FinishKeepsInv(w, lease, ending, now);
      case DoRelease(lease) => ReleaseKeepsInv(w, lease, now);
      case DoReset(credential) => ResetKeepsInv(w, credential, now);
    }
  }

  lemma ReleaseKeepsInv(w: World, lease: nat, now: Time)
    requires Inv(w) && Enabled(w, DoRelease(lease), now)
    ensures Inv(Step(w, DoRelease(lease), now))
  {}

  lemma ResetKeepsInv(w: World, credential: string, now: Time)
    requires Inv(w) && Enabled(w, DoReset(credential), now)
    ensures Inv(Step(w, DoReset(credential), now))
  {}

  // ---------------------------------------------------------------- every run

  datatype Event = Event(op: Op, now: Time)

  predicate Possible(w: World, events: seq<Event>)
    decreases |events|
  {
    events == [] || (Enabled(w, events[0].op, events[0].now)
                     && Possible(Step(w, events[0].op, events[0].now), events[1..]))
  }

  function After(w: World, events: seq<Event>): World
    requires Possible(w, events)
    decreases |events|
  {
    if events == [] then w else After(Step(w, events[0].op, events[0].now), events[1..])
  }

  lemma {:induction false} RunKeepsInv(w: World, events: seq<Event>)
    requires Inv(w) && Possible(w, events)
    ensures Inv(After(w, events)) && After(w, events).clock >= w.clock
    decreases |events|
  {
    if events != [] {
      StepKeepsInv(w, events[0].op, events[0].now);
      RunKeepsInv(Step(w, events[0].op, events[0].now), events[1..]);
    }
  }

  predicate Resets(e: Event, credential: string) { e.op == DoReset(credential) }

  predicate HasDeadline(w: World, key: RateKey, at: Time) { key in w.deadline && w.deadline[key] >= at }

  lemma {:induction false} DeadlineStays(w: World, events: seq<Event>, key: RateKey, at: Time)
    requires Possible(w, events) && HasDeadline(w, key, at)
    requires forall e :: e in events ==> !Resets(e, key.credential)
    ensures HasDeadline(After(w, events), key, at)
    decreases |events|
  {
    if events != [] {
      assert events[0] in events;
      assert forall e :: e in events[1..] ==> e in events;
      DeadlineStays(Step(w, events[0].op, events[0].now), events[1..], key, at);
    }
  }

  /** Once a lease has recorded an upstream limit until `at`, every acquire of its key before
      `at` is rejected, whatever leases do in between, unless the operator resets the credential. */
  lemma LimitIsEnforced(before: seq<Event>, lease: nat, at: Time, scope: string, recorded: Time, between: seq<Event>,
                        now: Time)
    requires Possible(Fresh(), before)
    requires var w := After(Fresh(), before);
             Enabled(w, DoFinish(lease, TeamLimit(false, at, scope)), recorded)
             && Possible(Step(w, DoFinish(lease, TeamLimit(false, at, scope)), recorded), between)
             && forall e :: e in between ==> !Resets(e, w.leases[lease].key.credential)
    requires var w := After(Step(After(Fresh(), before), DoFinish(lease, TeamLimit(false, at, scope)), recorded),
                            between);
             w.clock <= now < at
    ensures var w := After(Fresh(), before);
            var key := w.leases[lease].key;
            var last := After(Step(w, DoFinish(lease, TeamLimit(false, at, scope)), recorded), between);
            var a := Acquire(last.limiter, key, now);
            a.lease.None? && a.refusal.Some? && a.refusal.value.until >= at
  {
    var w := After(Fresh(), before);
    var key := w.leases[lease].key;
    RunKeepsInv(Fresh(), before);
    var op := DoFinish(lease, TeamLimit(false, at, scope));
    StepKeepsInv(w, op, recorded);
    var first := Step(w, op, recorded);
    assert HasDeadline(first, key, at);
    RunKeepsInv(first, between);
    DeadlineStays(first, between, key, at);
  }

  /** In every reachable state a key has at most one unfinished recovery probe, and it is the
      one in the window's slot; a second is never admitted. */
  lemma OneProbePerKey(events: seq<Event>, p: nat, now: Time)
    requires Possible(Fresh(), events) && p in After(Fresh(), events).open && p in After(Fresh(), events).leases
    ensures var w := After(Fresh(), events);
            var key := w.leases[p].key;
            && (forall q :: q in w.open && q in w.leases && w.leases[q].key == key ==> q == p)
            && HoldsProbe(w.limiter, w.leases[p])
            && Acquire(w.limiter, key, now).lease.None?
  {
    RunKeepsInv(Fresh(), events);
    var w := After(Fresh(), events);
    assert OpenFits(w, p);
    forall q | q in w.open && q in w.leases && w.leases[q].key == w.leases[p].key ensures q == p {
      assert OpenFits(w, q);
    }
  }

  /** A success removes the window exactly when it ends an unfinished probe and no limit was
      recorded since that probe was admitted. */
  lemma SuccessRemovesIff(events: seq<Event>, lease: nat, now: Time)
    requires Possible(Fresh(), events) && Enabled(After(Fresh(), events), DoFinish(lease, Success), now)
    ensures var w := After(Fresh(), events);
            var key := w.leases[lease].key;
            (key in w.limiter.windows && key !in Finish(w.limiter, w.leases[lease], Success, now).windows)
            <==> (lease in w.open && lease in w.admittedAt && Count(w, key) == w.admittedAt[lease])
  {
    RunKeepsInv(Fresh(), events);
    var w := After(Fresh(), events);
    var l := w.leases[lease];
    if lease in w.open {
      assert OpenFits(w, lease);
    } else if l.key in w.limiter.windows {
      assert ProbeFits(w, l.key);
    }
  }

  lemma {:induction false} ClosedStaysClosed(w: World, events: seq<Event>, lease: nat)
    requires Inv(w) && Possible(w, events) && lease in w.leases && lease !in w.open
    ensures lease in After(w, events).leases && lease !in After(w, events).open
    ensures After(w, events).leases[lease] == w.leases[lease]
    decreases |events|
  {
    hide Inv, Step, Enabled;
    if events != [] {
      StepKeepsInv(w, events[0].op, events[0].now);
      StepKeepsClosed(w, events[0].op, events[0].now, lease);
      ClosedStaysClosed(Step(w, events[0].op, events[0].now), events[1..], lease);
    }
  }

  lemma StepKeepsClosed(w: World, op: Op, now: Time, lease: nat)
    requires Inv(w) && Enabled(w, op, now) && lease in w.leases && lease !in w.open
    ensures var next := Step(w, op, now);
            lease in next.leases && lease !in next.open && next.leases[lease] == w.leases[lease]
  {
    hide Acquire, ProbeFits, OpenFits, Guarded, Finish, Release, Reset;
    if op.DoAcquire? { AcquireShape(w.limiter, op.key, now); }
  }

  /** Finishing a lease that has been finished or released before changes nothing, however
      late it comes and whatever was recorded in between, unless it reports a limit itself. */
  lemma SecondFinishIsSilent(before: seq<Event>, first: Event, lease: nat, between: seq<Event>, ending: Ending,
                             now: Time)
    requires Possible(Fresh(), before) && Enabled(After(Fresh(), before), first.op, first.now)
    requires first.op == DoRelease(lease) || (first.op.DoFinish? && first.op.lease == lease)
    requires Possible(Step(After(Fresh(), before), first.op, first.now), between) && !Records(ending)
    ensures var w := After(Step(After(Fresh(), before), first.op, first.now), between);
            lease in w.leases
              && Finish(w.limiter, w.leases[lease], ending, now) == w.limiter == Release(w.limiter, w.leases[lease])
  {
    RunKeepsInv(Fresh(), before);
    var w := After(Fresh(), before);
    StepKeepsInv(w, first.op, first.now);
    var next := Step(w, first.op, first.now);
    ClosedStaysClosed(next, between, lease);
    RunKeepsInv(next, between);
    var last := After(next, between);
    if last.leases[lease].key in last.limiter.windows {
      assert ProbeFits(last, last.leases[lease].key);
    }
  }
}
