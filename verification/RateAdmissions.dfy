/**
 Whom the rate limiter admits, told from what was reported to it: limits recorded, probes that
 ended, retreats and resets. No window or epoch is looked at.
 */
module RateAdmissions {
  import opened Common
  import opened RateLimits

  /** What stands against a key: until when, what the latest limit was about, and the serial it has
      gone by since the first one. */
  datatype Bar = Bar(until: Time, scope: string, serial: nat)

  /** A recovery probe of the key has not ended. */
  predicate Probing(w: World, key: RateKey) { exists p :: p in w.open && p in w.leases && w.leases[p].key == key }

  /** The lease is an unfinished probe, and no limit was recorded for its key since its admission. */
  predicate Recovers(w: World, lease: nat)
    requires lease in w.leases
  {
    lease in w.open && lease in w.admittedAt && Count(w, w.leases[lease].key) == w.admittedAt[lease]
  }

  function Known(bars: map<RateKey, Bar>, key: RateKey, serial: nat): Bar {
    if key in bars then bars[key] else Bar(0, "", serial)
  }

  /** What a step makes of the bars. Limits put a bar off or set it up, and so does a probe that ends in
      another fault; a probe's success takes it away, unless a limit came in between. Long after it
      has passed, it is forgotten. A reset lifts it, at once or when the probe under way has ended. */
  function Noted(bars: map<RateKey, Bar>, w: World, op: Op, now: Time): map<RateKey, Bar>
    requires Enabled(w, op, now)
  {
    match op
    case DoAcquire(_) => map k | k in bars && (Probing(w, k) || now <= bars[k].until + IDLE) :: bars[k]
    case DoFinish(lease, ending) =>
      var key := w.leases[lease].key;
      var bar := Known(bars, key, w.limiter.issued);
      if Records(ending) then bars[key := bar.(until := Max(bar.until, ending.retryAt), scope := ending.scope)]
      else if lease !in w.open then bars
      else if ending.Success? then if Recovers(w, lease) then bars - {key} else bars
      else bars[key := bar.(until := Max(bar.until, now + RETREAT))]
    case DoRelease(_) => bars
    case DoReset(credential) =>
      map k | k in bars && (k.credential == credential ==> Probing(w, k)) ::
        if k.credential == credential then bars[k].(until := now) else bars[k]
  }

  function BarsAfter(w: World, bars: map<RateKey, Bar>, events: seq<Event>): map<RateKey, Bar>
    requires Possible(w, events)
    decreases |events|
  {
    if events == [] then bars
    else
      var e := events[0];
      BarsAfter(Step(w, e.op, e.now), Noted(bars, w, e.op, e.now), events[1..])
  }

  // ---------------------------------------------------------------- windows are bars

  predicate IsBar(w: Window, bar: Bar) { bar == Bar(w.retryAt, w.scope, w.serial) }

  ghost predicate Matches(w: World, bars: map<RateKey, Bar>) {
    bars.Keys == w.limiter.windows.Keys && forall k :: k in bars ==> IsBar(w.limiter.windows[k], bars[k])
  }

  lemma SlotIsProbing(w: World, key: RateKey)
    requires Inv(w)
    ensures Probing(w, key) <==> key in w.limiter.windows && w.limiter.windows[key].probe.Some?
  {
    if key in w.limiter.windows { assert ProbeFits(w, key); }
    forall p | p in w.open && p in w.leases && w.leases[p].key == key
      ensures key in w.limiter.windows && w.limiter.windows[key].probe.Some? { assert OpenFits(w, p); }
  }

  lemma OpenIsSlot(w: World, lease: nat)
    requires Inv(w) && lease in w.leases
    ensures lease in w.open <==> HoldsProbe(w.limiter, w.leases[lease])
    ensures lease in w.open ==> lease in w.admittedAt
                                && (Recovers(w, lease) <==>
                                    w.limiter.windows[w.leases[lease].key].epoch == w.leases[lease].epoch)
  {
    var l := w.leases[lease];
    if lease in w.open { assert OpenFits(w, lease); }
    if l.key in w.limiter.windows { assert ProbeFits(w, l.key); }
  }

  lemma AcquiredWindows(s: Limiter, key: RateKey, now: Time)
    ensures var t := Acquire(s, key, now).state.windows;
            && (forall k :: k in t <==> k in s.windows && !Stale(s.windows[k], now))
            && forall k :: k in t ==> t[k].(probe := None) == s.windows[k].(probe := None)
  {}

  lemma AcquireMatches(w: World, bars: map<RateKey, Bar>, key: RateKey, now: Time)
    requires Inv(w) && Matches(w, bars) && Enabled(w, DoAcquire(key), now)
    ensures Matches(Step(w, DoAcquire(key), now), Noted(bars, w, DoAcquire(key), now))
  {
    forall k ensures Probing(w, k) <==> k in w.limiter.windows && w.limiter.windows[k].probe.Some? {
      SlotIsProbing(w, k);
    }
    AcquiredWindows(w.limiter, key, now);
    hide Probing, Inv, Acquire;
    var t, next := Acquire(w.limiter, key, now).state.windows, Noted(bars, w, DoAcquire(key), now);
    forall k ensures k in t <==> k in next { assert k in bars <==> k in w.limiter.windows; }
    assert t.Keys == next.Keys;
  }

  lemma FinishMatches(w: World, bars: map<RateKey, Bar>, lease: nat, ending: Ending, now: Time)
    requires Inv(w) && Matches(w, bars) && Enabled(w, DoFinish(lease, ending), now)
    ensures Matches(Step(w, DoFinish(lease, ending), now), Noted(bars, w, DoFinish(lease, ending), now))
  {
    OpenIsSlot(w, lease);
    var l := w.leases[lease];
    assert HoldsProbe(w.limiter, l) ==> l.key in bars;
    FinishedWindows(w.limiter, l, ending, now);
    hide Probing, Inv, Recovers, Finish, HoldsProbe;
    var t, next := Finish(w.limiter, l, ending, now).windows, Noted(bars, w, DoFinish(lease, ending), now);
    forall k ensures (k in t <==> k in next) && (k in t ==> IsBar(t[k], next[k])) {
      assert k in bars <==> k in w.limiter.windows;
    }
    assert t.Keys == next.Keys;
  }

  /** What the end of a lease does to the windows: its key's alone may change, or go. */
  lemma FinishedWindows(s: Limiter, l: Lease, ending: Ending, now: Time)
    ensures var t, slot := Finish(s, l, ending, now).windows, HoldsProbe(s, l);
            var bar := if l.key in s.windows then s.windows[l.key] else Window(s.issued, 0, "", None, 0);
            var kept := l.key in t && t[l.key].serial == bar.serial;
            && (forall k :: k != l.key ==> (k in t <==> k in s.windows) && (k in t ==> t[k] == s.windows[k]))
            && if Records(ending) then kept && t[l.key].retryAt == Max(bar.retryAt, ending.retryAt)
                                       && t[l.key].scope == ending.scope
               else if !slot then t == s.windows
               else if !ending.Success? then kept && t[l.key].retryAt == Max(bar.retryAt, now + RETREAT)
                                             && t[l.key].scope == bar.scope
               else if bar.epoch == l.epoch then l.key !in t
               else kept && t[l.key].retryAt == bar.retryAt && t[l.key].scope == bar.scope
  {}

  lemma ResetMatches(w: World, bars: map<RateKey, Bar>, credential: string, now: Time)
    requires Inv(w) && Matches(w, bars) && Enabled(w, DoReset(credential), now)
    ensures Matches(Step(w, DoReset(credential), now), Noted(bars, w, DoReset(credential), now))
  {
    forall k ensures Probing(w, k) <==> k in w.limiter.windows && w.limiter.windows[k].probe.Some? {
      SlotIsProbing(w, k);
    }
    hide Probing, Inv;
  }

  lemma StepMatches(w: World, bars: map<RateKey, Bar>, op: Op, now: Time)
    requires Inv(w) && Matches(w, bars) && Enabled(w, op, now)
    ensures Matches(Step(w, op, now), Noted(bars, w, op, now))
  {
    match op {
      case DoAcquire(key) => AcquireMatches(w, bars, key, now);
      case DoFinish(lease, ending) => FinishMatches(w, bars, lease, ending, now);
      case DoRelease(lease) =>
      case DoReset(credential) => ResetMatches(w, bars, credential, now);
    }
  }

  lemma {:induction false} RunMatches(w: World, bars: map<RateKey, Bar>, events: seq<Event>)
    requires Inv(w) && Matches(w, bars) && Possible(w, events)
    ensures Inv(After(w, events)) && Matches(After(w, events), BarsAfter(w, bars, events))
    decreases |events|
  {
    hide Inv, Matches, Step, Noted, Enabled;
    if events != [] {
      var e := events[0];
      StepKeepsInv(w, e.op, e.now);
      StepMatches(w, bars, e.op, e.now);
      RunMatches(Step(w, e.op, e.now), Noted(bars, w, e.op, e.now), events[1..]);
    }
  }

  // ---------------------------------------------------------------- whom it admits

  lemma OpenIsIssued(w: World, p: nat)
    requires Inv(w) && p in w.open
    ensures p < w.limiter.issued
  {
    assert OpenFits(w, p);
  }

  /** Over every run: a request is admitted if and only if nothing stands against its key any more and
      no probe of it is under way. It is a probe itself exactly when a bar has passed that is not
      forgotten yet. A refusal names the bar, or asks to come back in a second while a probe runs. */
  lemma AdmittedIff(events: seq<Event>, key: RateKey, now: Time)
    requires Possible(Fresh(), events) && now >= After(Fresh(), events).clock
    ensures var w, bars := After(Fresh(), events), BarsAfter(Fresh(), map[], events);
            var a := Acquire(w.limiter, key, now);
            var barred := key in bars && now < bars[key].until;
            && (a.lease.Some? <==> !barred && !Probing(w, key))
            && (a.lease.Some? ==> a.refusal.None? && a.lease.value.key == key && a.lease.value.serial !in w.leases)
            && (a.lease.Some? ==>
                  (a.lease.value.serial in Step(w, DoAcquire(key), now).open
                   <==> key in bars && now <= bars[key].until + IDLE))
            && (a.lease.None? ==>
                  && key in bars
                  && a.refusal == Some(Refusal(if barred then bars[key].until else now + SECOND, bars[key].scope,
                                               bars[key].serial)))
  {
    RunMatches(Fresh(), map[], events);
    var w := After(Fresh(), events);
    SlotIsProbing(w, key);
    forall p | p in w.open ensures p < w.limiter.issued { OpenIsIssued(w, p); }
  }

  /** The event reports a limit for the key. */
  predicate Limits(w: World, e: Event, key: RateKey) {
    e.op.DoFinish? && Records(e.op.ending) && e.op.lease in w.leases && w.leases[e.op.lease].key == key
  }

  ghost predicate NeverLimited(w: World, events: seq<Event>, key: RateKey)
    requires Possible(w, events)
    decreases |events|
  {
    events != [] ==> !Limits(w, events[0], key) && NeverLimited(Step(w, events[0].op, events[0].now), events[1..], key)
  }

  lemma {:induction false} NoBar(w: World, bars: map<RateKey, Bar>, events: seq<Event>, key: RateKey)
    requires Inv(w) && Matches(w, bars) && Possible(w, events) && NeverLimited(w, events, key) && key !in bars
    ensures key !in BarsAfter(w, bars, events)
    decreases |events|
  {
    hide Inv, Matches, Step, Probing;
    if events != [] {
      var e := events[0];
      StepKeepsInv(w, e.op, e.now);
      StepMatches(w, bars, e.op, e.now);
      if e.op.DoFinish? && e.op.lease in w.open { OpenHasBar(w, bars, e.op.lease); }
      NoBar(Step(w, e.op, e.now), Noted(bars, w, e.op, e.now), events[1..], key);
    }
  }

  lemma OpenHasBar(w: World, bars: map<RateKey, Bar>, lease: nat)
    requires Inv(w) && Matches(w, bars) && lease in w.leases && lease in w.open
    ensures w.leases[lease].key in bars
  {
    assert OpenFits(w, lease);
  }

  /** A key for which no limit was ever reported is always admitted. */
  lemma UnlimitedIsAdmitted(events: seq<Event>, key: RateKey, now: Time)
    requires Possible(Fresh(), events) && NeverLimited(Fresh(), events, key) && now >= After(Fresh(), events).clock
    ensures Acquire(After(Fresh(), events).limiter, key, now).lease.Some?
  {
    var w := After(Fresh(), events);
    NoBar(Fresh(), map[], events, key);
    RunMatches(Fresh(), map[], events);
    AdmittedIff(events, key, now);
    SlotIsProbing(w, key);
  }

  /** How a request ends, over every run. A success takes the bar away exactly if it is that of an
      unfinished probe without a limit since. A fault of the limit's kind puts the bar off, to what it
      reports or, for a probe, to a little later. Any other fault leaves all bars as they are, and the
      key without a probe if this was the one. */
  lemma RequestEnds(events: seq<Event>, lease: nat, ending: Ending, cooldown: bool, now: Time)
    requires Possible(Fresh(), events) && lease in After(Fresh(), events).leases
    requires now >= After(Fresh(), events).clock
    ensures var w, bars := After(Fresh(), events), BarsAfter(Fresh(), map[], events);
            var key := w.leases[lease].key;
            var t := FinishRequest(w.limiter, w.leases[lease], ending, cooldown, now).windows;
            && (forall k :: k != key ==> (k in t <==> k in bars) && (k in bars ==> IsBar(t[k], bars[k])))
            && (ending.Success? ==> (key in t <==> key in bars && !Recovers(w, lease)))
            && (!ending.Success? && !cooldown ==>
                  (key in t <==> key in bars) && (key in t ==> IsBar(t[key], bars[key])))
            && (cooldown && Records(ending) ==>
                  key in t && t[key].retryAt >= ending.retryAt && t[key].scope == ending.scope)
            && (cooldown && !ending.Success? && !Records(ending) && lease in w.open ==>
                  key in t && t[key].retryAt >= now + RETREAT)
            && (lease in w.open && key in t ==> t[key].probe.None?)
  {
    RunMatches(Fresh(), map[], events);
    OpenIsSlot(After(Fresh(), events), lease);
    hide Probing, Inv, Recovers, Step, Noted;
  }
}
