/**
 What one reading, one request and one binding do to the ledger, told from the window, the reading
 and the counters alone; and over runs, which readings are marked as overlapping requests.
 */
module EstimateReadings {
  import opened Common
  import opened EstimateLedger
  import opened EstimateRuns

  // ---------------------------------------------------------------- one reading

  /** The reading can be used for its window and is newer than what the window has. */
  predicate Fresh(w: Option<Window>, l: Limit, now: Time) {
    && l.kind in {FiveHour, Weekly} && l.percent.Some? && l.reset.Some?
    && 0.0 <= l.percent.value <= 100.0 && now < l.reset.value
    && (w.Some? && w.value.updated != 0 ==> w.value.updated < now)
  }

  /** It is of the cycle the window is in: the same reset to two seconds, still ahead, and no less used up. */
  predicate SameCycle(w: Option<Window>, l: Limit, now: Time) {
    && w.Some? && l.percent.Some? && l.reset.Some?
    && w.value.reset - 2 * SECOND <= l.reset.value <= w.value.reset + 2 * SECOND && now < w.value.reset
    && w.value.lastPercent <= l.percent.value
  }

  /** What has been used up, and charged, since the baseline. */
  function Growth(b: Baseline, l: Limit): real
    requires l.percent.Some?
  {
    l.percent.value - b.percent
  }

  predicate Charged(b: Baseline, totals: Totals) { b.totals.high < totals.high }

  /** A five-hour window can only be compared over five hours. */
  predicate Spans(b: Baseline, l: Limit, now: Time) { l.kind == FiveHour ==> now <= b.at + 5 * HOUR }

  /** The reading can be compared with a baseline of the same cycle. */
  predicate Compares(w: Option<Window>, l: Limit, totals: Totals, now: Time) {
    && Fresh(w, l, now) && SameCycle(w, l, now) && w.value.base.Some?
    && var b := w.value.base.value;
       Spans(b, l, now) && Charged(b, totals) && l.percent.value < 100.0
  }

  predicate Earns(w: Option<Window>, l: Limit, totals: Totals, now: Time) {
    Compares(w, l, totals, now) && Growth(w.value.base.value, l) >= 2.0
  }

  predicate Previews(w: Option<Window>, l: Limit, totals: Totals, now: Time) {
    Compares(w, l, totals, now) && 1.0 <= Growth(w.value.base.value, l) < 2.0
  }

  function Either(a: bool, b: bool): nat { if a || b then 1 else 0 }

  /** The window after an accepted sample. */
  predicate Extended(w: Window, v: Window, l: Limit, totals: Totals, now: Time, concurrent: bool)
    requires w.base.Some? && l.percent.Some?
  {
    var b := w.base.value;
    && v.spent == Plus(w.spent, Minus(totals, b.totals)) && v.delta == w.delta + Growth(b, l)
    && v.samples == w.samples + 1 && v.concurrentSamples == w.concurrentSamples + Either(b.concurrent, concurrent)
    && v.calibratedAt == now && v.previous.None? && v.preliminary.None? && v.reset == w.reset
  }

  predicate SameSamples(w: Window, v: Window) {
    && v.spent == w.spent && v.delta == w.delta && v.samples == w.samples && v.calibratedAt == w.calibratedAt
    && v.concurrentSamples == w.concurrentSamples && v.previous == w.previous && v.reset == w.reset
  }

  /** A window of a new cycle: nothing accepted yet, and what the last cycle showed. */
  predicate Begun(w: Option<Window>, v: Window, l: Limit) {
    && l.reset.Some? && v.reset == l.reset.value && v.spent == ZERO && v.delta == 0.0 && v.samples == 0
    && v.concurrentSamples == 0 && v.calibratedAt == 0 && v.preliminary.None?
    && v.previous == if w.Some? then DisplaySample(w.value) else None
  }

  /** Exactly when a reading is accepted as a sample, and what it adds: the growth, and just the charges
      since the baseline. No other reading changes the samples of a cycle; one of another cycle begins
      that. */
  lemma AcceptedIff(w: Option<Window>, l: Limit, totals: Totals, now: Time, concurrent: bool)
    ensures var r := Adjust(w, l, totals, now, concurrent);
            && (r.action == Accepted <==> Earns(w, l, totals, now))
            && (!Fresh(w, l, now) ==> r.window == w)
            && (Fresh(w, l, now) ==>
                  && r.window.Some?
                  && var v := r.window.value;
                  && v.updated == now && v.lastPercent == l.percent.value
                  && if Earns(w, l, totals, now) then Extended(w.value, v, l, totals, now, concurrent)
                     else if SameCycle(w, l, now) then SameSamples(w.value, v)
                     else Begun(w, v, l))
  {}

  /** Exactly when a reading previews a sample, and with what. */
  lemma PreviewIff(w: Option<Window>, l: Limit, totals: Totals, now: Time, concurrent: bool)
    requires Fresh(w, l, now) && SameCycle(w, l, now) && !Earns(w, l, totals, now)
    ensures var v := Adjust(w, l, totals, now, concurrent).window.value;
            v.preliminary ==
            if Previews(w, l, totals, now)
            then
              var b := w.value.base.value;
              Some(Sample(Minus(totals, b.totals), Growth(b, l), 1, Either(b.concurrent, concurrent), now, true))
            else w.value.preliminary
  {}

  /** The growth is not to be trusted as a measure of the charges: it took too long, nothing was charged
      and nothing is under way, or the limit is used up. While requests are under way growth without
      charges is waited out. */
  predicate Spoilt(b: Baseline, l: Limit, totals: Totals, now: Time, concurrent: bool)
    requires l.percent.Some?
  {
    var unpaid := Growth(b, l) > 0.0 && !Charged(b, totals);
    !Spans(b, l, now) || (unpaid && !concurrent) || (l.percent.value >= 100.0 && !(unpaid && concurrent))
  }

  /** Exactly when the next sample is measured from this reading on. */
  lemma BaselineMovesIff(w: Option<Window>, l: Limit, totals: Totals, now: Time, concurrent: bool)
    requires Fresh(w, l, now)
    ensures var v := Adjust(w, l, totals, now, concurrent).window.value;
            v.base == if !SameCycle(w, l, now) || w.value.base.None? || Earns(w, l, totals, now)
                         || Spoilt(w.value.base.value, l, totals, now, concurrent)
                      then Some(Baseline(l.percent.value, now, totals, concurrent))
                      else w.value.base
  {}

  predicate Only(limits: seq<Limit>, i: nat)
    requires i < |limits|
  {
    forall j :: 0 <= j < |limits| && j != i ==> limits[j].kind != limits[i].kind
  }

  /** A reading of several limits: each kind it reports once is compared with its own window, and the
      windows of kinds it does not report stay. */
  lemma {:induction false} EveryLimitIsRead(windows: map<Kind, Window>, limits: seq<Limit>, totals: Totals, now: Time,
                                            concurrent: bool, x: Kind)
    ensures var t := AdjustAll(windows, limits, totals, now, concurrent);
            && ((forall i :: 0 <= i < |limits| ==> limits[i].kind != x) ==> WindowIn(t, x) == WindowIn(windows, x))
            && forall i :: 0 <= i < |limits| && limits[i].kind == x && Only(limits, i) ==>
                 WindowIn(t, x) == Adjust(WindowIn(windows, x), limits[i], totals, now, concurrent).window
  {
    hide Adjust;
    if limits != [] {
      var n := |limits| - 1;
      EveryLimitIsRead(windows, limits[..n], totals, now, concurrent, x);
      assert forall i :: 0 <= i < n ==> limits[..n][i] == limits[i];
      forall i | 0 <= i < |limits| && limits[i].kind == x && Only(limits, i)
        ensures WindowIn(AdjustAll(windows, limits, totals, now, concurrent), x)
                == Adjust(WindowIn(windows, x), limits[i], totals, now, concurrent).window
      {
        if i < n {
          assert limits[n].kind != x && Only(limits[..n], i);
        } else {
          assert forall j :: 0 <= j < n ==> limits[j].kind != x;
          AdjustKnows(WindowIn(windows, x), limits[n], totals, now, concurrent);
        }
      }
    }
  }

  lemma AdjustKnows(w: Option<Window>, l: Limit, totals: Totals, now: Time, concurrent: bool)
    ensures w.Some? ==> Adjust(w, l, totals, now, concurrent).window.Some?
  {}

  // ---------------------------------------------------------------- what is shown

  predicate Calibrates(s: Option<Sample>) { s.Some? && !s.value.preliminary }

  /** What a window shows: all accepted samples of its cycle together, if there are any; or else what an
      earlier cycle established; or else a preview, rather than an earlier cycle's preview. */
  lemma ShownIs(w: Window)
    requires PercentInv(w)
    ensures var shown := DisplaySample(w);
            if w.samples > 0 then
              && Calibrates(shown) && shown.value.spent == w.spent && shown.value.delta == w.delta
              && shown.value.samples == w.samples && shown.value.concurrentSamples == w.concurrentSamples
            else if Calibrates(w.previous) then shown == w.previous
            else if w.preliminary.Some? then shown == w.preliminary
            else shown == w.previous
  {}

  /** An accepted sample is shown at once, with all of its cycle's charges and growth; and once a window
      shows such an estimate it never again shows a preliminary one or none, in this cycle or the next. */
  lemma ShownStays(w: Option<Window>, l: Limit, totals: Totals, now: Time, concurrent: bool)
    requires w.Some? ==> PercentInv(w.value)
    ensures var r := Adjust(w, l, totals, now, concurrent);
            && (w.Some? && Calibrates(DisplaySample(w.value)) ==>
                  r.window.Some? && Calibrates(DisplaySample(r.window.value)))
            && (r.action == Accepted ==>
                  && w.Some? && w.value.base.Some?
                  && var v, b := r.window.value, w.value.base.value;
                  DisplaySample(v) == Some(Sample(Plus(w.value.spent, Minus(totals, b.totals)),
                                                  w.value.delta + Growth(b, l), w.value.samples + 1,
                                                  w.value.concurrentSamples + Either(b.concurrent, concurrent),
                                                  if now == 0 then v.updated else now, false)))
  {}

  /** A new cycle and a restart show what was shown before. */
  lemma ShownOutlives(l: Ledger, a: string, x: Kind, reset: Time)
    requires a in l.accounts && x in l.accounts[a].windows
    ensures var w := l.accounts[a].windows[x];
            && DisplaySample(NextWindow(Some(w), reset)) == DisplaySample(w)
            && a in Restarted(l).accounts && x in Restarted(l).accounts[a].windows
            && DisplaySample(Restarted(l).accounts[a].windows[x]) == DisplaySample(w)
            && Restarted(l).accounts[a].windows[x] == w.(base := None)
    ensures Restarted(l).keys == l.keys && Restarted(l).accounts.Keys == l.accounts.Keys
    ensures Restarted(l).accounts[a].windows.Keys == l.accounts[a].windows.Keys
            && Restarted(l).accounts[a].plan == l.accounts[a].plan
  {}

  // ---------------------------------------------------------------- one request

  /** Sent once, answered well, and of known cost. */
  predicate Clean(e: Entry) { e.attempts == 1 && 200 <= e.status <= 299 && e.price.Some? }

  /** Charged just what it cost if it was sent once and that is known, and not at all otherwise; noted as
      unknown unless it is clean. */
  predicate Charges(was: Totals, t: Totals, e: Entry) {
    && t.unknown == was.unknown + (if Clean(e) then 0 else 1)
    && if e.attempts == 1 && e.price.Some?
       then && t.requests == was.requests + 1 && t.tokens == was.tokens + e.tokens
            && t.low == was.low + e.price.value.low && t.high == was.high + e.price.value.high
       else t.requests == was.requests && t.tokens == was.tokens && t.low == was.low && t.high == was.high
  }

  /** Every request shows in a count of its key, as known, unknown or both, and in nothing else. */
  lemma EveryRequestCounts(l: Ledger, e: Entry)
    requires e.key != "" && !e.skipped
    ensures var was, now := KeyIn(l.keys, e.key), KeyIn(Recorded(l, e).keys, e.key);
            && Charges(was.totals, now.totals, e) && now.account == was.account
            && now.totals.requests + now.totals.unknown > was.totals.requests + was.totals.unknown
    ensures forall k :: k != e.key ==> KeyIn(Recorded(l, e).keys, k) == KeyIn(l.keys, k)
    ensures Recorded(l, e).accounts == l.accounts
  {
    var was := KeyIn(l.keys, e.key);
    ChargeIs(was.totals, e);
    hide AmountOf, Plus, Charges;
  }

  lemma ChargeIs(was: Totals, e: Entry)
    ensures var t := Plus(was, AmountOf(e)); Charges(was, t, e) && t.requests + t.unknown > was.requests + was.unknown
  {}

  // ---------------------------------------------------------------- one binding

  /** A key that is bound keeps its counters; accounts keep their windows and samples, but for a new
      plan, and lose their baselines exactly where a key comes or goes. */
  lemma BindingKeeps(l: Ledger, key: string, account: string, plan: string, a: string, x: Kind)
    requires a in l.accounts
    ensures var t, was := Bind(l, key, account, plan), KeyIn(l.keys, key).account;
            && key in t.keys && t.keys[key] == Key(account, KeyIn(l.keys, key).totals)
            && (forall k :: k != key ==> KeyIn(t.keys, k) == KeyIn(l.keys, k))
            && a in t.accounts && t.accounts[a].plan == (if a == account then plan else l.accounts[a].plan)
            && (x in t.accounts[a].windows <==>
                  x in l.accounts[a].windows && (a == account ==> l.accounts[a].plan == plan))
            && (x in t.accounts[a].windows ==>
                  t.accounts[a].windows[x] ==
                  if was != account && (a == account || a == was) then l.accounts[a].windows[x].(base := None)
                  else l.accounts[a].windows[x])
  {}

  // ---------------------------------------------------------------- requests around a reading

  predicate Touches(op: Op, k: string) {
    (op.Start? && op.key == k) || (op.Record? && op.entry.key == k)
  }

  ghost function AfterMore(h: History, ops: seq<Op>): History {
    if ops == [] then h else Step(AfterMore(h, ops[..|ops| - 1]), ops[|ops| - 1])
  }

  predicate Keeps(op: Op) { op.Load? ==> op.kept }

  lemma StepActivity(h: History, op: Op, k: string)
    requires Keeps(op) && k != ""
    ensures var a, b := ActivityIn(h.activity, k), ActivityIn(Step(h, op).activity, k);
            if !Touches(op, k) then b == a
            else
              && b.revision == a.revision + 1
              && b.active == if op.Start? then a.active + 1 else if a.active > 0 then a.active - 1 else 0
  {
    hide Recorded, Reloaded;
    if op.Read? && op.reading.account != "" { ReadKeepsActivity(h, op.key, op.reading, op.before); }
    hide ReadStep;
  }

  lemma ReadKeepsActivity(h: History, k: string, r: Reading, before: map<string, Activity>)
    requires r.account != ""
    ensures ReadStep(h, k, r, before).activity == h.activity
  {
    hide Bind, TrackAll, TotalsOf, Concurrent, Members;
  }

  lemma {:induction false} RevisionGrows(h: History, ops: seq<Op>, k: string)
    requires k != "" && forall op :: op in ops ==> Keeps(op)
    ensures var a, b := ActivityIn(h.activity, k), ActivityIn(AfterMore(h, ops).activity, k);
            if exists op :: op in ops && Touches(op, k) then b.revision > a.revision else b == a
  {
    hide Step, Touches, Keeps;
    if ops != [] {
      var n := |ops| - 1;
      assert ops == ops[..n] + [ops[n]];
      RevisionGrows(h, ops[..n], k);
      StepActivity(AfterMore(h, ops[..n]), ops[n], k);
    }
  }

  /** From a look at the activity to a reading, over any steps between that are no restart: a key counts
      as overlapping the reading exactly if it had a request under way at the look or at the reading,
      or one began or ended in between. */
  lemma OverlapsIff(h: History, ops: seq<Op>, k: string)
    requires k != "" && forall op :: op in ops ==> Keeps(op)
    ensures var before, now := h.activity, AfterMore(h, ops).activity;
            Overlaps(k, before, now) <==>
              || ActivityIn(before, k).active > 0 || ActivityIn(now, k).active > 0
              || exists op :: op in ops && Touches(op, k)
  {
    hide Step, Touches, Keeps;
    RevisionGrows(h, ops, k);
  }

  function Count(ops: seq<Op>, k: string, begun: bool): nat {
    if ops == [] then 0
    else
      var op := ops[|ops| - 1];
      Count(ops[..|ops| - 1], k, begun) + if Touches(op, k) && op.Start? == begun then 1 else 0
  }

  /** No request of the key ends that had not begun. */
  ghost predicate Paired(ops: seq<Op>, k: string) {
    forall n :: 0 <= n <= |ops| ==> Count(ops[..n], k, false) <= Count(ops[..n], k, true)
  }

  /** Over any run without a restart that forgets activity, the requests under way of a key are those
      begun and not ended. */
  lemma {:induction false} ActiveAreUnfinished(ops: seq<Op>, k: string)
    requires k != "" && Paired(ops, k) && forall op :: op in ops ==> Keeps(op)
    ensures ActivityIn(After(ops).activity, k).active == Count(ops, k, true) - Count(ops, k, false)
  {
    hide Step, Touches, Keeps;
    assert ops[..|ops|] == ops;
    if ops != [] {
      var n := |ops| - 1;
      assert ops == ops[..n] + [ops[n]];
      assert forall m :: 0 <= m <= n ==> ops[..n][..m] == ops[..m];
      ActiveAreUnfinished(ops[..n], k);
      StepActivity(After(ops[..n]), ops[n], k);
      TouchIs(ops[n], k);
    }
  }

  lemma TouchIs(op: Op, k: string)
    ensures Touches(op, k) ==> op.Start? || op.Record?
  {}
}
