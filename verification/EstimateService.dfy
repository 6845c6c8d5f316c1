/** The ledger as the service keeps it: counters and windows edited in place, saved after each change. */
module EstimateService {
  import opened Common
  import opened EstimateLedger

  class Estimates {
    var keys: map<string, Key>
    var accounts: map<string, Account>
    var activity: map<string, Activity>
    var saved: Option<Ledger>
    var writeError: bool

    constructor ()
      ensures Value() == Ledger(map[], map[]) && activity == map[] && saved.None? && !writeError
    {
      keys, accounts, activity, saved, writeError := map[], map[], map[], None, false;
    }

    function Value(): Ledger
      reads this
    {
      Ledger(keys, accounts)
    }

    method SaveEstimates(written: bool)
      modifies this`saved, this`writeError
      ensures saved == (if written then Some(Value()) else old(saved)) && writeError == !written
    {
      if written {
        saved, writeError := Some(Value()), false;
      } else {
        writeError := true;
      }
    }

    method StartEstimateRequest(key: string)
      modifies this`activity
      ensures activity == Started(old(activity), key)
    {
      if key == "" { return; }
      var a := ActivityIn(activity, key);
      activity := activity[key := Activity(a.revision + 1, a.active + 1)];
    }

    method RecordEstimate(e: Entry, written: bool)
      modifies this
      ensures Value() == Recorded(old(Value()), e) && activity == Finished(old(activity), e.key)
      ensures saved == if e.key == "" || e.skipped || !written then old(saved) else Some(Value())
    {
      if e.key == "" { return; }
      var a := ActivityIn(activity, e.key);
      var active := a.active;
      if active > 0 { active := active - 1; }
      activity := activity[e.key := Activity(a.revision + 1, active)];
      if e.skipped { return; }
      var k := if e.key in keys then keys[e.key] else Key("", ZERO);
      var t := CountEntry(k.totals, e);
      hide Plus, AmountOf;
      keys := keys[e.key := k.(totals := t)];
      SaveEstimates(written);
    }

    method EstimateTotals(account: string) returns (totals: Totals)
      ensures totals == TotalsOf(keys, account)
    {
      hide Plus, Share;
      totals := ZERO;
      PlusZero(TotalsOf(keys, account));
      var rest := keys.Keys;
      while rest != {}
        invariant rest <= keys.Keys && Plus(totals, SumKeys(keys, rest, account)) == TotalsOf(keys, account)
        decreases |rest|
      {
        var k :| k in rest;
        SumKeysAny(keys, rest, account, k);
        PlusInTurn(totals, SumKeys(keys, rest - {k}, account), Share(keys[k], account));
        totals := Plus(totals, Share(keys[k], account));
        rest := rest - {k};
      }
      PlusZero(totals);
    }

    method RebaseEstimateAccount(name: string)
      modifies this`accounts
      ensures accounts == Rebase(old(accounts), name)
    {
      if name !in accounts { return; }
      var a := accounts[name];
      var windows := a.windows;
      var rest := windows.Keys;
      while rest != {}
        invariant windows.Keys == a.windows.Keys && rest <= windows.Keys
        invariant forall x :: x in windows ==>
                    windows[x] == if x in rest then a.windows[x] else a.windows[x].(base := None)
        decreases |rest|
      {
        var x :| x in rest;
        windows := windows[x := windows[x].(base := None)];
        rest := rest - {x};
      }
      assert windows == Unbased(a).windows;
      accounts := accounts[name := a.(windows := windows)];
    }

    method RequestsOverlap(account: string, before: map<string, Activity>) returns (concurrent: bool)
      ensures concurrent == Concurrent(keys, account, before, activity)
    {
      concurrent := false;
      var rest := keys.Keys;
      while rest != {}
        invariant rest <= keys.Keys
        invariant concurrent ==
                  exists k :: k in keys && k !in rest && keys[k].account == account && Overlaps(k, before, activity)
        decreases |rest|
      {
        var k :| k in rest;
        if keys[k].account == account && Overlaps(k, before, activity) {
          concurrent := true;
        }
        rest := rest - {k};
      }
    }

    method BindKey(key: string, account: string, plan: string)
      modifies this`keys, this`accounts
      ensures Value() == Bind(old(Value()), key, account, plan)
    {
      var k := if key in keys then keys[key] else Key("", ZERO);
      var a := if account in accounts then accounts[account] else Account("", map[]);
      if a.plan != plan {
        a := Account(plan, map[]);
      }
      accounts := accounts[account := a];
      if k.account != account {
        RebaseEstimateAccount(account);
        RebaseEstimateAccount(k.account);
        k := k.(account := account);
      }
      keys := keys[key := k];
    }

    method CalibrateEstimate(key: string, r: Reading, before: map<string, Activity>, written: bool)
      modifies this
      ensures Value() == Calibrated(old(Value()), key, r, before, activity) && activity == old(activity)
      ensures saved == if r.account == "" || !written then old(saved) else Some(Value())
    {
      if r.account == "" { return; }
      hide TotalsOf, Concurrent;
      BindNames(Value(), key, r.account, r.plan);
      BindKey(key, r.account, r.plan);
      hide Bind;
      var concurrent := RequestsOverlap(r.account, before);
      var totals := EstimateTotals(r.account);
      var windows := AdjustWindows(accounts[r.account].windows, r.limits, totals, r.at, concurrent);
      accounts := accounts[r.account := accounts[r.account].(windows := windows)];
      SaveEstimates(written);
    }

    /** Pending intervals do not survive a restart: activity may have been missed. */
    method LoadEstimates(found: bool, kept: bool)
      modifies this`keys, this`accounts, this`activity, this`writeError
      ensures Value() == if found && saved.Some? then Restarted(saved.value) else Ledger(map[], map[])
      ensures activity == if kept then old(activity) else map[]
    {
      keys, accounts := map[], map[];
      if found && saved.Some? {
        keys, accounts := saved.value.keys, saved.value.accounts;
      } else {
        writeError := writeError || saved.Some?;
      }
      ghost var loaded := accounts;
      var rest := accounts.Keys;
      while rest != {}
        invariant activity == old(activity) && keys == (if found && saved.Some? then saved.value.keys else map[])
        invariant accounts.Keys == loaded.Keys && rest <= accounts.Keys
        invariant forall a :: a in accounts ==> accounts[a] == if a in rest then loaded[a] else Unbased(loaded[a])
        decreases |rest|
      {
        var a :| a in rest;
        RebaseEstimateAccount(a);
        rest := rest - {a};
      }
      assert accounts == Restarted(Ledger(keys, loaded)).accounts;
      if !kept { activity := map[]; }
    }
  }

  /** What a response did report counts as known; whatever may be missing is counted beside it. */
  method CountEntry(known: Totals, e: Entry) returns (t: Totals)
    ensures t == Plus(known, AmountOf(e))
  {
    t := known;
    if e.price.None? || e.status < 200 || e.status >= 300 || e.attempts != 1 {
      t := t.(unknown := t.unknown + 1);
    }
    if e.price.Some? && e.attempts == 1 {
      t := t.(low := t.low + e.price.value.low, high := t.high + e.price.value.high,
              tokens := t.tokens + e.tokens, requests := t.requests + 1);
    }
  }

  lemma PlusInTurn(a: Totals, b: Totals, c: Totals)
    ensures Plus(a, Plus(b, c)) == Plus(Plus(a, c), b)
  {}

  method AdjustWindows(before: map<Kind, Window>, limits: seq<Limit>, totals: Totals, now: Time, concurrent: bool)
    returns (windows: map<Kind, Window>)
    ensures windows == AdjustAll(before, limits, totals, now, concurrent)
  {
    hide Adjust;
    windows := before;
    for n := 0 to |limits|
      invariant windows == AdjustAll(before, limits[..n], totals, now, concurrent)
    {
      assert limits[..n + 1][..n] == limits[..n];
      var l := limits[n];
      var w := AdjustWindow(WindowIn(windows, l.kind), l, totals, now, concurrent);
      windows := WithWindow(windows, l.kind, w);
    }
    assert limits[..|limits|] == limits;
  }

  /** One quota reading against one window. */
  method AdjustWindow(known: Option<Window>, l: Limit, totals: Totals, now: Time, concurrent: bool)
    returns (r: Option<Window>)
    ensures r == Adjust(known, l, totals, now, concurrent).window
  {
    if l.kind != FiveHour && l.kind != Weekly { return known; }
    if l.percent.None? || l.reset.None? || l.reset.value <= now || l.percent.value < 0.0
      || l.percent.value > 100.0 { return known; }
    var p := l.percent.value;
    if known.Some? && known.value.updated != 0 && now <= known.value.updated { return known; }
    var w;
    if known.None? || !SameReset(known.value.reset, l.reset.value) || known.value.reset <= now
      || p < known.value.lastPercent {
      w := NextWindow(known, l.reset.value);
    } else {
      w := known.value;
    }
    w := w.(lastPercent := p, updated := now);
    var base := Baseline(p, now, totals, concurrent);
    if w.base.None? { return Some(w.(base := Some(base))); }
    var b := w.base.value;
    if now - b.at > ROLLING && l.kind == FiveHour { return Some(w.(base := Some(base))); }
    var delta, low, high := p - b.percent, totals.low - b.totals.low, totals.high - b.totals.high;
    var incomplete := totals.unknown - b.totals.unknown;
    if delta > 0.0 && high <= 0 {
      if concurrent { return Some(w); }
      return Some(w.(base := Some(base)));
    }
    if p >= 100.0 { return Some(w.(base := Some(base))); }
    if delta < 2.0 {
      if delta >= 1.0 {
        var spent := Totals(low, high, totals.tokens - b.totals.tokens, totals.requests - b.totals.requests,
                            incomplete);
        w := w.(preliminary := Some(Sample(spent, delta, 1, if b.concurrent || concurrent then 1 else 0, now, true)));
      }
      return Some(w);
    }
    var s := w.spent;
    w := w.(spent := Totals(s.low + low, s.high + high, s.tokens + (totals.tokens - b.totals.tokens),
                            s.requests + (totals.requests - b.totals.requests), s.unknown + incomplete),
            delta := w.delta + delta, samples := w.samples + 1, calibratedAt := now, previous := None,
            preliminary := None);
    if b.concurrent || concurrent {
      w := w.(concurrentSamples := w.concurrentSamples + 1);
    }
    return Some(w.(base := Some(base)));
  }
}
