/**
 The quota estimate ledger as values: counters per key, windows per account. A window compares
 two quota readings with what its account's keys spent between them.
 */
module EstimateLedger {
  import opened Common

  /** Money in whole micro-units; percentages are real. */
  datatype Totals = Totals(low: int, high: int, tokens: int, requests: int, unknown: int)

  const ZERO := Totals(0, 0, 0, 0, 0)

  function Plus(a: Totals, b: Totals): Totals {
    Totals(a.low + b.low, a.high + b.high, a.tokens + b.tokens, a.requests + b.requests, a.unknown + b.unknown)
  }

  function Minus(a: Totals, b: Totals): Totals {
    Totals(a.low - b.low, a.high - b.high, a.tokens - b.tokens, a.requests - b.requests, a.unknown - b.unknown)
  }

  lemma PlusZero(a: Totals)
    ensures Plus(ZERO, a) == a == Plus(a, ZERO)
  {}

  predicate AtMost(a: Totals, b: Totals) {
    a.low <= b.low && a.high <= b.high && a.tokens <= b.tokens && a.requests <= b.requests && a.unknown <= b.unknown
  }

  datatype Key = Key(account: string, totals: Totals)

  datatype Baseline = Baseline(percent: real, at: Time, totals: Totals, concurrent: bool)

  /** `spent.unknown` counts requests whose usage is incomplete. */
  datatype Sample = Sample(spent: Totals, delta: real, samples: nat, concurrentSamples: nat, updated: Time,
                           preliminary: bool)

  datatype Window = Window(
    reset: Time, base: Option<Baseline>, spent: Totals, delta: real, samples: nat, lastPercent: real, updated: Time,
    concurrentSamples: nat, calibratedAt: Time, previous: Option<Sample>, preliminary: Option<Sample>)

  datatype Kind = FiveHour | Weekly | OtherKind

  datatype Account = Account(plan: string, windows: map<Kind, Window>)

  datatype Ledger = Ledger(keys: map<string, Key>, accounts: map<string, Account>)

  datatype Activity = Activity(revision: nat, active: nat)

  const IDLE := Activity(0, 0)

  datatype Price = Price(low: nat, high: nat)

  /** What a finished request reports; `price` is absent when its cost is not known. */
  datatype Entry = Entry(key: string, skipped: bool, price: Option<Price>, status: int, attempts: nat, tokens: nat)

  datatype Limit = Limit(kind: Kind, percent: Option<real>, reset: Option<Time>)

  /** A successful quota reading that names its account. */
  datatype Reading = Reading(account: string, plan: string, at: Time, limits: seq<Limit>)

  // ---------------------------------------------------------------- requests

  function AmountOf(e: Entry): Totals {
    var priced := e.price.Some? && e.attempts == 1;
    Totals(if priced then e.price.value.low else 0, if priced then e.price.value.high else 0,
           if priced then e.tokens else 0, if priced then 1 else 0,
           if e.price.None? || e.status < 200 || e.status >= 300 || e.attempts != 1 then 1 else 0)
  }

  function KeyIn(keys: map<string, Key>, k: string): Key { if k in keys then keys[k] else Key("", ZERO) }

  function Recorded(l: Ledger, e: Entry): Ledger {
    if e.key == "" || e.skipped then l
    else
      var k := KeyIn(l.keys, e.key);
      l.(keys := l.keys[e.key := k.(totals := Plus(k.totals, AmountOf(e)))])
  }

  function ActivityIn(activity: map<string, Activity>, k: string): Activity {
    if k in activity then activity[k] else IDLE
  }

  function Started(activity: map<string, Activity>, k: string): map<string, Activity> {
    if k == "" then activity
    else var a := ActivityIn(activity, k); activity[k := Activity(a.revision + 1, a.active + 1)]
  }

  function Finished(activity: map<string, Activity>, k: string): map<string, Activity> {
    if k == "" then activity
    else
      var a := ActivityIn(activity, k);
      activity[k := Activity(a.revision + 1, if a.active > 0 then a.active - 1 else 0)]
  }

  /** The summed counters of an account's keys, of those in `dom`. */
  ghost function SumKeys(keys: map<string, Key>, dom: set<string>, account: string): Totals
    requires dom <= keys.Keys
  {
    if dom == {} then ZERO
    else var k := Pick(dom); Plus(SumKeys(keys, dom - {k}, account), Share(keys[k], account))
  }

  ghost function Pick(dom: set<string>): (k: string)
    requires dom != {}
    ensures k in dom
  {
    var k :| k in dom; k
  }

  function Share(k: Key, account: string): Totals { if k.account == account then k.totals else ZERO }

  lemma {:induction false} SumKeysAny(keys: map<string, Key>, dom: set<string>, account: string, k: string)
    requires k in dom && dom <= keys.Keys
    ensures SumKeys(keys, dom, account) == Plus(SumKeys(keys, dom - {k}, account), Share(keys[k], account))
  {
    hide Share;
    var c := Pick(dom);
    if c != k {
      SumKeysAny(keys, dom - {c}, account, k);
      SumKeysAny(keys, dom - {k}, account, c);
      assert dom - {c} - {k} == dom - {k} - {c};
    }
  }

  ghost function TotalsOf(keys: map<string, Key>, account: string): Totals { SumKeys(keys, keys.Keys, account) }

  // ---------------------------------------------------------------- windows

  const JITTER: int := 2 * SECOND
  const ROLLING: int := 5 * HOUR

  predicate SameReset(a: Time, b: Time) { -JITTER <= a - b <= JITTER }

  function CurrentSample(w: Window): Option<Sample> {
    if w.samples == 0 || w.delta <= w.samples as real then None
    else
      var at := if w.calibratedAt == 0 then w.updated else w.calibratedAt;
      Some(Sample(w.spent, w.delta, w.samples, w.concurrentSamples, at, false))
  }

  function DisplaySample(w: Window): Option<Sample> {
    if CurrentSample(w).Some? then CurrentSample(w)
    else if w.previous.Some? && !w.previous.value.preliminary then w.previous
    else if w.preliminary.Some? then w.preliminary
    else w.previous
  }

  function NextWindow(w: Option<Window>, reset: Time): Window {
    Window(reset, None, ZERO, 0.0, 0, 0.0, 0, 0, 0, if w.Some? then DisplaySample(w.value) else None, None)
  }

  /** What a reading did to a window: nothing, no new baseline, a new baseline, an accepted sample. */
  datatype Action = Untouched | Kept | Rebased | Accepted

  datatype Adjusted = Adjusted(window: Option<Window>, renewed: bool, action: Action)

  predicate Usable(l: Limit, now: Time) {
    && (l.kind == FiveHour || l.kind == Weekly)
    && l.percent.Some? && l.reset.Some? && l.reset.value > now && 0.0 <= l.percent.value <= 100.0
  }

  function Adjust(w: Option<Window>, l: Limit, totals: Totals, now: Time, concurrent: bool): Adjusted {
    if !Usable(l, now) || (w.Some? && w.value.updated != 0 && now <= w.value.updated) then Adjusted(w, false, Untouched)
    else
      var p := l.percent.value;
      var renewed := w.None? || !SameReset(w.value.reset, l.reset.value) || w.value.reset <= now
        || p < w.value.lastPercent;
      var current := if renewed then NextWindow(w, l.reset.value) else w.value;
      var (next, action) := Measure(current.(lastPercent := p, updated := now), l.kind, totals, concurrent);
      Adjusted(Some(next), renewed, action)
  }

  /** Compares the newest reading, already noted in the window, with its baseline. */
  function Measure(w: Window, kind: Kind, totals: Totals, concurrent: bool): (Window, Action) {
    var base := Baseline(w.lastPercent, w.updated, totals, concurrent);
    var rebased := w.(base := Some(base));
    if w.base.None? then (rebased, Rebased)
    else
      var b := w.base.value;
      var delta, spent := w.lastPercent - b.percent, Minus(totals, b.totals);
      var overlapped := if b.concurrent || concurrent then 1 else 0;
      if w.updated - b.at > ROLLING && kind == FiveHour then (rebased, Rebased)
      else if delta > 0.0 && spent.high <= 0 then if concurrent then (w, Kept) else (rebased, Rebased)
      else if w.lastPercent >= 100.0 then (rebased, Rebased)
      else if delta < 1.0 then (w, Kept)
      else if delta < 2.0 then (w.(preliminary := Some(Sample(spent, delta, 1, overlapped, w.updated, true))), Kept)
      else (rebased.(spent := Plus(w.spent, spent), delta := w.delta + delta, samples := w.samples + 1,
                   calibratedAt := w.updated, previous := None, preliminary := None,
                   concurrentSamples := w.concurrentSamples + overlapped), Accepted)
  }

  function WindowIn(windows: map<Kind, Window>, x: Kind): Option<Window> {
    if x in windows then Some(windows[x]) else None
  }

  function WithWindow(windows: map<Kind, Window>, x: Kind, w: Option<Window>): map<Kind, Window> {
    if w.Some? then windows[x := w.value] else windows
  }

  function AdjustAll(windows: map<Kind, Window>, limits: seq<Limit>, totals: Totals, now: Time,
                     concurrent: bool): map<Kind, Window> {
    if limits == [] then windows
    else
      var before := AdjustAll(windows, limits[..|limits| - 1], totals, now, concurrent);
      var l := limits[|limits| - 1];
      WithWindow(before, l.kind, Adjust(WindowIn(before, l.kind), l, totals, now, concurrent).window)
  }

  // ---------------------------------------------------------------- readings

  function Unbased(a: Account): Account {
    a.(windows := map x | x in a.windows :: a.windows[x].(base := None))
  }

  function Rebase(accounts: map<string, Account>, name: string): map<string, Account> {
    if name in accounts then accounts[name := Unbased(accounts[name])] else accounts
  }

  /** Makes the key and the account known to each other; a key that changes accounts ends the
      pending intervals of both, and a new plan drops the account's windows. */
  function Bind(l: Ledger, key: string, account: string, plan: string): Ledger {
    var k := KeyIn(l.keys, key);
    var a := if account in l.accounts then l.accounts[account] else Account("", map[]);
    var accounts := l.accounts[account := if a.plan != plan then Account(plan, map[]) else a];
    Ledger(l.keys[key := k.(account := account)],
           if k.account == account then accounts else Rebase(Rebase(accounts, account), k.account))
  }

  /** Whether a request of the account was under way, started or ended around the reading. */
  predicate Concurrent(keys: map<string, Key>, account: string, before: map<string, Activity>,
                       now: map<string, Activity>)
  {
    exists k :: k in keys && keys[k].account == account && Overlaps(k, before, now)
  }

  predicate Overlaps(k: string, before: map<string, Activity>, now: map<string, Activity>) {
    || ActivityIn(now, k).active > 0 || ActivityIn(before, k).active > 0
    || ActivityIn(now, k).revision != ActivityIn(before, k).revision
  }

  ghost function Calibrated(l: Ledger, key: string, r: Reading, before: map<string, Activity>,
                            now: map<string, Activity>): Ledger
  {
    if r.account == "" then l
    else
      var bound := Bind(l, key, r.account, r.plan);
      var a := bound.accounts[r.account];
      var windows := AdjustAll(a.windows, r.limits, TotalsOf(bound.keys, r.account), r.at,
                               Concurrent(bound.keys, r.account, before, now));
      bound.(accounts := bound.accounts[r.account := a.(windows := windows)])
  }

  /** A restart keeps counters and accepted samples but no pending interval. */
  function Restarted(l: Ledger): Ledger {
    l.(accounts := map a | a in l.accounts :: Unbased(l.accounts[a]))
  }

  lemma BindNames(l: Ledger, key: string, account: string, plan: string)
    ensures account in Bind(l, key, account, plan).accounts
  {}
}
