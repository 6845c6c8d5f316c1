/**
 The ledger over whole runs: requests, readings, failed saves and restarts. Every finished
 request is a numbered charge, and the numbers say what a counter, a baseline or an accepted
 sample is made of.
 */
module EstimateRuns {
  import opened Common
  import opened EstimateLedger

  datatype Charge = Charge(key: string, amount: Totals)

  /** The charges a window's baseline has behind it, and those its accepted samples contain. */
  datatype Mark = Mark(covered: set<nat>, entered: set<nat>)

  datatype Taken = Taken(account: string, kind: Kind, ids: set<nat>)

  /** A ledger and what it is made of. */
  datatype Books = Books(ledger: Ledger, held: set<nat>, marks: map<string, map<Kind, Mark>>)

  /** `log` and `accepted` remember all charges and accepted samples, even those a crash loses. */
  datatype History = History(books: Books, activity: map<string, Activity>, log: seq<Charge>, accepted: seq<Taken>,
                             saved: Option<Books>)

  datatype Op =
    | Start(key: string)
    | Record(entry: Entry, written: bool)
    | Read(key: string, reading: Reading, before: map<string, Activity>, written: bool)
    | Load(found: bool, kept: bool)

  // ---------------------------------------------------------------- sums over charges

  function Sum(log: seq<Charge>, ids: set<nat>): Totals {
    if log == [] then ZERO
    else
      var n := |log| - 1;
      Plus(Sum(log[..n], ids), if n in ids then log[n].amount else ZERO)
  }

  lemma {:induction false} SumOfUnion(log: seq<Charge>, a: set<nat>, b: set<nat>)
    requires a !! b
    ensures Sum(log, a + b) == Plus(Sum(log, a), Sum(log, b))
  {
    if log != [] { SumOfUnion(log[..|log| - 1], a, b); }
  }

  lemma {:induction false} SumOfNone(log: seq<Charge>, ids: set<nat>)
    requires forall i :: i in ids ==> i >= |log|
    ensures Sum(log, ids) == ZERO
  {
    if log != [] { SumOfNone(log[..|log| - 1], ids); }
  }

  predicate Sound(log: seq<Charge>) { forall i :: 0 <= i < |log| ==> AtMost(ZERO, log[i].amount) }

  lemma {:induction false} SumIsNatural(log: seq<Charge>, ids: set<nat>)
    requires Sound(log)
    ensures AtMost(ZERO, Sum(log, ids))
  {
    if log != [] { SumIsNatural(log[..|log| - 1], ids); }
  }

  lemma SumOfMore(log: seq<Charge>, c: Charge, ids: set<nat>)
    ensures Sum(log + [c], ids) == Plus(Sum(log, ids), if |log| in ids then c.amount else ZERO)
  {
    assert (log + [c])[..|log|] == log;
  }

  lemma {:induction false} SumWithNew(log: seq<Charge>, c: Charge, ids: set<nat>)
    requires |log| !in ids
    ensures Sum(log + [c], ids) == Sum(log, ids)
    ensures Sum(log + [c], ids + {|log|}) == Plus(Sum(log, ids), c.amount)
  {
    hide Sum;
    SumOfMore(log, c, ids);
    SumOfMore(log, c, ids + {|log|});
    SumOfUnion(log, ids, {|log|});
    SumOfNone(log, {|log|});
  }

  lemma SumOfRest(log: seq<Charge>, part: set<nat>, all: set<nat>)
    requires part <= all && Sound(log)
    ensures Sum(log, all - part) == Minus(Sum(log, all), Sum(log, part))
    ensures AtMost(Sum(log, part), Sum(log, all))
  {
    hide Sum;
    SumOfUnion(log, part, all - part);
    assert part + (all - part) == all;
    SumIsNatural(log, all - part);
  }

  // ---------------------------------------------------------------- what a ledger is made of

  function OfKey(log: seq<Charge>, held: set<nat>, k: string): set<nat> {
    set i | i in held && i < |log| && log[i].key == k
  }

  function Members(keys: map<string, Key>, log: seq<Charge>, held: set<nat>, account: string): set<nat> {
    set i | i in held && i < |log| && log[i].key in keys && keys[log[i].key].account == account
  }

  /** The charges in accepted samples of one kind, over all accounts. */
  function IdsOf(accepted: seq<Taken>, x: Kind): set<nat> {
    if accepted == [] then {}
    else
      var n := |accepted| - 1;
      IdsOf(accepted[..n], x) + if accepted[n].kind == x then accepted[n].ids else {}
  }

  lemma IdsOfMore(accepted: seq<Taken>, t: Taken, x: Kind)
    ensures IdsOf(accepted + [t], x) == IdsOf(accepted, x) + if t.kind == x then t.ids else {}
  {
    assert (accepted + [t])[..|accepted|] == accepted;
  }

  /** No charge is in two accepted samples of the same kind. */
  predicate CountedOnce(accepted: seq<Taken>) {
    forall i, j :: 0 <= i < j < |accepted| && accepted[i].kind == accepted[j].kind ==>
      accepted[i].ids !! accepted[j].ids
  }

  lemma {:induction false} IdsCover(accepted: seq<Taken>, i: nat)
    requires i < |accepted|
    ensures accepted[i].ids <= IdsOf(accepted, accepted[i].kind)
  {
    if i < |accepted| - 1 { IdsCover(accepted[..|accepted| - 1], i); }
  }

  lemma CountedOnceMore(accepted: seq<Taken>, t: Taken)
    requires CountedOnce(accepted) && t.ids !! IdsOf(accepted, t.kind)
    ensures CountedOnce(accepted + [t])
  {
    forall i | 0 <= i < |accepted| && accepted[i].kind == t.kind
      ensures accepted[i].ids !! t.ids { IdsCover(accepted, i); }
  }

  predicate KeysInv(keys: map<string, Key>, log: seq<Charge>, held: set<nat>) {
    && (forall i :: i in held ==> i < |log| && log[i].key in keys)
    && (forall k :: k in keys ==> keys[k].totals == Sum(log, OfKey(log, held, k)))
  }

  /** Accepted intervals of a window do not overlap and are at least two points wide each; a preview says
      that it is one. */
  predicate PercentInv(w: Window) {
    && 2.0 * w.samples as real <= w.delta <= w.lastPercent <= 100.0
    && (w.base.Some? ==> w.delta <= w.base.value.percent <= w.lastPercent)
    && (w.preliminary.Some? ==> w.preliminary.value.preliminary)
  }

  /** The window's totals are its accepted charges; its pending charges were never accepted. */
  predicate WindowInv(w: Window, m: Mark, log: seq<Charge>, members: set<nat>, taken: set<nat>) {
    && w.spent == Sum(log, m.entered) && m.entered <= taken
    && (w.base.Some? ==>
          && m.covered <= members && w.base.value.totals == Sum(log, m.covered)
          && members - m.covered !! taken)
  }

  predicate AccountInv(windows: map<Kind, Window>, marks: map<Kind, Mark>, log: seq<Charge>, members: set<nat>,
                       accepted: seq<Taken>) {
    forall x :: x in windows ==>
      x in marks && PercentInv(windows[x]) && WindowInv(windows[x], marks[x], log, members, IdsOf(accepted, x))
  }

  function MarksOf(marks: map<string, map<Kind, Mark>>, account: string): map<Kind, Mark> {
    if account in marks then marks[account] else map[]
  }

  predicate BooksInv(b: Books, log: seq<Charge>, accepted: seq<Taken>) {
    && KeysInv(b.ledger.keys, log, b.held)
    && (forall a :: a in b.ledger.accounts ==>
          AccountInv(b.ledger.accounts[a].windows, MarksOf(b.marks, a), log, Members(b.ledger.keys, log, b.held, a),
                     accepted))
  }

  function Reloaded(b: Books): Books { b.(ledger := Restarted(b.ledger)) }

  ghost predicate Inv(h: History) {
    && BooksInv(h.books, h.log, h.accepted) && (h.saved.Some? ==> BooksInv(Reloaded(h.saved.value), h.log, h.accepted))
    && AcceptedInv(h.accepted, |h.log|) && Sound(h.log)
  }

  predicate Below(ids: set<nat>, n: nat) { forall i :: i in ids ==> i < n }

  lemma {:induction false} IdsBelow(accepted: seq<Taken>, x: Kind, n: nat)
    requires forall i :: 0 <= i < |accepted| ==> Below(accepted[i].ids, n)
    ensures Below(IdsOf(accepted, x), n)
  {
    if accepted != [] { IdsBelow(accepted[..|accepted| - 1], x, n); }
  }

  /** The counters of an account's keys add up to its charges. */
  lemma {:induction false} TotalsAreCharges(keys: map<string, Key>, log: seq<Charge>, held: set<nat>,
                                            dom: set<string>, account: string)
    requires KeysInv(keys, log, held) && dom <= keys.Keys
    ensures SumKeys(keys, dom, account) == Sum(log, MembersIn(keys, log, held, dom, account))
    decreases |dom|
  {
    hide Sum, Plus;
    if dom == {} {
      SumOfNone(log, {});
      assert MembersIn(keys, log, held, dom, account) == {};
    } else {
      var k := Pick(dom);
      TotalsAreCharges(keys, log, held, dom - {k}, account);
      var rest := MembersIn(keys, log, held, dom - {k}, account);
      MembersOfOneMore(keys, log, held, dom, account, k);
      if keys[k].account == account {
        SumOfUnion(log, rest, OfKey(log, held, k));
      } else {
        PlusZero(Sum(log, rest));
      }
    }
  }

  lemma MembersOfOneMore(keys: map<string, Key>, log: seq<Charge>, held: set<nat>, dom: set<string>, account: string,
                         k: string)
    requires k in dom && k in keys
    ensures var rest, all := MembersIn(keys, log, held, dom - {k}, account), MembersIn(keys, log, held, dom, account);
            && rest !! OfKey(log, held, k)
            && all == if keys[k].account == account then rest + OfKey(log, held, k) else rest
  {}

  function MembersIn(keys: map<string, Key>, log: seq<Charge>, held: set<nat>, dom: set<string>,
                     account: string): set<nat> {
    set i | i in held && i < |log| && log[i].key in dom && log[i].key in keys && keys[log[i].key].account == account
  }

  lemma TotalsOfMembers(keys: map<string, Key>, log: seq<Charge>, held: set<nat>, account: string)
    requires KeysInv(keys, log, held)
    ensures TotalsOf(keys, account) == Sum(log, Members(keys, log, held, account))
  {
    hide Sum, SumKeys;
    TotalsAreCharges(keys, log, held, keys.Keys, account);
    assert MembersIn(keys, log, held, keys.Keys, account) == Members(keys, log, held, account);
  }

  // ---------------------------------------------------------------- one window, one reading

  function NextMark(m: Mark, renewed: bool, action: Action, members: set<nat>): Mark {
    var m := if renewed then Mark({}, {}) else m;
    match action
    case Untouched => m
    case Kept => m
    case Rebased => Mark(members, m.entered)
    case Accepted => Mark(members, m.entered + (members - m.covered))
  }

  lemma AdjustKeepsPercent(w: Option<Window>, l: Limit, totals: Totals, now: Time, concurrent: bool)
    requires w.Some? ==> PercentInv(w.value)
    ensures var r := Adjust(w, l, totals, now, concurrent).window; r.Some? ==> PercentInv(r.value)
  {}

  /** Which charges a reading moves into a window's samples, and that none is moved twice. */
  lemma AdjustKeepsWindow(w: Option<Window>, m: Mark, l: Limit, now: Time, concurrent: bool, log: seq<Charge>,
                          members: set<nat>, taken: set<nat>)
    requires (w.Some? ==> WindowInv(w.value, m, log, members, taken)) && Sound(log)
    ensures var r := Adjust(w, l, Sum(log, members), now, concurrent);
            var next := NextMark(m, r.renewed || w.None?, r.action, members);
            var more := if r.action == Accepted then members - m.covered else {};
            && (r.action == Accepted ==> more !! taken) && (r.action == Accepted || w.Some? ==> r.window.Some?)
            && (r.window.Some? ==> WindowInv(r.window.value, next, log, members, taken + more))
  {
    hide Sum, Sound;
    var totals := Sum(log, members);
    var r := Adjust(w, l, totals, now, concurrent);
    SumOfNone(log, {});
    if r.action == Accepted {
      SumOfRest(log, m.covered, members);
      SumOfUnion(log, m.entered, members - m.covered);
    }
  }

  // ---------------------------------------------------------------- one account, one reading

  datatype Tracked = Tracked(windows: map<Kind, Window>, marks: map<Kind, Mark>, accepted: seq<Taken>)

  function MarkIn(marks: map<Kind, Mark>, x: Kind): Mark { if x in marks then marks[x] else Mark({}, {}) }

  function TrackOne(t: Tracked, account: string, l: Limit, totals: Totals, now: Time, concurrent: bool,
                    members: set<nat>): Tracked {
    var w, m := WindowIn(t.windows, l.kind), MarkIn(t.marks, l.kind);
    var r := Adjust(w, l, totals, now, concurrent);
    Tracked(WithWindow(t.windows, l.kind, r.window),
            t.marks[l.kind := NextMark(m, r.renewed || w.None?, r.action, members)],
            if r.action == Accepted then t.accepted + [Taken(account, l.kind, members - m.covered)] else t.accepted)
  }

  function TrackAll(t: Tracked, account: string, limits: seq<Limit>, totals: Totals, now: Time, concurrent: bool,
                    members: set<nat>): (r: Tracked)
    ensures r.windows == AdjustAll(t.windows, limits, totals, now, concurrent)
  {
    if limits == [] then t
    else
      var n := |limits| - 1;
      TrackOne(TrackAll(t, account, limits[..n], totals, now, concurrent, members), account, limits[n], totals, now,
               concurrent, members)
  }

  /** Everything accepted is disjoint by kind, and numbered below n. */
  ghost predicate AcceptedInv(accepted: seq<Taken>, n: nat) {
    CountedOnce(accepted) && forall i :: 0 <= i < |accepted| ==> Below(accepted[i].ids, n)
  }

  /** What was accepted since concerns only the given members. */
  ghost predicate Since(before: seq<Taken>, after: seq<Taken>, members: set<nat>) {
    forall x :: IdsOf(before, x) <= IdsOf(after, x) <= IdsOf(before, x) + members
  }

  /** Samples accepted in one reading are new, and concern only the given members. */
  lemma TrackOneAccepts(t: Tracked, account: string, l: Limit, now: Time, concurrent: bool, log: seq<Charge>,
                        members: set<nat>)
    requires AccountInv(t.windows, t.marks, log, members, t.accepted) && Sound(log)
    requires AcceptedInv(t.accepted, |log|) && Below(members, |log|)
    ensures var r := TrackOne(t, account, l, Sum(log, members), now, concurrent, members);
            AcceptedInv(r.accepted, |log|) && Since(t.accepted, r.accepted, members)
  {
    hide Sum, Sound, Adjust, NextMark, WindowInv, PercentInv, IdsOf, CountedOnce;
    var w, m, totals := WindowIn(t.windows, l.kind), MarkIn(t.marks, l.kind), Sum(log, members);
    var r := Adjust(w, l, totals, now, concurrent);
    AdjustKeepsWindow(w, m, l, now, concurrent, log, members, IdsOf(t.accepted, l.kind));
    if r.action == Accepted {
      var taken := Taken(account, l.kind, members - m.covered);
      CountedOnceMore(t.accepted, taken);
      MoreIds(t.accepted, taken);
    }
  }

  lemma MoreIds(accepted: seq<Taken>, t: Taken)
    ensures forall x ::
              IdsOf(accepted + [t], x) == if x == t.kind then IdsOf(accepted, x) + t.ids else IdsOf(accepted, x)
  {
    hide IdsOf;
    forall x
      ensures IdsOf(accepted + [t], x) == if x == t.kind then IdsOf(accepted, x) + t.ids else IdsOf(accepted, x)
    {
      IdsOfMore(accepted, t, x);
    }
  }

  lemma TrackOneKeepsWindows(t: Tracked, account: string, l: Limit, now: Time, concurrent: bool, log: seq<Charge>,
                             members: set<nat>)
    requires AccountInv(t.windows, t.marks, log, members, t.accepted) && Sound(log)
    ensures var r := TrackOne(t, account, l, Sum(log, members), now, concurrent, members);
            AccountInv(r.windows, r.marks, log, members, r.accepted)
  {
    hide Sum, Sound, Adjust, NextMark, WindowInv, PercentInv, IdsOf;
    var w, m, totals := WindowIn(t.windows, l.kind), MarkIn(t.marks, l.kind), Sum(log, members);
    var r := Adjust(w, l, totals, now, concurrent);
    AdjustKeepsPercent(w, l, totals, now, concurrent);
    AdjustKeepsWindow(w, m, l, now, concurrent, log, members, IdsOf(t.accepted, l.kind));
    if r.action == Accepted {
      MoreIds(t.accepted, Taken(account, l.kind, members - m.covered));
    } else {
      assert IdsOf(t.accepted, l.kind) + {} == IdsOf(t.accepted, l.kind);
    }
  }

  lemma {:induction false} TrackAllKeepsInv(t: Tracked, account: string, limits: seq<Limit>, now: Time,
                                            concurrent: bool, log: seq<Charge>, members: set<nat>)
    requires AccountInv(t.windows, t.marks, log, members, t.accepted) && Sound(log)
    requires AcceptedInv(t.accepted, |log|) && Below(members, |log|)
    ensures var r := TrackAll(t, account, limits, Sum(log, members), now, concurrent, members);
            && AccountInv(r.windows, r.marks, log, members, r.accepted)
            && AcceptedInv(r.accepted, |log|) && Since(t.accepted, r.accepted, members)
  {
    hide Sum, Sound, TrackOne, AccountInv, AcceptedInv, IdsOf;
    if limits != [] {
      var n := |limits| - 1;
      TrackAllKeepsInv(t, account, limits[..n], now, concurrent, log, members);
      var before := TrackAll(t, account, limits[..n], Sum(log, members), now, concurrent, members);
      TrackOneAccepts(before, account, limits[n], now, concurrent, log, members);
      TrackOneKeepsWindows(before, account, limits[n], now, concurrent, log, members);
    }
  }

  /** Samples of one account leave the windows of another alone. */
  lemma OtherAccounts(windows: map<Kind, Window>, marks: map<Kind, Mark>, log: seq<Charge>, members: set<nat>,
                      before: seq<Taken>, after: seq<Taken>, others: set<nat>)
    requires AccountInv(windows, marks, log, members, before) && Since(before, after, others) && members !! others
    ensures AccountInv(windows, marks, log, members, after)
  {
    hide Sum, IdsOf, PercentInv;
  }

  // ---------------------------------------------------------------- steps

  ghost function Step(h: History, op: Op): History {
    match op
    case Start(k) => h.(activity := Started(h.activity, k))
    case Record(e, written) =>
      if e.key == "" || e.skipped then h.(activity := Finished(h.activity, e.key))
      else
        var books := h.books.(ledger := Recorded(h.books.ledger, e), held := h.books.held + {|h.log|});
        Save(h.(books := books, activity := Finished(h.activity, e.key), log := h.log + [Charge(e.key, AmountOf(e))]),
             written)
    case Read(k, r, before, written) => if r.account == "" then h else Save(ReadStep(h, k, r, before), written)
    case Load(found, kept) =>
      var books := if found && h.saved.Some? then Reloaded(h.saved.value) else Books(Ledger(map[], map[]), {}, map[]);
      h.(books := books, activity := if kept then h.activity else map[])
  }

  function Save(h: History, written: bool): History { if written then h.(saved := Some(h.books)) else h }

  ghost function ReadStep(h: History, k: string, r: Reading, before: map<string, Activity>): History
    requires r.account != ""
    ensures ReadStep(h, k, r, before).books.ledger == Calibrated(h.books.ledger, k, r, before, h.activity)
  {
    var bound := Bind(h.books.ledger, k, r.account, r.plan);
    var a := bound.accounts[r.account];
    var t := TrackAll(Tracked(a.windows, MarksOf(h.books.marks, r.account), h.accepted), r.account, r.limits,
                      TotalsOf(bound.keys, r.account), r.at, Concurrent(bound.keys, r.account, before, h.activity),
                      Members(bound.keys, h.log, h.books.held, r.account));
    h.(books := Books(bound.(accounts := bound.accounts[r.account := a.(windows := t.windows)]), h.books.held,
                      h.books.marks[r.account := t.marks]),
       accepted := t.accepted)
  }

  // ---------------------------------------------------------------- recording

  lemma AmountIsNatural(e: Entry)
    ensures AtMost(ZERO, AmountOf(e))
  {}

  /** A window that stays as it is, when the log grows by a charge that may join its members. */
  lemma WindowOutlivesCharge(w: Window, m: Mark, log: seq<Charge>, c: Charge, members: set<nat>, more: set<nat>,
                             taken: set<nat>)
    requires WindowInv(w, m, log, members, taken) && Below(taken, |log|) && Below(members, |log|)
    requires members <= more <= members + {|log|}
    ensures WindowInv(w, m, log + [c], more, taken)
  {
    hide Sum;
    SumWithNew(log, c, m.entered);
    if w.base.Some? { SumWithNew(log, c, m.covered); }
  }

  lemma AccountOutlivesCharge(windows: map<Kind, Window>, marks: map<Kind, Mark>, log: seq<Charge>, c: Charge,
                              members: set<nat>, more: set<nat>, accepted: seq<Taken>)
    requires AccountInv(windows, marks, log, members, accepted) && AcceptedInv(accepted, |log|)
    requires Below(members, |log|) && members <= more <= members + {|log|}
    ensures AccountInv(windows, marks, log + [c], more, accepted)
  {
    hide WindowInv, PercentInv, IdsOf, Below;
    forall x | x in windows ensures WindowInv(windows[x], marks[x], log + [c], more, IdsOf(accepted, x)) {
      IdsBelow(accepted, x, |log|);
      WindowOutlivesCharge(windows[x], marks[x], log, c, members, more, IdsOf(accepted, x));
    }
  }

  lemma MembersAreBelow(keys: map<string, Key>, log: seq<Charge>, held: set<nat>, account: string)
    ensures Below(Members(keys, log, held, account), |log|)
  {}

  lemma KeysOutliveCharge(keys: map<string, Key>, log: seq<Charge>, c: Charge, held: set<nat>)
    requires KeysInv(keys, log, held)
    ensures KeysInv(keys, log + [c], held)
    ensures forall a :: Members(keys, log + [c], held, a) == Members(keys, log, held, a)
  {
    hide Sum;
    forall k | k in keys ensures keys[k].totals == Sum(log + [c], OfKey(log + [c], held, k)) {
      SumWithNew(log, c, OfKey(log, held, k));
      assert OfKey(log + [c], held, k) == OfKey(log, held, k);
    }
  }

  /** Saved books do not notice what happens after. */
  lemma SavedOutlivesCharge(b: Books, log: seq<Charge>, c: Charge, accepted: seq<Taken>)
    requires BooksInv(b, log, accepted) && AcceptedInv(accepted, |log|)
    ensures BooksInv(b, log + [c], accepted)
  {
    hide KeysInv, AccountInv, Below, AcceptedInv, Members;
    KeysOutliveCharge(b.ledger.keys, log, c, b.held);
    forall a | a in b.ledger.accounts
      ensures AccountInv(b.ledger.accounts[a].windows, MarksOf(b.marks, a), log + [c],
                         Members(b.ledger.keys, log + [c], b.held, a), accepted)
    {
      MembersAreBelow(b.ledger.keys, log, b.held, a);
      AccountOutlivesCharge(b.ledger.accounts[a].windows, MarksOf(b.marks, a), log, c,
                            Members(b.ledger.keys, log, b.held, a),
                            Members(b.ledger.keys, log, b.held, a), accepted);
    }
  }

  lemma RecordedKeys(l: Ledger, e: Entry, log: seq<Charge>, held: set<nat>)
    requires KeysInv(l.keys, log, held) && e.key != "" && !e.skipped
    ensures var c := Charge(e.key, AmountOf(e));
            && KeysInv(Recorded(l, e).keys, log + [c], held + {|log|})
            && forall a :: Members(l.keys, log, held, a) <= Members(Recorded(l, e).keys, log + [c], held + {|log|}, a)
                             <= Members(l.keys, log, held, a) + {|log|}
  {
    hide Sum, Plus;
    var c, keys, more := Charge(e.key, AmountOf(e)), Recorded(l, e).keys, held + {|log|};
    forall k | k in keys ensures keys[k].totals == Sum(log + [c], OfKey(log + [c], more, k)) {
      var was := OfKey(log, held, k);
      SumWithNew(log, c, was);
      assert OfKey(log + [c], more, k) == if k == e.key then was + {|log|} else was;
      if k !in l.keys {
        assert was == {};
        SumOfNone(log, {});
      }
    }
  }

  lemma RecordKeepsInv(h: History, e: Entry, written: bool)
    requires Inv(h)
    ensures Inv(Step(h, Record(e, written)))
  {
    hide KeysInv, AccountInv, Below, AcceptedInv, Members, CountedOnce, Reloaded;
    var next := Step(h, Record(e, written));
    if e.key != "" && !e.skipped {
      var c := Charge(e.key, AmountOf(e));
      AmountIsNatural(e);
      RecordedKeys(h.books.ledger, e, h.log, h.books.held);
      AcceptedBelowMore(h.accepted, |h.log|);
      if h.saved.Some? { SavedOutlivesCharge(Reloaded(h.saved.value), h.log, c, h.accepted); }
      forall a | a in h.books.ledger.accounts
        ensures AccountInv(h.books.ledger.accounts[a].windows, MarksOf(h.books.marks, a), next.log,
                           Members(next.books.ledger.keys, next.log, next.books.held, a), h.accepted)
      {
        MembersAreBelow(h.books.ledger.keys, h.log, h.books.held, a);
        AccountOutlivesCharge(h.books.ledger.accounts[a].windows, MarksOf(h.books.marks, a), h.log, c,
                              Members(h.books.ledger.keys, h.log, h.books.held, a),
                              Members(next.books.ledger.keys, next.log, next.books.held, a), h.accepted);
      }
      ReloadKeepsInv(next.books, next.log, next.accepted);
    }
  }

  lemma AcceptedBelowMore(accepted: seq<Taken>, n: nat)
    requires AcceptedInv(accepted, n)
    ensures AcceptedInv(accepted, n + 1)
  {}

  /** Dropping the pending intervals of some or all windows. */
  lemma ReloadKeepsInv(b: Books, log: seq<Charge>, accepted: seq<Taken>)
    requires BooksInv(b, log, accepted)
    ensures BooksInv(Reloaded(b), log, accepted)
  {
    hide Sum, KeysInv, Members, IdsOf;
  }

  // ---------------------------------------------------------------- reading

  predicate Baseless(windows: map<Kind, Window>) { forall x :: x in windows ==> windows[x].base.None? }

  /** Without a pending interval it does not matter who the members are or what else is accepted. */
  lemma BaselessInv(windows: map<Kind, Window>, marks: map<Kind, Mark>, log: seq<Charge>, members: set<nat>,
                    others: set<nat>,
                    before: seq<Taken>, after: seq<Taken>)
    requires AccountInv(windows, marks, log, members, before) && Baseless(windows)
    requires forall x :: IdsOf(before, x) <= IdsOf(after, x)
    ensures AccountInv(windows, marks, log, others, after)
  {
    hide Sum, IdsOf, PercentInv;
  }

  lemma UnbasedInv(a: Account, marks: map<Kind, Mark>, log: seq<Charge>, members: set<nat>, others: set<nat>,
                   accepted: seq<Taken>)
    requires AccountInv(a.windows, marks, log, members, accepted)
    ensures Baseless(Unbased(a).windows) && AccountInv(Unbased(a).windows, marks, log, others, accepted)
  {
    hide Sum, IdsOf;
  }

  lemma BindKeys(l: Ledger, key: string, account: string, plan: string, log: seq<Charge>, held: set<nat>)
    requires KeysInv(l.keys, log, held) && account != ""
    ensures var keys := Bind(l, key, account, plan).keys;
            && KeysInv(keys, log, held)
            && (forall a ::
                  (KeyIn(l.keys, key).account == account || (a != account && a != KeyIn(l.keys, key).account)) ==>
                  Members(keys, log, held, a) == Members(l.keys, log, held, a))
  {
    hide Sum;
    var keys := Bind(l, key, account, plan).keys;
    if key !in l.keys {
      assert OfKey(log, held, key) == {};
      SumOfNone(log, {});
    }
    if KeyIn(l.keys, key).account == account { assert keys == l.keys; }
  }

  /** Every account after a key was bound is as before, or has lost its pending intervals or its windows. */
  lemma BoundAccount(l: Ledger, key: string, account: string, plan: string, a: string)
    requires a in Bind(l, key, account, plan).accounts
    ensures var was, after := KeyIn(l.keys, key).account, Bind(l, key, account, plan).accounts[a];
            || after.windows == map[]
            || (a in l.accounts && after.windows == l.accounts[a].windows
                && (was == account || (a != account && a != was)))
            || (a in l.accounts && after.windows == Unbased(l.accounts[a]).windows)
  {}

  lemma BindKeepsInv(b: Books, key: string, account: string, plan: string, log: seq<Charge>, accepted: seq<Taken>)
    requires BooksInv(b, log, accepted) && account != ""
    ensures BooksInv(b.(ledger := Bind(b.ledger, key, account, plan)), log, accepted)
  {
    hide Bind, KeysInv, AccountInv, Members, Unbased;
    var bound := Bind(b.ledger, key, account, plan);
    BindKeys(b.ledger, key, account, plan, log, b.held);
    forall a | a in bound.accounts
      ensures AccountInv(bound.accounts[a].windows, MarksOf(b.marks, a), log, Members(bound.keys, log, b.held, a),
                         accepted)
    {
      BoundAccount(b.ledger, key, account, plan, a);
      if bound.accounts[a].windows == map[] {
        NoWindows(MarksOf(b.marks, a), log, Members(bound.keys, log, b.held, a), accepted);
      } else if bound.accounts[a].windows == Unbased(b.ledger.accounts[a]).windows {
        UnbasedInv(b.ledger.accounts[a], MarksOf(b.marks, a), log, Members(b.ledger.keys, log, b.held, a),
                   Members(bound.keys, log, b.held, a), accepted);
      }
    }
  }

  /** A key that changes accounts ends the pending intervals of both, in every window. */
  lemma BindEndsPending(l: Ledger, key: string, account: string, plan: string, a: string, x: Kind)
    requires KeyIn(l.keys, key).account != account && (a == account || a == KeyIn(l.keys, key).account)
    requires a in Bind(l, key, account, plan).accounts && x in Bind(l, key, account, plan).accounts[a].windows
    ensures Bind(l, key, account, plan).accounts[a].windows[x].base.None?
  {
    BoundAccount(l, key, account, plan, a);
  }

  lemma NoWindows(marks: map<Kind, Mark>, log: seq<Charge>, members: set<nat>, accepted: seq<Taken>)
    ensures AccountInv(map[], marks, log, members, accepted)
  {}

  lemma MembersAreApart(keys: map<string, Key>, log: seq<Charge>, held: set<nat>, a: string, b: string)
    requires a != b
    ensures Members(keys, log, held, a) !! Members(keys, log, held, b)
  {}

  lemma ReloadedIsBaseless(b: Books, a: string)
    requires a in Reloaded(b).ledger.accounts
    ensures Baseless(Reloaded(b).ledger.accounts[a].windows)
  {}

  lemma ReloadedOutlivesSamples(b: Books, log: seq<Charge>, before: seq<Taken>, after: seq<Taken>)
    requires BooksInv(Reloaded(b), log, before) && forall x :: IdsOf(before, x) <= IdsOf(after, x)
    ensures BooksInv(Reloaded(b), log, after)
  {
    hide KeysInv, AccountInv, Members, IdsOf, Reloaded, Baseless;
    var r := Reloaded(b);
    forall a | a in r.ledger.accounts
      ensures AccountInv(r.ledger.accounts[a].windows, MarksOf(r.marks, a), log,
                         Members(r.ledger.keys, log, r.held, a), after)
    {
      ReloadedIsBaseless(b, a);
      var members := Members(r.ledger.keys, log, r.held, a);
      BaselessInv(r.ledger.accounts[a].windows, MarksOf(r.marks, a), log, members, members, before, after);
    }
  }

  lemma ReadStepKeepsInv(h: History, k: string, r: Reading, before: map<string, Activity>)
    requires Inv(h) && r.account != ""
    ensures Inv(ReadStep(h, k, r, before))
  {
    hide Bind, KeysInv, AccountInv, Members, TrackAll, IdsOf, AcceptedInv, Reloaded, TotalsOf, Concurrent, Sum, Sound;
    var bound, held := Bind(h.books.ledger, k, r.account, r.plan), h.books.held;
    var next := ReadStep(h, k, r, before);
    BindKeepsInv(h.books, k, r.account, r.plan, h.log, h.accepted);
    BindNames(h.books.ledger, k, r.account, r.plan);
    var members := Members(bound.keys, h.log, held, r.account);
    TotalsOfMembers(bound.keys, h.log, held, r.account);
    MembersAreBelow(bound.keys, h.log, held, r.account);
    TrackAllKeepsInv(Tracked(bound.accounts[r.account].windows, MarksOf(h.books.marks, r.account), h.accepted),
                     r.account, r.limits, r.at,
                     Concurrent(bound.keys, r.account, before, h.activity), h.log, members);
    forall a | a in bound.accounts && a != r.account
      ensures AccountInv(bound.accounts[a].windows, MarksOf(h.books.marks, a), h.log,
                         Members(bound.keys, h.log, held, a), next.accepted)
    {
      MembersAreApart(bound.keys, h.log, held, a, r.account);
      OtherAccounts(bound.accounts[a].windows, MarksOf(h.books.marks, a), h.log, Members(bound.keys, h.log, held, a),
                    h.accepted, next.accepted, members);
    }
    if h.saved.Some? { ReloadedOutlivesSamples(h.saved.value, h.log, h.accepted, next.accepted); }
  }

  // ---------------------------------------------------------------- runs

  lemma EmptyBooks(log: seq<Charge>, accepted: seq<Taken>)
    ensures BooksInv(Books(Ledger(map[], map[]), {}, map[]), log, accepted)
  {}

  lemma SaveKeepsInv(h: History, written: bool)
    requires Inv(h)
    ensures Inv(Save(h, written))
  {
    hide BooksInv, AcceptedInv, Sound, Reloaded;
    ReloadKeepsInv(h.books, h.log, h.accepted);
  }

  lemma StepKeepsInv(h: History, op: Op)
    requires Inv(h)
    ensures Inv(Step(h, op))
  {
    hide BooksInv, AcceptedInv, Sound, Reloaded, ReadStep, Recorded;
    match op
    case Start(_) =>
    case Record(e, written) => RecordKeepsInv(h, e, written);
    case Read(k, r, before, written) =>
      if r.account != "" {
        ReadStepKeepsInv(h, k, r, before);
        SaveKeepsInv(ReadStep(h, k, r, before), written);
      }
    case Load(_, _) => EmptyBooks(h.log, h.accepted);
  }

  const START := History(Books(Ledger(map[], map[]), {}, map[]), map[], [], [], None)

  ghost function After(ops: seq<Op>): History {
    if ops == [] then START else Step(After(ops[..|ops| - 1]), ops[|ops| - 1])
  }

  lemma {:induction false} RunKeepsInv(ops: seq<Op>)
    ensures Inv(After(ops))
  {
    hide Step, BooksInv, Sound;
    if ops == [] {
      EmptyBooks([], []);
      assert Sound([]) by { NoCharges(); }
    } else {
      RunKeepsInv(ops[..|ops| - 1]);
      StepKeepsInv(After(ops[..|ops| - 1]), ops[|ops| - 1]);
    }
  }

  lemma NoCharges()
    ensures Sound([])
  {}

  /** No request is in two accepted samples of one window kind, whatever the accounts, key changes,
      plan changes, failed saves and restarts between them. */
  lemma NothingCountedTwice(ops: seq<Op>, i: nat, j: nat)
    requires var all := After(ops).accepted; i < j < |all| && all[i].kind == all[j].kind
    ensures After(ops).accepted[i].ids !! After(ops).accepted[j].ids
  {
    RunKeepsInv(ops);
  }

  /** What is pending for a window is never negative, its percentages stay in order, and its totals
      are exactly the charges of its accepted samples. */
  lemma {:induction false} WindowsAreSound(ops: seq<Op>, account: string, x: Kind)
    requires var l := After(ops).books.ledger; account in l.accounts && x in l.accounts[account].windows
    ensures var h := After(ops);
            var w := h.books.ledger.accounts[account].windows[x];
            && (w.base.Some? ==> AtMost(w.base.value.totals, TotalsOf(h.books.ledger.keys, account)))
            && 2.0 * w.samples as real <= w.delta <= w.lastPercent <= 100.0
            && (CurrentSample(w).Some? <==> w.samples > 0)
            && (exists ids :: ids <= IdsOf(h.accepted, x) && w.spent == Sum(h.log, ids))
  {
    hide Sum, IdsOf, TotalsOf;
    RunKeepsInv(ops);
    var h := After(ops);
    var w, m := h.books.ledger.accounts[account].windows[x], MarksOf(h.books.marks, account)[x];
    assert WindowInv(w, m, h.log, Members(h.books.ledger.keys, h.log, h.books.held, account), IdsOf(h.accepted, x));
    assert PercentInv(w);
    TotalsOfMembers(h.books.ledger.keys, h.log, h.books.held, account);
    if w.base.Some? {
      SumOfRest(h.log, m.covered, Members(h.books.ledger.keys, h.log, h.books.held, account));
    }
  }
}
