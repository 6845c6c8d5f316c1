/**
 The rate limiter as the program builds it: windows and leases are objects that point at
 each other and are compared by identity. Each method is one locked step of RateLimits.
 */
module RateLimiterObjects {
  import opened Common
  import opened RateLimits

  class RateWindow {
    const serial: nat
    var retryAt: Time
    var scope: string
    var probe: RateLease?
    var epoch: nat

    constructor (serial: nat)
      ensures this.serial == serial && retryAt == 0 && scope == "" && probe == null && epoch == 0
    {
      this.serial := serial;
      retryAt, scope, probe, epoch := 0, "", null, 0;
    }

    function Value(): Window
      reads this
    {
      Window(serial, retryAt, scope, if probe == null then None else Some(probe.serial), epoch)
    }
  }

  class RateLease {
    const serial: nat
    const key: RateKey
    var window: RateWindow?
    var epoch: nat

    constructor (serial: nat, key: RateKey)
      ensures this.serial == serial && this.key == key && window == null && epoch == 0
    {
      this.serial, this.key := serial, key;
      window, epoch := null, 0;
    }

    function Value(): Lease
      reads this
    {
      Lease(serial, key, if window == null then None else Some(window.serial), epoch)
    }
  }

  class RateLimiter {
    var windows: map<RateKey, RateWindow>
    var issued: nat
    /** Every window and lease ever made, so that equal serials mean the same object. */
    ghost var allWindows: set<RateWindow>
    ghost var allLeases: set<RateLease>

    ghost predicate Valid()
      reads this, allWindows, allLeases
    {
      && (forall k :: k in windows ==> windows[k] in allWindows)
      && (forall k, l :: k in windows && l in windows && windows[k] == windows[l] ==> k == l)
      && (forall w :: w in allWindows ==> w.serial < issued && (w.probe != null ==> w.probe in allLeases))
      && (forall v, w :: v in allWindows && w in allWindows && v.serial == w.serial ==> v == w)
      && (forall l :: l in allLeases ==> l.serial < issued && (l.window != null ==> l.window in allWindows))
      && (forall l, m :: l in allLeases && m in allLeases && l.serial == m.serial ==> l == m)
    }

    ghost function Windows(): map<RateKey, Window>
      reads this, allWindows
      requires forall k :: k in windows ==> windows[k] in allWindows
    {
      map k | k in windows :: windows[k].Value()
    }

    ghost function Value(): Limiter
      reads this, allWindows
      requires forall k :: k in windows ==> windows[k] in allWindows
    {
      Limiter(Windows(), issued)
    }

    constructor ()
      ensures Valid() && Value() == Limiter(map[], 0) && fresh(allWindows) && fresh(allLeases)
    {
      windows, issued, allWindows, allLeases := map[], 0, {}, {};
    }

    /** Between two states: only the window object at `key`, and pointers of leases, were assigned. */
    twostate lemma WindowEdited(key: RateKey)
      requires old(Valid()) && windows == old(windows) && key in windows
      requires issued == old(issued) && allWindows == old(allWindows) && allLeases == old(allLeases)
      requires forall w :: w in allWindows && w != windows[key] ==> unchanged(w)
      requires windows[key].probe != null ==> windows[key].probe in allLeases
      requires forall l :: l in allLeases ==> l.window == old(l.window) || l.window in allWindows
      ensures Valid() && Windows() == old(Windows())[key := windows[key].Value()]
    {}

    /** Between two states: the entry of `key` was deleted; its object may have been assigned before. */
    twostate lemma WindowDropped(key: RateKey)
      requires old(Valid()) && key in old(windows) && windows == old(windows) - {key}
      requires issued == old(issued) && allWindows == old(allWindows) && allLeases == old(allLeases)
      requires forall w :: w in allWindows && w != old(windows)[key] ==> unchanged(w)
      requires old(windows)[key].probe == null
      requires forall l :: l in allLeases ==> unchanged(l)
      ensures Valid() && Windows() == old(Windows()) - {key}
    {}

    /** Between two states: a new window was entered at a key that had none. */
    twostate lemma WindowAdded(key: RateKey, new made: RateWindow)
      requires old(Valid()) && key !in old(windows) && windows == old(windows)[key := made]
      requires fresh(made) && made.serial == old(issued) && issued == old(issued) + 1 && made.probe == null
      requires allWindows == old(allWindows) + {made} && allLeases == old(allLeases)
      requires forall w :: w in old(allWindows) ==> unchanged(w)
      requires forall l :: l in allLeases ==> unchanged(l)
      ensures Valid() && Windows() == old(Windows())[key := made.Value()]
    {}

    twostate lemma LeaseAdded(new made: RateLease)
      requires old(Valid()) && windows == old(windows) && allWindows == old(allWindows)
      requires fresh(made) && made.serial == old(issued) && issued == old(issued) + 1 && made.window == null
      requires allLeases == old(allLeases) + {made}
      requires forall w :: w in allWindows ==> unchanged(w)
      requires forall l :: l in old(allLeases) ==> unchanged(l)
      ensures Valid() && Windows() == old(Windows())
    {}

    /** Between two states: some entries were deleted, and nothing else was touched. */
    twostate lemma EntriesDropped()
      requires old(Valid())
      requires windows.Keys <= old(windows).Keys
      requires forall k :: k in windows ==> windows[k] == old(windows)[k]
      requires issued == old(issued) && allWindows == old(allWindows) && allLeases == old(allLeases)
      requires forall w :: w in allWindows ==> unchanged(w)
      requires forall l :: l in allLeases ==> unchanged(l)
      ensures Valid() && Windows() == map k | k in old(Windows()) && k in windows :: old(Windows())[k]
    {}

    method PruneIdle(now: Time)
      requires Valid()
      modifies this`windows
      ensures Valid() && Value() == Limiter(Prune(old(Windows()), now), issued)
    {
      DeleteIdle(now);
      EntriesDropped();
    }

    method DeleteIdle(now: Time)
      modifies this`windows
      ensures windows.Keys <= old(windows).Keys && forall k :: k in windows ==> windows[k] == old(windows)[k]
      ensures forall k :: k in old(windows) ==> (k in windows <==> !Stale(old(windows)[k].Value(), now))
    {
      var todo := windows.Keys;
      while todo != {}
        invariant todo <= windows.Keys <= old(windows).Keys
        invariant forall k :: k in windows ==> windows[k] == old(windows)[k]
        invariant forall k :: k in old(windows) && k !in todo ==>
                    (k in windows <==> !Stale(old(windows)[k].Value(), now))
        decreases todo
      {
        var key :| key in todo;
        todo := todo - {key};
        if windows[key].probe == null && now - windows[key].retryAt > IDLE {
          windows := windows - {key};
        }
      }
    }

    method MakeLease(key: RateKey) returns (made: RateLease)
      requires Valid()
      modifies this`issued, this`allLeases
      ensures Valid() && Windows() == old(Windows()) && issued == old(issued) + 1
      ensures fresh(made) && allLeases == old(allLeases) + {made}
      ensures made.Value() == Lease(old(issued), key, None, 0)
    {
      made := new RateLease(issued, key);
      issued := issued + 1;
      allLeases := allLeases + {made};
      LeaseAdded(made);
    }

    method Acquire(key: RateKey, now: Time) returns (lease: RateLease?, refusal: Option<Refusal>)
      requires Valid()
      modifies this, allWindows
      ensures Valid() && allWindows == old(allWindows)
      ensures Value() == RateLimits.Acquire(old(Value()), key, now).state
      ensures refusal == RateLimits.Acquire(old(Value()), key, now).refusal
      ensures (if lease == null then None else Some(lease.Value())) == RateLimits.Acquire(old(Value()), key, now).lease
      ensures lease != null ==> fresh(lease) && lease in allLeases
      ensures old(allLeases) <= allLeases
    {
      hide Prune, Admit, Valid;
      PruneIdle(now);
      var made := MakeLease(key);
      var admitted;
      admitted, refusal := Decide(made, now);
      lease := if admitted then made else null;
    }

    /** Admits a new lease, refuses it, or lets it probe. */
    method Decide(made: RateLease, now: Time) returns (admitted: bool, refusal: Option<Refusal>)
      requires Valid() && made in allLeases && made.Value() == Lease(made.serial, made.key, None, 0)
      requires issued == made.serial + 1
      modifies allWindows, made
      ensures Valid()
      ensures var a := Admit(old(Windows()), made.serial, made.key, now);
              Value() == a.state && refusal == a.refusal && (if admitted then Some(made.Value()) else None) == a.lease
    {
      if made.key !in windows {
        return true, None;
      }
      var state := windows[made.key];
      if now < state.retryAt || state.probe != null {
        var until := state.retryAt;
        if state.probe != null && now >= until {
          until := now + SECOND;
        }
        return false, Some(Refusal(until, state.scope, state.serial));
      }
      TakeSlot(made);
      return true, None;
    }

    method TakeSlot(made: RateLease)
      requires Valid() && made in allLeases && made.key in windows
      modifies windows[made.key], made
      ensures Valid() && Windows() == old(Windows())[made.key := old(Windows())[made.key].(probe := Some(made.serial))]
      ensures made.Value() == Lease(made.serial, made.key, Some(windows[made.key].serial), windows[made.key].epoch)
    {
      var state := windows[made.key];
      state.probe := made;
      made.window, made.epoch := state, state.epoch;
      WindowEdited(made.key);
    }

    method Finish(lease: RateLease, ending: Ending, now: Time)
      requires Valid() && lease in allLeases
      modifies this, allWindows
      ensures Valid() && allLeases == old(allLeases) && fresh(allWindows - old(allWindows))
      ensures Value() == RateLimits.Finish(old(Value()), old(lease.Value()), ending, now)
    {
      if ending.TeamLimit? && !ending.local {
        RecordLimit(lease, ending);
      } else if lease.key in windows && windows[lease.key] == lease.window && windows[lease.key].probe == lease {
        EndProbe(lease, ending, now);
      }
    }

    method EnsureWindow(key: RateKey)
      requires Valid()
      modifies this
      ensures Valid() && allLeases == old(allLeases) && fresh(allWindows - old(allWindows))
              && old(allWindows) <= allWindows
      ensures key in windows
      ensures Value() == if key in old(windows) then old(Value())
                         else Limiter(old(Windows())[key := Window(old(issued), 0, "", None, 0)], old(issued) + 1)
    {
      if key !in windows {
        var made := new RateWindow(issued);
        issued := issued + 1;
        allWindows := allWindows + {made};
        windows := windows[key := made];
        WindowAdded(key, made);
      }
    }

    method RecordLimit(lease: RateLease, ending: Ending)
      requires Valid() && lease in allLeases && ending.TeamLimit? && !ending.local
      modifies this, allWindows
      ensures Valid() && allLeases == old(allLeases) && fresh(allWindows - old(allWindows))
      ensures forall now :: Value() == RateLimits.Finish(old(Value()), old(lease.Value()), ending, now)
    {
      hide RateLimits.Finish;
      EnsureWindow(lease.key);
      assert lease.key in Windows() && windows[lease.key] in allWindows;
      hide RateLimiter.Windows, Valid;
      LimitRecorded(old(Value()), old(lease.Value()), ending, Value());
      EditLimited(lease, ending);
    }

    method EditLimited(lease: RateLease, ending: Ending)
      requires Valid() && lease in allLeases && ending.TeamLimit? && lease.key in windows
      modifies windows[lease.key]
      ensures Valid()
      ensures var w := old(Windows())[lease.key];
              Windows() == old(Windows())[lease.key := w.(
                retryAt := Max(w.retryAt, ending.retryAt), scope := ending.scope, epoch := w.epoch + 1,
                probe := if w.probe == Some(lease.serial) then None else w.probe)]
    {
      var state := windows[lease.key];
      if ending.retryAt > state.retryAt {
        state.retryAt := ending.retryAt;
      }
      state.scope := ending.scope;
      state.epoch := state.epoch + 1;
      if state.probe == lease {
        state.probe := null;
      }
      WindowEdited(lease.key);
    }

    method EndProbe(lease: RateLease, ending: Ending, now: Time)
      requires Valid() && lease in allLeases && (ending.TeamLimit? ==> ending.local)
      requires lease.key in windows && windows[lease.key] == lease.window && windows[lease.key].probe == lease
      modifies this, allWindows
      ensures Valid() && allLeases == old(allLeases) && allWindows == old(allWindows)
      ensures Value() == RateLimits.Finish(old(Value()), old(lease.Value()), ending, now)
    {
      var state := windows[lease.key];
      state.probe := null;
      if state.epoch == lease.epoch && ending.Success? {
        windows := windows - {lease.key};
        WindowDropped(lease.key);
        hide Valid;
      } else {
        if !ending.Success? {
          var retryAt := now + RETREAT;
          if retryAt > state.retryAt {
            state.retryAt := retryAt;
          }
        }
        WindowEdited(lease.key);
        hide Valid;
      }
    }

    method FinishRequest(lease: RateLease?, ending: Ending, cooldown: bool, now: Time)
      requires Valid() && (lease != null ==> lease in allLeases)
      modifies this, allWindows
      ensures Valid() && allLeases == old(allLeases) && fresh(allWindows - old(allWindows))
      ensures Value() == if lease == null then old(Value())
                         else RateLimits.FinishRequest(old(Value()), old(lease.Value()), ending, cooldown, now)
    {
      if lease == null {
        return;
      }
      if ending.Success? || cooldown {
        Finish(lease, ending, now);
        return;
      }
      if lease.key in windows && windows[lease.key] == lease.window && windows[lease.key].probe == lease {
        windows[lease.key].probe := null;
        WindowEdited(lease.key);
      }
    }

    /** Between two states: idle windows of the credential were deleted and probing ones reopened. */
    twostate lemma WindowsReset(new credential: string, new now: Time)
      requires old(Valid())
      requires windows.Keys <= old(windows).Keys
      requires forall k :: k in windows ==> windows[k] == old(windows)[k]
      requires issued == old(issued) && allWindows == old(allWindows) && allLeases == old(allLeases)
      requires forall w :: w in allWindows ==>
                 w.probe == old(w.probe) && w.scope == old(w.scope) && w.epoch == old(w.epoch)
      requires forall l :: l in allLeases ==> unchanged(l)
      requires forall k :: k in old(windows) ==>
                 (k in windows <==> !(k.credential == credential && old(windows[k].probe) == null))
      requires forall k :: k in windows && k.credential == credential ==> windows[k].retryAt == now
      requires forall k :: k in windows && k.credential != credential ==> windows[k].retryAt == old(windows[k].retryAt)
      ensures Valid() && Windows() == Reset(old(Value()), credential, now).windows
    {
      assert Valid();
      hide Valid;
      var next := Reset(old(Value()), credential, now).windows;
      forall k ensures k in Windows() <==> k in next {}
      forall k | k in windows ensures Windows()[k] == next[k] {}
    }

    method ResetSchedulingWindows(credential: string, now: Time)
      requires Valid()
      modifies this`windows, allWindows`retryAt
      ensures Valid() && Value() == Reset(old(Value()), credential, now)
    {
      ReopenWindows(credential, now);
      WindowsReset(credential, now);
    }

    method ReopenWindows(credential: string, now: Time)
      requires forall k :: k in windows ==> windows[k] in allWindows
      requires forall k, l :: k in windows && l in windows && windows[k] == windows[l] ==> k == l
      modifies this`windows, allWindows`retryAt
      ensures windows.Keys <= old(windows).Keys && forall k :: k in windows ==> windows[k] == old(windows)[k]
      ensures forall k :: k in old(windows) ==>
                (k in windows <==> !(k.credential == credential && old(windows[k].probe) == null))
      ensures forall k :: k in windows && k.credential == credential ==> windows[k].retryAt == now
      ensures forall k :: k in windows && k.credential != credential ==> windows[k].retryAt == old(windows[k].retryAt)
    {
      var todo := windows.Keys;
      while todo != {}
        invariant todo <= windows.Keys <= old(windows).Keys
        invariant forall k :: k in windows ==> windows[k] == old(windows)[k]
        invariant forall k :: k in old(windows) && k !in todo ==>
                    (k in windows <==> !(k.credential == credential && old(windows[k].probe) == null))
        invariant forall k :: k in windows && k !in todo && k.credential == credential ==> windows[k].retryAt == now
        invariant forall k :: k in windows && (k in todo || k.credential != credential) ==>
                    windows[k].retryAt == old(windows[k].retryAt)
        decreases todo
      {
        var key :| key in todo;
        todo := todo - {key};
        if key.credential == credential {
          if windows[key].probe != null {
            windows[key].retryAt := now;
          } else {
            windows := windows - {key};
          }
        }
      }
    }
  }
}
