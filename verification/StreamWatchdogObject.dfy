/** The watchdog as the object both goroutines share, one method for each stretch under its lock. */
module StreamWatchdogObject {
  import opened Common
  import opened StreamWatchdog

  /** Where the downstream is closed: once, with the first cause. */
  class OutputStream {
    var closed: Closed

    constructor ()
      ensures closed == Closed(0, None)
    {
      closed := Closed(0, None);
    }

    method Close(err: Option<Failure>) returns (cause: Option<Failure>)
      modifies this
      ensures closed == Once(old(closed), err) && cause == closed.cause
    {
      if closed.times == 0 {
        closed := Closed(1, err);
      }
      cause := closed.cause;
    }
  }

  class ReadWatchdog {
    const deadline: Time
    const idle: nat
    var lastOutput: Option<Time>
    var downstream: bool
    var err: Option<Failure>
    var stopped: bool
    var wake: bool
    var upstream: Closed

    constructor (deadline: Time, idle: nat)
      ensures Value() == Watch(deadline, idle, None, false, None, false) && !wake && upstream == Closed(0, None)
    {
      this.deadline, this.idle := deadline, idle;
      lastOutput, downstream, err, stopped, wake, upstream := None, false, None, false, false, Closed(0, None);
    }

    function Value(): Watch
      reads this
    {
      Watch(deadline, idle, lastOutput, downstream, err, stopped)
    }

    method ExpiredAt(o: Outside, now: Time) returns (failure: Option<Failure>)
      ensures failure == Expired(Value(), o, now)
    {
      if o.shutdown { return Some(ShuttingDown); }
      if o.parent.Some? { return Some(ParentEnded(o.parent.value)); }
      if now >= deadline { return Some(TimedOut); }
      if !downstream && idle > 0 && lastOutput.Some? && now >= lastOutput.value + idle { return Some(IdleTimeout); }
      return None;
    }

    method Notify()
      modifies this`wake
      ensures wake
    {
      wake := true;
    }

    /** Before a downstream emit; on a failure the emit does not take place. */
    method BeginEmit(o: Outside, now: Time) returns (failure: Option<Failure>)
      modifies this`err, this`downstream
      ensures var w := Checked(old(Value()), o, now);
              failure == w.err && Value() == if failure.Some? then w else w.(downstream := true)
    {
      if err.None? {
        err := ExpiredAt(o, now);
      }
      if err.Some? { return err; }
      downstream := true;
      return None;
    }

    /** After an emit that took `elapsed`; its own error goes before the watchdog's. */
    method EndEmit(o: Outside, elapsed: int, now: Time, own: Option<Failure>) returns (failure: Option<Failure>)
      modifies this`err, this`downstream, this`lastOutput
      ensures Value() == AfterEmit(old(Value()), o, elapsed, now) && failure == if own.Some? then own else err
    {
      if lastOutput.Some? {
        lastOutput := Some(lastOutput.value + elapsed);
      }
      downstream := false;
      if err.None? {
        err := ExpiredAt(o, now);
      }
      failure := if own.None? then err else own;
    }

    method EffectiveOutput(o: Outside, now: Time) returns (failure: Option<Failure>)
      modifies this`err, this`lastOutput, this`wake
      ensures Value() == AfterOutput(old(Value()), o, now) && failure == err
      ensures wake == (old(wake) || !(old(stopped) || old(err).Some?))
    {
      if stopped || err.Some? { return err; }
      err := ExpiredAt(o, now);
      if err.None? && idle > 0 {
        lastOutput := Some(now);
      }
      Notify();
      return err;
    }

    /** The timer's turn under the lock: it ends, finds a failure to close with, or sets the next check. */
    method Check(o: Outside, now: Time) returns (failure: Option<Failure>, next: Time)
      modifies this`err
      ensures Value() == if old(stopped) then old(Value()) else Checked(old(Value()), o, now)
      ensures !stopped ==> failure == err && (failure.None? ==> next == NextCheck(Value()))
      ensures stopped ==> failure == None
    {
      failure, next := None, deadline;
      if stopped { return; }
      if err.None? {
        err := ExpiredAt(o, now);
      }
      if err.Some? { return err, next; }
      if !downstream && idle > 0 && lastOutput.Some? {
        if lastOutput.value + idle < next {
          next := lastOutput.value + idle;
        }
      }
    }

    /** The timer closes the output before the upstream, so that a blocked emit is released. */
    method CloseBoth(output: OutputStream, failure: Failure)
      modifies this`upstream, output
      ensures output.closed == Once(old(output.closed), Some(failure)) && upstream == Once(old(upstream), None)
    {
      var cause := output.Close(Some(failure));
      Close();
    }

    method Close()
      modifies this`upstream
      ensures upstream == Once(old(upstream), None)
    {
      if upstream.times == 0 {
        upstream := Closed(1, None);
      }
    }

    method Stop()
      modifies this`stopped
      ensures stopped
    {
      if !stopped {
        stopped := true;
      }
    }
  }
}
