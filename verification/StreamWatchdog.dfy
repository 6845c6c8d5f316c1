/**
 The stream watchdog as interleaved steps of a consumer, which reads and emits, and a timer,
 which closes the streams when a deadline or the idle budget has run out. One step is what
 happens under the lock, or one call made outside it.
 */
module StreamWatchdog {
  import opened Common

  datatype Failure = ShuttingDown | ParentEnded(text: string) | TimedOut | IdleTimeout | OtherFailure(text: string)

  /** The fields the lock protects. An idle limit of zero means none. */
  datatype Watch = Watch(deadline: Time, idle: nat, lastOutput: Option<Time>, downstream: bool, err: Option<Failure>,
                         stopped: bool)

  /** What ends every stream, whoever watches it. */
  datatype Outside = Outside(shutdown: bool, parent: Option<string>)

  function Expired(w: Watch, o: Outside, now: Time): Option<Failure> {
    if o.shutdown then Some(ShuttingDown)
    else if o.parent.Some? then Some(ParentEnded(o.parent.value))
    else if now >= w.deadline then Some(TimedOut)
    else if !w.downstream && w.idle > 0 && w.lastOutput.Some? && now >= w.lastOutput.value + w.idle
    then Some(IdleTimeout)
    else None
  }

  function Checked(w: Watch, o: Outside, now: Time): Watch {
    if w.err.None? then w.(err := Expired(w, o, now)) else w
  }

  /** The instant the timer is set to. */
  function NextCheck(w: Watch): Time {
    if !w.downstream && w.idle > 0 && w.lastOutput.Some?
    then Min(w.deadline, w.lastOutput.value + w.idle)
    else w.deadline
  }

  function AfterEmit(w: Watch, o: Outside, elapsed: int, now: Time): Watch {
    var credited := if w.lastOutput.Some? then w.(lastOutput := Some(w.lastOutput.value + elapsed)) else w;
    Checked(credited.(downstream := false), o, now)
  }

  function AfterOutput(w: Watch, o: Outside, now: Time): Watch {
    if w.stopped || w.err.Some? then w
    else
      var c := w.(err := Expired(w, o, now));
      if c.err.None? && w.idle > 0 then c.(lastOutput := Some(now)) else c
  }

  // ---------------------------------------------------------------- two goroutines

  /** `Entering` and `Leaving` have still to wake the timer; `Joining` waits for it to end. */
  datatype Consumer =
    | Reading
    | Entering(started: Time)
    | Emitting(started: Time)
    | Leaving
    | Joining(result: Option<Failure>)
    | Ending(result: Option<Failure>)
    | Done(result: Option<Failure>)

  datatype Timer = Checking | Waiting(next: Time) | ClosingOutput(cause: Failure) | ClosingUpstream | Exited

  /** A stream closed through a once-only guard: how often, and with what. */
  datatype Closed = Closed(times: nat, cause: Option<Failure>)

  /** `output` and `spent` say when the last effective output came and how long emits have taken
      since then. */
  datatype World = World(
    w: Watch, o: Outside, consumer: Consumer, timer: Timer, token: bool, upstream: Closed, downstream: Closed,
    clock: Time, output: Option<Time>, spent: int)

  /** What a waiting timer may be woken by; of several at once any one is taken. */
  datatype Reason = Fired | Token | Stopped | ShutDown

  datatype Op =
    | Output(now: Time)
    | EmitBegin(now: Time, started: Time)
    | Entered
    | EmitEnd(ended: Time, now: Time)
    | Left
    | Stop(result: Option<Failure>)
    | Join
    | CloseDownstream
    | Check(now: Time)
    | Wake(now: Time, why: Reason)
    | TimerClosesOutput
    | TimerClosesUpstream
    | Shutdown
    | EndParent(text: string)

  predicate Enabled(s: World, op: Op) {
    match op
    case Output(now) => s.consumer.Reading? && now >= s.clock
    case EmitBegin(now, started) => s.consumer.Reading? && s.clock <= now <= started
    case Entered => s.consumer.Entering?
    case EmitEnd(ended, now) => s.consumer.Emitting? && s.clock <= ended <= now
    case Left => s.consumer.Leaving?
    case Stop(_) => s.consumer.Reading?
    case Join => s.consumer.Joining? && s.timer.Exited?
    case CloseDownstream => s.consumer.Ending?
    case Check(now) => s.timer.Checking? && now >= s.clock
    case Wake(now, why) =>
      && s.timer.Waiting? && now >= s.clock
      && (match why
          case Fired => now >= s.timer.next
          case Token => s.token
          case Stopped => s.w.stopped
          case ShutDown => s.o.shutdown)
    case TimerClosesOutput => s.timer.ClosingOutput?
    case TimerClosesUpstream => s.timer.ClosingUpstream?
    case Shutdown => true
    case EndParent(_) => s.o.parent.None?
  }

  /** Only the first close goes through. */
  function Once(c: Closed, cause: Option<Failure>): Closed { if c.times == 0 then Closed(1, cause) else c }

  function Step(s: World, op: Op): World
    requires Enabled(s, op)
  {
    match op
    case Output(now) =>
      var quiet := s.w.stopped || s.w.err.Some?;
      var w := AfterOutput(s.w, s.o, now);
      var counted := !quiet && w.err.None? && w.idle > 0;
      s.(w := w, clock := now, token := s.token || !quiet,
         output := if counted then Some(now) else s.output, spent := if counted then 0 else s.spent)
    case EmitBegin(now, started) =>
      var w := Checked(s.w, s.o, now);
      if w.err.Some? then s.(w := w, clock := started)
      else s.(w := w.(downstream := true), clock := started, consumer := Entering(started))
    case Entered => s.(token := true, consumer := Emitting(s.consumer.started))
    case EmitEnd(ended, now) =>
      var elapsed := ended - s.consumer.started;
      s.(w := AfterEmit(s.w, s.o, elapsed, now), clock := now, consumer := Leaving, spent := s.spent + elapsed)
    case Left => s.(token := true, consumer := Reading)
    case Stop(result) => s.(w := s.w.(stopped := true), consumer := Joining(result))
    case Join =>
      var result := if s.consumer.result.None? then s.w.err else s.consumer.result;
      s.(upstream := Once(s.upstream, None), consumer := Ending(result))
    case CloseDownstream => s.(downstream := Once(s.downstream, s.consumer.result), consumer := Done(s.consumer.result))
    case Check(now) =>
      if s.w.stopped then s.(timer := Exited, clock := now)
      else
        var w := Checked(s.w, s.o, now);
        s.(w := w, clock := now, timer := if w.err.Some? then ClosingOutput(w.err.value) else Waiting(NextCheck(w)))
    case Wake(now, why) =>
      s.(clock := now, timer := if why == Stopped then Exited else Checking, token := s.token && why != Token)
    case TimerClosesOutput => s.(downstream := Once(s.downstream, Some(s.timer.cause)), timer := ClosingUpstream)
    case TimerClosesUpstream => s.(upstream := Once(s.upstream, None), timer := Exited)
    case Shutdown => s.(o := s.o.(shutdown := true))
    case EndParent(text) => s.(o := s.o.(parent := Some(text)))
  }

  // ---------------------------------------------------------------- what every step keeps

  /** The idle budget counts from the last effective output and leaves out all time spent in emits. */
  predicate Accounts(s: World) {
    && s.spent >= 0 && s.w.lastOutput == (if s.output.None? then None else Some(s.output.value + s.spent))
    && (s.output.Some? ==> s.w.idle > 0)
    && (s.w.downstream <==> s.consumer.Entering? || s.consumer.Emitting?)
    && (s.w.downstream ==> s.consumer.started <= s.clock)
  }

  predicate Closing(s: World) {
    && s.upstream.times <= 1 && s.downstream.times <= 1
    && (s.w.stopped <==> s.consumer.Joining? || s.consumer.Ending? || s.consumer.Done?)
    && (s.timer.ClosingOutput? ==> s.w.err == Some(s.timer.cause))
    && (s.timer.ClosingUpstream? ==> s.w.err.Some? && s.downstream.times == 1)
    && (s.timer.Exited? && !s.w.stopped ==> s.w.err.Some? && s.downstream.times == 1 && s.upstream.times == 1)
    && (s.consumer.Ending? || s.consumer.Done? ==> s.timer.Exited? && s.upstream.times == 1)
    && (s.consumer.Ending? || s.consumer.Done? ==> (s.w.err.Some? ==> s.consumer.result.Some?))
    && (s.consumer.Done? ==>
          s.downstream.times == 1
            && (s.downstream.cause == s.consumer.result || (s.w.err.Some? && s.downstream.cause == s.w.err)))
    && (s.downstream.times == 1 && !s.consumer.Done? ==> s.w.err.Some? && s.downstream.cause == s.w.err)
  }

  /** A waiting timer is due no later than the next failure, or is about to be woken. */
  predicate Armed(s: World) {
    s.timer.Waiting? ==> s.timer.next <= NextCheck(s.w) || s.token || s.consumer.Leaving?
  }

  predicate Inv(s: World) { Accounts(s) && Closing(s) && Armed(s) }

  lemma StepKeepsClosing(s: World, op: Op)
    requires Closing(s) && Enabled(s, op)
    ensures Closing(Step(s, op))
  {}

  lemma StepKeepsArmed(s: World, op: Op)
    requires Armed(s) && Enabled(s, op)
    ensures Armed(Step(s, op))
  {}

  lemma StepKeepsInv(s: World, op: Op)
    requires Inv(s) && Enabled(s, op)
    ensures Inv(Step(s, op))
  {
    hide Closing, Armed;
    StepKeepsClosing(s, op);
    StepKeepsArmed(s, op);
  }

  /** The instant at which a step compares the clock with the limits, if it does so. */
  function CheckedAt(s: World, op: Op): Option<Time>
    requires Enabled(s, op)
  {
    match op
    case Output(now) => Some(now)
    case EmitBegin(now, _) => Some(now)
    case EmitEnd(_, now) => Some(now)
    case Check(now) => if s.w.stopped then None else Some(now)
    case _ => None
  }

  /** At each check, and only there, the first failure is determined. The idle limit counts just
      when there has been effective output, no emit is under way, and the silence since then, less
      all time spent in emits, has reached it; the deadline counts during emits as well. */
  lemma FailureExactly(s: World, op: Op)
    requires Inv(s) && Enabled(s, op) && s.w.err.None?
    ensures var t, at := Step(s, op), CheckedAt(s, op);
            var emitting := s.w.downstream && !op.EmitEnd?;
            && (at.None? ==> t.w.err.None?)
            && (at.Some? ==>
                  var now, ended := at.value, s.o.shutdown || s.o.parent.Some?;
                  && (t.w.err == Some(ShuttingDown) <==> s.o.shutdown)
                  && (ended && !s.o.shutdown ==> t.w.err == Some(ParentEnded(s.o.parent.value)))
                  && (!ended ==>
                        && (t.w.err == Some(TimedOut) <==> now >= s.w.deadline)
                        && (t.w.err == Some(IdleTimeout) <==>
                              && now < s.w.deadline && s.w.idle > 0 && !emitting && s.output.Some?
                              && now - s.output.value - (if op.EmitEnd? then t.spent else s.spent) >= s.w.idle)
                        && (t.w.err.None? || t.w.err == Some(TimedOut) || t.w.err == Some(IdleTimeout))))
  {}

  /** The timer is set to the very first instant at which, if nothing else happens, something is due. */
  lemma TimerIsTight(s: World, now: Time, t: Time)
    requires Inv(s) && Enabled(s, Check(now)) && Step(s, Check(now)).timer.Waiting?
    ensures var w := Step(s, Check(now));
            && now < w.timer.next && (Expired(w.w, w.o, t).Some? <==> t >= w.timer.next)
            && w.timer.next ==
               if s.w.downstream || s.output.None? then s.w.deadline
               else Min(s.w.deadline, s.output.value + s.spent + s.w.idle)
  {}

  /** A timer that waits undisturbed cannot miss a limit: nothing is due before it wakes. */
  lemma NothingIsMissed(s: World, t: Time)
    requires Inv(s) && s.timer.Waiting? && !s.token && !s.consumer.Leaving? && t < s.timer.next
    requires !s.o.shutdown && s.o.parent.None?
    ensures Expired(s.w, s.o, t).None?
  {}

  ghost predicate Possible(s: World, ops: seq<Op>)
    decreases |ops|
  {
    ops == [] || (Enabled(s, ops[0]) && Possible(Step(s, ops[0]), ops[1..]))
  }

  function After(s: World, ops: seq<Op>): World
    requires Possible(s, ops)
    decreases |ops|
  {
    if ops == [] then s else After(Step(s, ops[0]), ops[1..])
  }

  function Start(deadline: Time, idle: nat, now: Time): World {
    World(Watch(deadline, idle, None, false, None, false), Outside(false, None), Reading, Checking, false,
          Closed(0, None), Closed(0, None), now, None, 0)
  }

  /** Later steps keep the first failure, and what has been closed, with what. */
  predicate Keeps(s: World, t: World) {
    && (s.w.err.Some? ==> t.w.err == s.w.err)
    && (s.downstream.times == 1 ==> t.downstream == s.downstream)
    && (s.upstream.times == 1 ==> t.upstream == s.upstream)
  }

  lemma StepKeeps(s: World, op: Op)
    requires Inv(s) && Enabled(s, op)
    ensures Keeps(s, Step(s, op))
  {}

  lemma {:induction false} RunKeeps(s: World, ops: seq<Op>)
    requires Inv(s) && Possible(s, ops)
    ensures Inv(After(s, ops)) && Keeps(s, After(s, ops))
    decreases |ops|
  {
    hide Inv, Enabled, Step;
    if ops != [] {
      StepKeepsInv(s, ops[0]);
      StepKeeps(s, ops[0]);
      RunKeeps(Step(s, ops[0]), ops[1..]);
      KeepsOn(s, Step(s, ops[0]), After(s, ops));
    }
  }

  lemma KeepsOn(s: World, t: World, u: World)
    requires Keeps(s, t) && Keeps(t, u) && Inv(t)
    ensures Keeps(s, u)
  {}

  /** In every interleaving the first failure is final, either stream is closed at most once, and
      an output closed before the consumer ends carries that first failure; once the consumer is
      done both are closed, with the first failure where the timer came first, and otherwise with the
      consumer's own result, which is the first failure unless the consumer failed by itself. */
  lemma ClosedOnceWithFirstCause(deadline: Time, idle: nat, begin: Time, before: seq<Op>, later: seq<Op>)
    requires Possible(Start(deadline, idle, begin), before)
    requires Possible(After(Start(deadline, idle, begin), before), later)
    ensures var s := After(Start(deadline, idle, begin), before);
            var t := After(s, later);
            && Keeps(s, t) && t.upstream.times <= 1 && t.downstream.times <= 1
            && (t.downstream.times == 1 && !t.consumer.Done? ==> t.w.err.Some? && t.downstream.cause == t.w.err)
            && (t.consumer.Done? ==> t.upstream.times == 1 && t.downstream.times == 1)
            && (t.consumer.Done? && t.w.err.Some? ==>
                  t.consumer.result.Some? && (t.downstream.cause == t.w.err || t.downstream.cause == t.consumer.result))
  {
    hide Step, Enabled;
    RunKeeps(Start(deadline, idle, begin), before);
    RunKeeps(After(Start(deadline, idle, begin), before), later);
  }

  // ---------------------------------------------------------------- idleness in terms of what happened

  /** When the last effective output came. */
  function LastOutput(ops: seq<Op>, before: Option<Time>): Option<Time>
    decreases |ops|
  {
    if ops == [] then before else LastOutput(ops[1..], if ops[0].Output? then Some(ops[0].now) else before)
  }

  /** When the emit under way began. */
  function OpenEmit(ops: seq<Op>, open: Option<Time>): Option<Time>
    decreases |ops|
  {
    if ops == [] then open
    else OpenEmit(ops[1..], if ops[0].EmitBegin? then Some(ops[0].started) else if ops[0].EmitEnd? then None else open)
  }

  /** How long emits have taken since the last effective output. */
  function EmitTime(ops: seq<Op>, open: Option<Time>, before: int): int
    decreases |ops|
  {
    if ops == [] then before
    else
      var op := ops[0];
      if op.Output? then EmitTime(ops[1..], open, 0)
      else if op.EmitBegin? then EmitTime(ops[1..], Some(op.started), before)
      else if op.EmitEnd? then EmitTime(ops[1..], None, before + if open.Some? then op.ended - open.value else 0)
      else EmitTime(ops[1..], open, before)
  }

  predicate Interrupted(ops: seq<Op>) { exists i :: 0 <= i < |ops| && (ops[i].Shutdown? || ops[i].EndParent?) }

  function Open(s: World): Option<Time> {
    if s.consumer.Entering? || s.consumer.Emitting? then Some(s.consumer.started) else None
  }

  /** As long as nothing failed, the state tells what happened. */
  lemma {:induction false} StateTells(s: World, ops: seq<Op>)
    requires Inv(s) && Possible(s, ops) && s.w.idle > 0 && After(s, ops).w.err.None?
    ensures var t := After(s, ops);
            && t.output == LastOutput(ops, s.output) && t.spent == EmitTime(ops, Open(s), s.spent)
            && Open(t) == OpenEmit(ops, Open(s)) && t.w.deadline == s.w.deadline && t.w.idle == s.w.idle
            && (t.o.shutdown || t.o.parent.Some? <==> s.o.shutdown || s.o.parent.Some? || Interrupted(ops))
    decreases |ops|
  {
    hide Inv;
    if ops != [] {
      var next := Step(s, ops[0]);
      StepKeepsInv(s, ops[0]);
      RunKeeps(next, ops[1..]);
      OneStepTells(s, ops[0]);
      InterruptedFirst(ops);
      hide Step;
      StateTells(next, ops[1..]);
    }
  }

  lemma OneStepTells(s: World, op: Op)
    requires Inv(s) && Enabled(s, op) && s.w.idle > 0 && Step(s, op).w.err.None?
    ensures var t := Step(s, op);
            && t.output == LastOutput([op], s.output) && t.spent == EmitTime([op], Open(s), s.spent)
            && Open(t) == OpenEmit([op], Open(s)) && t.w.deadline == s.w.deadline && t.w.idle == s.w.idle
            && (t.o.shutdown || t.o.parent.Some? <==> s.o.shutdown || s.o.parent.Some? || op.Shutdown? || op.EndParent?)
  {
    assert [op][1..] == [];
  }

  lemma InterruptedFirst(ops: seq<Op>)
    requires ops != []
    ensures Interrupted(ops) <==> ops[0].Shutdown? || ops[0].EndParent? || Interrupted(ops[1..])
  {
    if i :| 0 <= i < |ops| && (ops[i].Shutdown? || ops[i].EndParent?) {
      assert i > 0 ==> ops[1..][i - 1] == ops[i];
    }
    if j :| 0 <= j < |ops[1..]| && (ops[1..][j].Shutdown? || ops[1..][j].EndParent?) {
      assert ops[j + 1] == ops[1..][j];
    }
  }

  /** From the start on, in every interleaving: the idle timeout is raised at a check exactly when
      no other failure is due, no emit is under way, and the time since the last effective output
      less the time of all emits since then has reached the limit. */
  lemma IdleExactly(deadline: Time, idle: nat, begin: Time, ops: seq<Op>, op: Op)
    requires Possible(Start(deadline, idle, begin), ops)
    requires var s := After(Start(deadline, idle, begin), ops);
             s.w.err.None? && Enabled(s, op) && CheckedAt(s, op).Some?
    ensures var s := After(Start(deadline, idle, begin), ops);
            var now := CheckedAt(s, op).value;
            var emits := EmitTime(ops, None, 0);
            var ending := if op.EmitEnd? && OpenEmit(ops, None).Some? then op.ended - OpenEmit(ops, None).value else 0;
            Step(s, op).w.err == Some(IdleTimeout) <==>
              && idle > 0 && !Interrupted(ops) && now < deadline && LastOutput(ops, None).Some?
              && (OpenEmit(ops, None).None? || op.EmitEnd?)
              && now - LastOutput(ops, None).value - (emits + ending) >= idle
  {
    var start := Start(deadline, idle, begin);
    RunKeeps(start, ops);
    var s := After(start, ops);
    if idle > 0 { StateTells(start, ops); }
    StaysAsSet(start, ops);
    hide After, Possible, LastOutput, OpenEmit, EmitTime, Interrupted;
    FailureExactly(s, op);
  }

  lemma {:induction false} StaysAsSet(s: World, ops: seq<Op>)
    requires Possible(s, ops)
    ensures After(s, ops).w.deadline == s.w.deadline && After(s, ops).w.idle == s.w.idle
    decreases |ops|
  {
    if ops != [] { StaysAsSet(Step(s, ops[0]), ops[1..]); }
  }
}
