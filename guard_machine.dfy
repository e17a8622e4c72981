/**
 * The per-request timeout guard (NetworkAccessManagerTimeOutManager) as a
 * state machine over the events it can receive, one at a time: its timer
 * emitting timeout(), which only queues a call of the slot (the connection
 * is queued); a queued timeout() call being delivered; and the manager's
 * finished signal for some reply.
 *
 * `Step` is the guard as written. Its timeout() slot has no record of having
 * acted: stopping the timer in networkReply does not take back a call the
 * timer has already queued, so that call still cancels and runs the timeout
 * function after the completion (`QueuedTimeoutRunsAfterCompletion`).
 * `FixedStep` is the same guard with the "already acted" flag that the
 * race resolution needs; the race lemmas are proved about it.
 */
module GuardMachine {
  import opened Tracking

  datatype GuardEvent =
    | TimerEmits        // the timer fires; a call of timeout() is queued
    | TimeoutDelivered  // the event loop delivers one queued timeout() call
    | Finished(reply: Handle)

  /** The guard's two calls: its cancel function on the bound reply, and its "on timeout" function. */
  datatype GuardAction = CallCancel(reply: Handle) | CallTimeout

  /** The guard as written: its timer, the timeout() calls queued for it, its connection to finished. */
  datatype Guard = Guard(timerActive: bool, pending: nat, observing: bool)

  datatype Outcome<G> = Outcome(guard: G, actions: seq<GuardAction>)

  /** After the constructor started the timer and setTimeOut connected the finished signal. */
  const Armed: Guard := Guard(true, 0, true)

  /** One event delivered to the guard as written, bound to reply `bound`. */
  function Step(g: Guard, bound: Handle, ev: GuardEvent): Outcome<Guard> {
    match ev
    case TimerEmits =>
      if g.timerActive then Outcome(g.(pending := g.pending + 1), []) else Outcome(g, [])
    case TimeoutDelivered =>
      if g.pending == 0 then Outcome(g, [])
      else Outcome(Guard(false, g.pending - 1, false), [CallCancel(bound), CallTimeout])
    case Finished(e) =>
      if g.observing && e == bound then Outcome(g.(timerActive := false), []) else Outcome(g, [])
  }

  function Run(g: Guard, bound: Handle, evs: seq<GuardEvent>): Outcome<Guard>
    decreases |evs|
  {
    if evs == [] then Outcome(g, [])
    else
      var o := Step(g, bound, evs[0]);
      var rest := Run(o.guard, bound, evs[1..]);
      Outcome(rest.guard, o.actions + rest.actions)
  }

  /** The timer is stopped and no call of timeout() is queued. */
  predicate Quiet(g: Guard) {
    !g.timerActive && g.pending == 0
  }

  /** A completion for another reply leaves the guard as it was and makes it do nothing. */
  lemma ForeignCompletionIgnored(g: Guard, bound: Handle, e: Handle)
    requires e != bound
    ensures Step(g, bound, Finished(e)) == Outcome(g, [])
  {
  }

  /** Once the timer is stopped and nothing is queued, no event makes the guard act again. */
  lemma {:induction false} QuietIsSticky(g: Guard, bound: Handle, evs: seq<GuardEvent>)
    requires Quiet(g)
    ensures Quiet(Run(g, bound, evs).guard) && Run(g, bound, evs).actions == []
    decreases |evs|
  {
    if evs != [] {
      QuietIsSticky(Step(g, bound, evs[0]).guard, bound, evs[1..]);
    }
  }

  /**
   * What the source's networkReply does achieve: a completion of the bound
   * reply while no timeout() call is queued stops the guard for good.
   */
  lemma CompletionWithNothingQueued(g: Guard, bound: Handle, after: seq<GuardEvent>)
    requires g.observing && g.pending == 0
    ensures Run(g, bound, [Finished(bound)] + after).actions == []
  {
    var evs := [Finished(bound)] + after;
    assert evs[1..] == after;
    QuietIsSticky(Step(g, bound, Finished(bound)).guard, bound, after);
  }

  /**
   * The race as written: the timer queues timeout(), the completion is
   * processed first, and the queued call still cancels and runs the
   * timeout function.
   */
  lemma QueuedTimeoutRunsAfterCompletion(bound: Handle)
    ensures Run(Armed, bound, [TimerEmits, Finished(bound), TimeoutDelivered]).actions
            == [CallCancel(bound), CallTimeout]
  {
    var queued := Guard(true, 1, true);     // the timer has queued one call
    var stopped := Guard(false, 1, true);   // networkReply stopped the timer; the call stays queued
    assert [TimeoutDelivered][1..] == [];
    assert Run(stopped, bound, [TimeoutDelivered]) == Outcome(Guard(false, 0, false), [CallCancel(bound), CallTimeout]);
    assert [Finished(bound), TimeoutDelivered][1..] == [TimeoutDelivered];
    assert Run(queued, bound, [Finished(bound), TimeoutDelivered]).actions == [CallCancel(bound), CallTimeout];
    assert [TimerEmits, Finished(bound), TimeoutDelivered][1..] == [Finished(bound), TimeoutDelivered];
  }

  // ---------------------------------------------------------------------
  // The guard with the flag the race resolution needs

  /** The guard with a record of having acted: set by its completion or by its first timeout() call. */
  datatype FixedGuard = FixedGuard(timerActive: bool, pending: nat, observing: bool, fired: bool)

  const FixedArmed: FixedGuard := FixedGuard(true, 0, true, false)

  /** As Step, except that timeout() and the completion do nothing once the guard has acted. */
  function FixedStep(g: FixedGuard, bound: Handle, ev: GuardEvent): Outcome<FixedGuard> {
    match ev
    case TimerEmits =>
      if g.timerActive then Outcome(g.(pending := g.pending + 1), []) else Outcome(g, [])
    case TimeoutDelivered =>
      if g.pending == 0 then Outcome(g, [])
      else if g.fired then Outcome(g.(pending := g.pending - 1), [])
      else Outcome(FixedGuard(false, g.pending - 1, false, true), [CallCancel(bound), CallTimeout])
    case Finished(e) =>
      if g.observing && e == bound then Outcome(g.(timerActive := false, fired := true), []) else Outcome(g, [])
  }

  function FixedRun(g: FixedGuard, bound: Handle, evs: seq<GuardEvent>): Outcome<FixedGuard>
    decreases |evs|
  {
    if evs == [] then Outcome(g, [])
    else
      var o := FixedStep(g, bound, evs[0]);
      var rest := FixedRun(o.guard, bound, evs[1..]);
      Outcome(rest.guard, o.actions + rest.actions)
  }

  /** A guard that has not acted is still connected to the finished signal. */
  predicate FixedValid(g: FixedGuard) {
    g.fired || g.observing
  }

  lemma {:induction false} FixedValidKept(g: FixedGuard, bound: Handle, evs: seq<GuardEvent>)
    requires FixedValid(g)
    ensures FixedValid(FixedRun(g, bound, evs).guard)
    decreases |evs|
  {
    if evs != [] {
      FixedValidKept(FixedStep(g, bound, evs[0]).guard, bound, evs[1..]);
    }
  }

  /** Once the guard has acted, it stays so and no event makes it act again. */
  lemma {:induction false} TerminalIsSticky(g: FixedGuard, bound: Handle, evs: seq<GuardEvent>)
    requires g.fired
    ensures FixedRun(g, bound, evs).guard.fired && FixedRun(g, bound, evs).actions == []
    decreases |evs|
  {
    if evs != [] {
      TerminalIsSticky(FixedStep(g, bound, evs[0]).guard, bound, evs[1..]);
    }
  }

  /**
   * Over any events, the guard acts at most once: either never, or by
   * calling cancel on its reply and then the timeout function; a guard that
   * ends without having acted has done nothing.
   */
  lemma {:induction false} RunFromArmed(g: FixedGuard, bound: Handle, evs: seq<GuardEvent>)
    ensures FixedRun(g, bound, evs).actions == [] || FixedRun(g, bound, evs).actions == [CallCancel(bound), CallTimeout]
    ensures !FixedRun(g, bound, evs).guard.fired ==> FixedRun(g, bound, evs).actions == []
    ensures g.fired ==> FixedRun(g, bound, evs).actions == []
    decreases |evs|
  {
    if evs != [] {
      var o := FixedStep(g, bound, evs[0]);
      if o.guard.fired {
        TerminalIsSticky(o.guard, bound, evs[1..]);
      } else {
        RunFromArmed(o.guard, bound, evs[1..]);
      }
    }
  }

  lemma {:induction false} FixedRunConcat(g: FixedGuard, bound: Handle, x: seq<GuardEvent>, y: seq<GuardEvent>)
    ensures FixedRun(g, bound, x + y)
            == Outcome(FixedRun(FixedRun(g, bound, x).guard, bound, y).guard,
                       FixedRun(g, bound, x).actions + FixedRun(FixedRun(g, bound, x).guard, bound, y).actions)
    decreases |x|
  {
    if x == [] {
      assert x + y == y;
    } else {
      assert (x + y)[1..] == x[1..] + y;
      FixedRunConcat(FixedStep(g, bound, x[0]).guard, bound, x[1..], y);
    }
  }

  /**
   * Race resolution: when the reply's completion is delivered before the
   * guard has acted, neither cancel nor the timeout function ever runs,
   * whatever timeout() calls the timer had queued.
   */
  lemma CompletionBeatsTimer(bound: Handle, before: seq<GuardEvent>, after: seq<GuardEvent>)
    requires !FixedRun(FixedArmed, bound, before).guard.fired
    ensures FixedRun(FixedArmed, bound, before + [Finished(bound)] + after).actions == []
  {
    var m := FixedRun(FixedArmed, bound, before).guard;
    RunFromArmed(FixedArmed, bound, before);
    FixedValidKept(FixedArmed, bound, before);
    var d := FixedStep(m, bound, Finished(bound));
    TerminalIsSticky(d.guard, bound, after);
    assert ([Finished(bound)] + after)[1..] == after;
    FixedRunConcat(FixedArmed, bound, before, [Finished(bound)] + after);
    assert before + [Finished(bound)] + after == before + ([Finished(bound)] + after);
  }

  /**
   * Race resolution: when a queued timeout() call is delivered before the
   * completion, cancel and then the timeout function run exactly once,
   * whatever follows.
   */
  lemma TimerBeatsCompletion(bound: Handle, before: seq<GuardEvent>, after: seq<GuardEvent>)
    requires !FixedRun(FixedArmed, bound, before).guard.fired
    requires FixedRun(FixedArmed, bound, before).guard.pending > 0
    ensures FixedRun(FixedArmed, bound, before + [TimeoutDelivered] + after).actions
            == [CallCancel(bound), CallTimeout]
  {
    var m := FixedRun(FixedArmed, bound, before).guard;
    RunFromArmed(FixedArmed, bound, before);
    var d := FixedStep(m, bound, TimeoutDelivered);
    TerminalIsSticky(d.guard, bound, after);
    assert ([TimeoutDelivered] + after)[1..] == after;
    FixedRunConcat(FixedArmed, bound, before, [TimeoutDelivered] + after);
    assert before + [TimeoutDelivered] + after == before + ([TimeoutDelivered] + after);
  }
}
