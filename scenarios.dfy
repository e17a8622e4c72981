/**
 * Event sequences delivered to a manager and its guards, one event at a
 * time, with what the log and the table are afterwards. A finished signal
 * reaches the manager first (it connected first) and then the guard.
 */
module Scenarios {
  import opened Tracking
  import opened GuardMachine
  import opened AccessManager

  /** The reply finishes before its timer has emitted: its function runs once and the guard falls quiet. */
  method CompletionBeforeTimeout(mgr: NetworkAccessManager, request: Request, f: nat, a: TimeoutAction)
    returns (reply: Handle)
    requires mgr.Valid()
    modifies mgr
    ensures mgr.Valid()
    ensures mgr.entries == old(mgr.entries)
    ensures mgr.log == old(mgr.log) + [Started(Verb.Get, request, reply), Invoked(reply, Deliver(f)), DeleteLater(reply)]
  {
    AtMostOnceDispatch(mgr.entries, mgr.log, mgr.next, mgr.next);
    var g;
    reply, g := mgr.Get(1, request, f, a);
    FirstIndexOfAppended(old(mgr.entries), Entry(reply, true, Deliver(f)));
    var guard := g.value;
    mgr.NetworkReply(reply);
    guard.NetworkReply(reply);
    guard.TimerEmits();  // a stopped timer queues nothing
    assert Quiet(guard.State());
  }

  /** The timer's call is delivered first: the reply is cancelled and the timeout function runs; the late finish is ignored. */
  method TimeoutBeforeCompletion(mgr: NetworkAccessManager, request: Request, f: nat, a: TimeoutAction)
    returns (reply: Handle)
    requires mgr.Valid()
    modifies mgr
    ensures mgr.Valid()
    ensures mgr.entries == old(mgr.entries)
    ensures mgr.log == old(mgr.log) + [Started(Verb.Post, request, reply), DeleteLater(reply), Close(reply), Abort(reply), TimeoutCalled(a)]
  {
    AtMostOnceDispatch(mgr.entries, mgr.log, mgr.next, mgr.next);
    var g;
    reply, g := mgr.Post(1, request, f, a);
    FirstIndexOfAppended(old(mgr.entries), Entry(reply, true, Deliver(f)));
    var guard := g.value;
    guard.TimerEmits();
    guard.Timeout();
    EraseRetires(mgr.entries, mgr.log, mgr.next, reply, reply);
    mgr.NetworkReply(reply);  // the transport still reports the aborted reply
    guard.NetworkReply(reply);
  }

  /** A blocking request without timeout: the capturing function runs and the tracker releases nothing. */
  method BlockingCompletion(mgr: NetworkAccessManager, request: Request) returns (reply: Handle)
    requires mgr.Valid()
    modifies mgr
    ensures mgr.Valid()
    ensures mgr.entries == old(mgr.entries)
    ensures mgr.log == old(mgr.log) + [Started(Verb.Get, request, reply), Invoked(reply, CaptureReply)]
  {
    AtMostOnceDispatch(mgr.entries, mgr.log, mgr.next, mgr.next);
    var g;
    reply, g := mgr.GetBlocking(0, request);
    assert g.None?;
    FirstIndexOfAppended(old(mgr.entries), Entry(reply, false, CaptureReply));
    mgr.NetworkReply(reply);
    var again := mgr.Cancel(reply);  // cancelling a completed reply
    assert !again;
  }

  /**
   * A blocking request whose timer expires: cancel erases the entry without
   * running the capturing function, and the later finish finds nothing, so
   * nothing in the log releases the blocked caller.
   */
  method BlockingTimeout(mgr: NetworkAccessManager, request: Request, a: TimeoutAction) returns (reply: Handle)
    requires mgr.Valid()
    modifies mgr
    ensures mgr.Valid()
    ensures mgr.entries == old(mgr.entries)
    ensures mgr.log == old(mgr.log) + [Started(Verb.Head, request, reply), Close(reply), Abort(reply), TimeoutCalled(a)]
    ensures Invoked(reply, CaptureReply) !in mgr.log
  {
    AtMostOnceDispatch(mgr.entries, mgr.log, mgr.next, mgr.next);
    assert Dispatches(mgr.log, mgr.next) == 0;
    ghost var before := mgr.log;
    var g;
    reply, g := mgr.HeadBlocking(2, request, a);
    FirstIndexOfAppended(old(mgr.entries), Entry(reply, false, CaptureReply));
    var guard := g.value;
    guard.TimerEmits();
    guard.Timeout();
    EraseRetires(mgr.entries, mgr.log, mgr.next, reply, reply);
    mgr.NetworkReply(reply);
    guard.NetworkReply(reply);
    NotInvoked(before, reply, CaptureReply);
    ghost var added := [Started(Verb.Head, request, reply), Close(reply), Abort(reply), TimeoutCalled(a)];
    assert mgr.log == before + added;
    assert Invoked(reply, CaptureReply) !in added;
  }

  /**
   * The race as written: the timer has queued its timeout() call when the
   * reply finishes. The reply's function runs and its entry is erased, and
   * then the queued call still runs the timeout function (its cancel finds
   * nothing to abort).
   */
  method QueuedTimeoutAfterCompletion(mgr: NetworkAccessManager, request: Request, f: nat, a: TimeoutAction)
    returns (reply: Handle)
    requires mgr.Valid()
    modifies mgr
    ensures mgr.Valid()
    ensures mgr.entries == old(mgr.entries)
    ensures mgr.log == old(mgr.log) + [Started(Verb.Get, request, reply), Invoked(reply, Deliver(f)), DeleteLater(reply), TimeoutCalled(a)]
  {
    AtMostOnceDispatch(mgr.entries, mgr.log, mgr.next, mgr.next);
    var g;
    reply, g := mgr.Get(1, request, f, a);
    FirstIndexOfAppended(old(mgr.entries), Entry(reply, true, Deliver(f)));
    var guard := g.value;
    guard.TimerEmits();
    mgr.NetworkReply(reply);
    guard.NetworkReply(reply);
    EraseRetires(mgr.entries, mgr.log, mgr.next, reply, reply);
    guard.Timeout();
  }
}
