/**
 * NetworkAccessManager and its per-request timeout guard, as objects whose
 * fields change step by step.
 *
 * The manager owns the tracking table `entries` and the transport: a
 * request is started by handing out the fresh reply `next`. All it does to
 * replies is appended to `log`. A guard holds the manager it cancels
 * through, the reply it watches, its timer and its connection to the
 * manager's finished signal.
 *
 * Events arrive one at a time, as on Qt's single-threaded event loop: the
 * transport's finished signal is a call of NetworkReply on the manager and
 * then on each guard; the guard's timer emitting is a call of TimerEmits,
 * which only queues a call of the guard's timeout slot, and the event loop
 * delivering that queued call is a call of Timeout.
 */
module AccessManager {
  import opened Tracking
  import opened GuardMachine

  class NetworkAccessManager {
    var entries: seq<Entry>
    var log: seq<Effect>
    var next: Handle

    ghost predicate Valid()
      reads this
    {
      Accounted(entries, log, next)
    }

    constructor ()
      ensures Valid() && entries == [] && log == [] && next == 0
    {
      entries, log, next := [], [], 0;
      AccountedInitially();
    }

    /** The state after a request for `e` was started and its entry appended at the end. */
    twostate predicate Issued(verb: Verb, request: Request, e: Entry)
      reads this
    {
      && e.reply == old(next) && next == old(next) + 1
      && entries == old(entries) + [e]
      && log == old(log) + [Started(verb, request, e.reply)]
    }

    /**
     * The transport starts the request (QNetworkAccessManager::get, post or
     * head hands out the fresh reply `next`) and its entry is appended;
     * shared by the six request forms.
     */
    method Track(verb: Verb, request: Request, owned: bool, callback: Callback) returns (reply: Handle)
      requires Valid()
      modifies this
      ensures Valid()
      ensures Issued(verb, request, Entry(reply, owned, callback))
    {
      reply := next;
      next := next + 1;
      log := log + [Started(verb, request, reply)];
      entries := entries + [Entry(reply, owned, callback)];
      AccountedAfterIssue(old(entries), old(log), old(next), Entry(reply, owned, callback), verb, request);
    }

    /** Asynchronous get: the entry is owned and runs the caller's function. */
    method Get(timeOut: int, request: Request, f: nat, m: TimeoutAction := NoAction)
      returns (reply: Handle, guard: Option<TimeOutManager>)
      requires Valid()
      modifies this
      ensures Valid()
      ensures Issued(Verb.Get, request, Entry(reply, true, Deliver(f)))
      ensures guard.Some? <==> timeOut > 0
      ensures guard.Some? ==> fresh(guard.value) && guard.value.ArmedFor(this, reply, timeOut, m)
    {
      reply := Track(Verb.Get, request, true, Deliver(f));
      guard := SetTimeOut(timeOut, reply, m);
    }

    /** Blocking get: the entry is not owned and its function captures the reply. */
    method GetBlocking(timeOut: int, request: Request, m: TimeoutAction := NoAction)
      returns (reply: Handle, guard: Option<TimeOutManager>)
      requires Valid()
      modifies this
      ensures Valid()
      ensures Issued(Verb.Get, request, Entry(reply, false, CaptureReply))
      ensures guard.Some? <==> timeOut > 0
      ensures guard.Some? ==> fresh(guard.value) && guard.value.ArmedFor(this, reply, timeOut, m)
    {
      reply := Track(Verb.Get, request, false, CaptureReply);
      guard := SetTimeOut(timeOut, reply, m);
    }

    method Post(timeOut: int, request: Request, f: nat, m: TimeoutAction := NoAction)
      returns (reply: Handle, guard: Option<TimeOutManager>)
      requires Valid()
      modifies this
      ensures Valid()
      ensures Issued(Verb.Post, request, Entry(reply, true, Deliver(f)))
      ensures guard.Some? <==> timeOut > 0
      ensures guard.Some? ==> fresh(guard.value) && guard.value.ArmedFor(this, reply, timeOut, m)
    {
      reply := Track(Verb.Post, request, true, Deliver(f));
      guard := SetTimeOut(timeOut, reply, m);
    }

    method PostBlocking(timeOut: int, request: Request, m: TimeoutAction := NoAction)
      returns (reply: Handle, guard: Option<TimeOutManager>)
      requires Valid()
      modifies this
      ensures Valid()
      ensures Issued(Verb.Post, request, Entry(reply, false, CaptureReply))
      ensures guard.Some? <==> timeOut > 0
      ensures guard.Some? ==> fresh(guard.value) && guard.value.ArmedFor(this, reply, timeOut, m)
    {
      reply := Track(Verb.Post, request, false, CaptureReply);
      guard := SetTimeOut(timeOut, reply, m);
    }

    method Head(timeOut: int, request: Request, f: nat, m: TimeoutAction := NoAction)
      returns (reply: Handle, guard: Option<TimeOutManager>)
      requires Valid()
      modifies this
      ensures Valid()
      ensures Issued(Verb.Head, request, Entry(reply, true, Deliver(f)))
      ensures guard.Some? <==> timeOut > 0
      ensures guard.Some? ==> fresh(guard.value) && guard.value.ArmedFor(this, reply, timeOut, m)
    {
      reply := Track(Verb.Head, request, true, Deliver(f));
      guard := SetTimeOut(timeOut, reply, m);
    }

    method HeadBlocking(timeOut: int, request: Request, m: TimeoutAction := NoAction)
      returns (reply: Handle, guard: Option<TimeOutManager>)
      requires Valid()
      modifies this
      ensures Valid()
      ensures Issued(Verb.Head, request, Entry(reply, false, CaptureReply))
      ensures guard.Some? <==> timeOut > 0
      ensures guard.Some? ==> fresh(guard.value) && guard.value.ArmedFor(this, reply, timeOut, m)
    {
      reply := Track(Verb.Head, request, false, CaptureReply);
      guard := SetTimeOut(timeOut, reply, m);
    }

    /**
     * Cancels a tracked reply: deleteLater if owned, erase the entry, then
     * close and abort. Returns false, changing nothing, if it is not tracked.
     */
    method Cancel(e: Handle) returns (ok: bool)
      requires Valid()
      modifies this
      ensures Valid()
      ensures ok == Tracks(old(entries), e)
      ensures entries == Erase(old(entries), e)
      ensures log == old(log) + CancelLog(old(entries), e)
      ensures next == old(next)
    {
      var found, s := FindNetworkReply(e);
      if found {
        if entries[s].owned {
          log := log + [DeleteLater(e)];
        }
        entries := RemoveAt(entries, s);
        log := log + [Close(e), Abort(e)];
        assert entries == Erase(old(entries), e);
        assert log == old(log) + CancelLog(old(entries), e);
        AccountedAfterCancel(old(entries), old(log), next, e);
      }
      ok := found;
    }

    /** Creates an armed guard for the reply exactly when the timeout is positive. */
    method SetTimeOut(s: int, e: Handle, m: TimeoutAction) returns (guard: Option<TimeOutManager>)
      ensures guard.Some? <==> s > 0
      ensures guard.Some? ==> fresh(guard.value) && guard.value.ArmedFor(this, e, s, m)
    {
      if s > 0 {
        var u := new TimeOutManager(this, m, e, s);
        u.observing := true;  // connected to the manager's finished signal
        guard := Some(u);
      } else {
        guard := None;
      }
    }

    /** The linear search of the table: the first position whose reply is e, if any. */
    method FindNetworkReply(e: Handle) returns (found: bool, pos: nat)
      ensures found == Tracks(entries, e)
      ensures found ==> pos < |entries| && FirstIndex(entries, e) == Some(pos)
    {
      var s := 0;
      while s < |entries|
        invariant s <= |entries|
        invariant forall j :: 0 <= j < s ==> entries[j].reply != e
      {
        if entries[s].reply == e {
          return true, s;
        }
        s := s + 1;
      }
      return false, 0;
    }

    /**
     * The completion dispatcher: runs the tracked reply's function, then
     * deleteLater if owned, then erases the entry; does nothing for a reply
     * that is not tracked.
     */
    method NetworkReply(e: Handle)
      requires Valid()
      modifies this
      ensures Valid()
      ensures entries == Erase(old(entries), e)
      ensures log == old(log) + CompletionLog(old(entries), e)
      ensures next == old(next)
    {
      var found, s := FindNetworkReply(e);
      if found {
        log := log + [Invoked(e, entries[s].callback)];
        if entries[s].owned {
          log := log + [DeleteLater(e)];
        }
        entries := RemoveAt(entries, s);
        assert entries == Erase(old(entries), e);
        assert log == old(log) + CompletionLog(old(entries), e);
        AccountedAfterCompletion(old(entries), old(log), next, e);
      }
    }
  }

  class TimeOutManager {
    const manager: NetworkAccessManager  // cancel goes through manager.Cancel
    const timeoutAction: TimeoutAction
    const reply: Handle
    const interval: int                  // the timer's period in milliseconds
    var timerActive: bool
    var pending: nat                     // timeout() calls the timer has queued and the loop has not delivered
    var observing: bool                  // connected to the manager's finished signal

    /** The guard's fields as a state of the guard machine. */
    function State(): Guard
      reads this
    {
      Guard(timerActive, pending, observing)
    }

    /** An armed guard for reply h of mgr, on a timer of w seconds, connected to the finished signal. */
    ghost predicate ArmedFor(mgr: NetworkAccessManager, h: Handle, w: int, m: TimeoutAction)
      reads this
    {
      && manager == mgr && reply == h && timeoutAction == m
      && interval == 1000 * w
      && State() == Armed
    }

    /** Connects the timer (queued) and starts it; the finished signal is connected by the caller. */
    constructor (mgr: NetworkAccessManager, s: TimeoutAction, m: Handle, w: int)
      ensures manager == mgr && timeoutAction == s && reply == m && interval == 1000 * w
      ensures State() == Guard(true, 0, false)
    {
      manager, timeoutAction, reply := mgr, s, m;
      interval := 1000 * w;
      timerActive, pending, observing := true, 0, false;
    }

    /** The timer emits timeout(): a running timer queues one more call of the slot. */
    method TimerEmits()
      modifies this
      ensures State() == Step(old(State()), reply, GuardEvent.TimerEmits).guard
      ensures pending == (if old(timerActive) then old(pending) + 1 else old(pending))
    {
      if timerActive {
        pending := pending + 1;
      }
    }

    /**
     * A queued timeout() call is delivered: stop the timer, disconnect from
     * the finished signal, cancel the reply (whatever cancel returns) and run
     * the timeout function. Nothing is checked first, so the call acts even
     * when networkReply has already stopped the timer.
     */
    method Timeout()
      requires pending > 0 && manager.Valid()
      modifies this, manager
      ensures State() == Step(old(State()), reply, TimeoutDelivered).guard
      ensures Step(old(State()), reply, TimeoutDelivered).actions == [CallCancel(reply), CallTimeout]
      ensures manager.Valid()
      ensures manager.entries == Erase(old(manager.entries), reply)
      ensures manager.log == old(manager.log) + CancelLog(old(manager.entries), reply) + [TimeoutCalled(timeoutAction)]
      ensures manager.next == old(manager.next)
    {
      pending := pending - 1;
      timerActive := false;
      observing := false;
      var _ := manager.Cancel(reply);
      AccountedAfterTimeoutCall(manager.entries, manager.log, manager.next, timeoutAction);
      manager.log := manager.log + [TimeoutCalled(timeoutAction)];
    }

    /**
     * The finished signal for reply e, while connected: if it is this
     * guard's reply, stop the timer (and deleteLater); calls already queued
     * stay queued. Any other reply changes nothing.
     */
    method NetworkReply(e: Handle)
      modifies this
      ensures State() == Step(old(State()), reply, Finished(e)).guard
      ensures timerActive == (old(timerActive) && !(old(observing) && e == reply))
      ensures pending == old(pending) && observing == old(observing)
    {
      if observing && e == reply {
        timerActive := false;
      }
    }
  }
}
