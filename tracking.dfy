/**
 * The tracking table of NetworkAccessManager, as values.
 *
 * The table is a sequence of entries (reply, owned, callback), appended to
 * when a request is issued and erased from when a reply is cancelled or
 * completes. Everything the manager does to a reply besides bookkeeping
 * (running its callback, deleteLater, close, abort) is an Effect appended to
 * one log, so that "exactly once", "only if owned" and "in this order" become
 * statements about that log.
 */
module Tracking {

  datatype Option<+T> = None | Some(value: T)

  /** A QNetworkReply*, compared by identity only. */
  type Handle = nat

  /** An opaque QNetworkRequest. */
  type Request = nat

  datatype Verb = Get | Post | Head

  /** The function stored with an entry, run when its reply finishes. */
  datatype Callback =
    | Deliver(id: nat)  // the caller's function_t of an asynchronous request
    | CaptureReply      // the blocking forms' lambda: keep the reply, quit the local event loop

  /** The "on timeout" function of a request; the default argument is an empty lambda. */
  datatype TimeoutAction = NoAction | Action(id: nat)

  datatype Entry = Entry(reply: Handle, owned: bool, callback: Callback)

  datatype Effect =
    | Started(verb: Verb, request: Request, reply: Handle)  // the transport was asked to start a request
    | Invoked(reply: Handle, callback: Callback)             // an entry's callback ran on its reply
    | DeleteLater(reply: Handle)                             // the reply was scheduled for release
    | Close(reply: Handle)
    | Abort(reply: Handle)
    | TimeoutCalled(action: TimeoutAction)                   // a guard ran its "on timeout" function

  /** Index of the first entry whose reply is h, as the linear search finds it. */
  function FirstIndex(entries: seq<Entry>, h: Handle): (r: Option<nat>)
    ensures r.Some? ==> r.value < |entries| && entries[r.value].reply == h
    ensures r.Some? ==> forall j :: 0 <= j < r.value ==> entries[j].reply != h
    ensures r.None? ==> forall j :: 0 <= j < |entries| ==> entries[j].reply != h
  {
    if entries == [] then None
    else if entries[0].reply == h then Some(0)
    else match FirstIndex(entries[1..], h)
      case None => None
      case Some(k) => Some(k + 1)
  }

  predicate Tracks(entries: seq<Entry>, h: Handle) {
    FirstIndex(entries, h).Some?
  }

  /** vector::erase of one position: the rest keep their relative order. */
  function RemoveAt(s: seq<Entry>, i: nat): (r: seq<Entry>)
    requires i < |s|
    ensures |r| == |s| - 1
    ensures forall j :: 0 <= j < i ==> r[j] == s[j]
    ensures forall j :: i <= j < |r| ==> r[j] == s[j + 1]
  {
    s[..i] + s[i + 1..]
  }

  /** The table after the first entry for h, if any, is erased. */
  function Erase(entries: seq<Entry>, h: Handle): seq<Entry> {
    match FirstIndex(entries, h)
    case None => entries
    case Some(i) => RemoveAt(entries, i)
  }

  /** What cancel does to a tracked reply: deleteLater only if owned, then close, then abort. */
  function CancelEffects(e: Entry): (r: seq<Effect>)
    ensures DeleteLater(e.reply) in r <==> e.owned
    ensures |r| >= 2 && r[|r| - 2..] == [Close(e.reply), Abort(e.reply)]
  {
    (if e.owned then [DeleteLater(e.reply)] else []) + [Close(e.reply), Abort(e.reply)]
  }

  /** What the completion dispatcher does to a tracked reply: run its callback, then deleteLater only if owned. */
  function CompletionEffects(e: Entry): (r: seq<Effect>)
    ensures |r| >= 1 && r[0] == Invoked(e.reply, e.callback)
    ensures DeleteLater(e.reply) in r <==> e.owned
    ensures forall k :: 1 <= k < |r| ==> !r[k].Invoked?
  {
    [Invoked(e.reply, e.callback)] + (if e.owned then [DeleteLater(e.reply)] else [])
  }

  function CancelLog(entries: seq<Entry>, h: Handle): seq<Effect> {
    match FirstIndex(entries, h)
    case None => []
    case Some(i) => CancelEffects(entries[i])
  }

  function CompletionLog(entries: seq<Entry>, h: Handle): seq<Effect> {
    match FirstIndex(entries, h)
    case None => []
    case Some(i) => CompletionEffects(entries[i])
  }

  /** Number of entries of the table whose reply is h. */
  function Occurrences(entries: seq<Entry>, h: Handle): nat {
    if entries == [] then 0
    else (if entries[0].reply == h then 1 else 0) + Occurrences(entries[1..], h)
  }

  /** A dispatch retires a reply: its callback ran, or it was aborted. */
  predicate IsDispatch(e: Effect, h: Handle) {
    (e.Invoked? && e.reply == h) || e == Abort(h)
  }

  /** Number of dispatches of h in a log. */
  function Dispatches(log: seq<Effect>, h: Handle): nat {
    if log == [] then 0
    else (if IsDispatch(log[0], h) then 1 else 0) + Dispatches(log[1..], h)
  }

  /**
   * Every reply the transport has handed out (those below next) is either
   * still in the table or has been dispatched: exactly one of the two, and
   * exactly once; replies not yet handed out appear nowhere.
   */
  ghost predicate Accounted(entries: seq<Entry>, log: seq<Effect>, next: nat) {
    forall h: Handle :: Occurrences(entries, h) + Dispatches(log, h) == (if h < next then 1 else 0)
  }

  // ---------------------------------------------------------------------
  // Counting lemmas

  lemma {:induction false} OccurrencesConcat(a: seq<Entry>, b: seq<Entry>, h: Handle)
    ensures Occurrences(a + b, h) == Occurrences(a, h) + Occurrences(b, h)
  {
    if a == [] {
      assert a + b == b;
    } else {
      assert (a + b)[1..] == a[1..] + b;
      OccurrencesConcat(a[1..], b, h);
    }
  }

  lemma {:induction false} DispatchesConcat(a: seq<Effect>, b: seq<Effect>, h: Handle)
    ensures Dispatches(a + b, h) == Dispatches(a, h) + Dispatches(b, h)
  {
    if a == [] {
      assert a + b == b;
    } else {
      assert (a + b)[1..] == a[1..] + b;
      DispatchesConcat(a[1..], b, h);
    }
  }

  /** The linear search succeeds exactly when the table holds an entry for h. */
  lemma {:induction false} TracksIffOccurs(entries: seq<Entry>, h: Handle)
    ensures Tracks(entries, h) <==> Occurrences(entries, h) > 0
  {
    if entries != [] && entries[0].reply != h {
      TracksIffOccurs(entries[1..], h);
    }
  }

  /** Erasing position i removes exactly that one entry from the count. */
  lemma OccurrencesRemoveAt(s: seq<Entry>, i: nat, h: Handle)
    requires i < |s|
    ensures Occurrences(RemoveAt(s, i), h) + (if s[i].reply == h then 1 else 0) == Occurrences(s, h)
  {
    assert s == s[..i] + [s[i]] + s[i + 1..];
    OccurrencesConcat(s[..i] + [s[i]], s[i + 1..], h);
    OccurrencesConcat(s[..i], [s[i]], h);
    OccurrencesConcat(s[..i], s[i + 1..], h);
  }

  /** Erasing h takes one entry for h out of the table, if there is one, and no entry of any other reply. */
  lemma EraseOccurrences(entries: seq<Entry>, h: Handle, k: Handle)
    ensures Occurrences(Erase(entries, h), k)
            == Occurrences(entries, k) - (if k == h && Tracks(entries, h) then 1 else 0)
  {
    if Tracks(entries, h) {
      OccurrencesRemoveAt(entries, FirstIndex(entries, h).value, k);
    }
  }

  lemma DispatchesOfCancel(entries: seq<Entry>, h: Handle, k: Handle)
    ensures Dispatches(CancelLog(entries, h), k) == (if k == h && Tracks(entries, h) then 1 else 0)
  {
    if Tracks(entries, h) {
      var e := entries[FirstIndex(entries, h).value];
      var tail := [Close(h), Abort(h)];
      assert tail[1..] == [Abort(h)] && [Abort(h)][1..] == [];
      assert Dispatches([Abort(h)], k) == (if k == h then 1 else 0);
      assert Dispatches(tail, k) == (if k == h then 1 else 0);
      if e.owned {
        assert CancelEffects(e) == [DeleteLater(h)] + tail;
        DispatchesConcat([DeleteLater(h)], tail, k);
        assert [DeleteLater(h)][1..] == [];
      } else {
        assert CancelEffects(e) == tail;
      }
    }
  }

  lemma DispatchesOfCompletion(entries: seq<Entry>, h: Handle, k: Handle)
    ensures Dispatches(CompletionLog(entries, h), k) == (if k == h && Tracks(entries, h) then 1 else 0)
  {
    if Tracks(entries, h) {
      var e := entries[FirstIndex(entries, h).value];
      var head := [Invoked(h, e.callback)];
      assert head[1..] == [];
      assert Dispatches(head, k) == (if k == h then 1 else 0);
      if e.owned {
        assert CompletionEffects(e) == head + [DeleteLater(h)];
        DispatchesConcat(head, [DeleteLater(h)], k);
        assert [DeleteLater(h)][1..] == [];
      } else {
        assert CompletionEffects(e) == head;
      }
    }
  }

  // ---------------------------------------------------------------------
  // The accounting invariant is kept by every operation of the manager

  lemma {:induction false} AccountedInitially()
    ensures Accounted([], [], 0)
  {
    forall h: Handle ensures Occurrences([], h) + Dispatches([], h) == 0 { }
  }

  /** Issuing a request: the transport hands out reply next, which the table then tracks. */
  lemma AccountedAfterIssue(entries: seq<Entry>, log: seq<Effect>, next: nat, e: Entry, verb: Verb, request: Request)
    requires Accounted(entries, log, next)
    requires e.reply == next
    ensures Accounted(entries + [e], log + [Started(verb, request, next)], next + 1)
  {
    forall h: Handle
      ensures Occurrences(entries + [e], h) + Dispatches(log + [Started(verb, request, next)], h)
              == (if h < next + 1 then 1 else 0)
    {
      OccurrencesConcat(entries, [e], h);
      DispatchesConcat(log, [Started(verb, request, next)], h);
      assert [e][1..] == [];
      assert [Started(verb, request, next)][1..] == [];
    }
  }

  lemma AccountedAfterCancel(entries: seq<Entry>, log: seq<Effect>, next: nat, h: Handle)
    requires Accounted(entries, log, next)
    ensures Accounted(Erase(entries, h), log + CancelLog(entries, h), next)
  {
    forall k: Handle
      ensures Occurrences(Erase(entries, h), k) + Dispatches(log + CancelLog(entries, h), k)
              == (if k < next then 1 else 0)
    {
      EraseOccurrences(entries, h, k);
      DispatchesConcat(log, CancelLog(entries, h), k);
      DispatchesOfCancel(entries, h, k);
      TracksIffOccurs(entries, h);
    }
  }

  lemma AccountedAfterCompletion(entries: seq<Entry>, log: seq<Effect>, next: nat, h: Handle)
    requires Accounted(entries, log, next)
    ensures Accounted(Erase(entries, h), log + CompletionLog(entries, h), next)
  {
    forall k: Handle
      ensures Occurrences(Erase(entries, h), k) + Dispatches(log + CompletionLog(entries, h), k)
              == (if k < next then 1 else 0)
    {
      EraseOccurrences(entries, h, k);
      DispatchesConcat(log, CompletionLog(entries, h), k);
      DispatchesOfCompletion(entries, h, k);
      TracksIffOccurs(entries, h);
    }
  }

  /** Running a timeout function dispatches nothing. */
  lemma AccountedAfterTimeoutCall(entries: seq<Entry>, log: seq<Effect>, next: nat, a: TimeoutAction)
    requires Accounted(entries, log, next)
    ensures Accounted(entries, log + [TimeoutCalled(a)], next)
  {
    forall k: Handle
      ensures Occurrences(entries, k) + Dispatches(log + [TimeoutCalled(a)], k) == (if k < next then 1 else 0)
    {
      DispatchesConcat(log, [TimeoutCalled(a)], k);
      assert [TimeoutCalled(a)][1..] == [];
    }
  }

  // ---------------------------------------------------------------------
  // Consequences of the invariant

  /**
   * A reply is dispatched at most once, a dispatched reply is no longer in
   * the table, and a reply is in the table at most once.
   */
  lemma AtMostOnceDispatch(entries: seq<Entry>, log: seq<Effect>, next: nat, h: Handle)
    requires Accounted(entries, log, next)
    ensures Dispatches(log, h) <= 1
    ensures Occurrences(entries, h) <= 1
    ensures Dispatches(log, h) == 1 ==> !Tracks(entries, h)
    ensures h >= next ==> !Tracks(entries, h) && Dispatches(log, h) == 0
    ensures h < next ==> (Tracks(entries, h) <==> Dispatches(log, h) == 0)
  {
    TracksIffOccurs(entries, h);
  }

  /**
   * After a cancel or a completion erased h, the table no longer tracks h,
   * so a second cancel returns false and a second completion does nothing;
   * whether any other reply is tracked is unchanged.
   */
  lemma EraseRetires(entries: seq<Entry>, log: seq<Effect>, next: nat, h: Handle, k: Handle)
    requires Accounted(entries, log, next)
    ensures !Tracks(Erase(entries, h), h)
    ensures k != h ==> (Tracks(Erase(entries, h), k) <==> Tracks(entries, k))
  {
    AtMostOnceDispatch(entries, log, next, h);
    EraseOccurrences(entries, h, h);
    EraseOccurrences(entries, h, k);
    TracksIffOccurs(entries, h);
    TracksIffOccurs(Erase(entries, h), h);
    TracksIffOccurs(entries, k);
    TracksIffOccurs(Erase(entries, h), k);
  }

  /** A reply that has never been dispatched has had no callback run on it. */
  lemma {:induction false} NotInvoked(log: seq<Effect>, h: Handle, c: Callback)
    requires Dispatches(log, h) == 0
    ensures Invoked(h, c) !in log
  {
    if log != [] {
      NotInvoked(log[1..], h, c);
      assert log == [log[0]] + log[1..];
    }
  }

  /** A freshly appended entry is the one the search finds for its reply. */
  lemma FirstIndexOfAppended(entries: seq<Entry>, e: Entry)
    requires !Tracks(entries, e.reply)
    ensures FirstIndex(entries + [e], e.reply) == Some(|entries|)
    ensures Erase(entries + [e], e.reply) == entries
  {
    assert (entries + [e])[|entries|].reply == e.reply;
    assert RemoveAt(entries + [e], |entries|) == entries;
  }
}
