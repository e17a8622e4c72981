# NetworkAccessManager request tracking, modelled in Dafny

This project models the request bookkeeping that SiriKali's `NetworkAccessManager` puts on top of Qt's network stack. It also models the per-request timeout guard `NetworkAccessManagerTimeOutManager`.

- **The tracking table.** Each request the manager issues (`get`, `post` or `head`, in an asynchronous form taking a callback and in a blocking form) adds an entry `(reply, owned, callback)` at the end of a table.
- **Completion.** When the transport's `finished` signal arrives for a reply, `networkReply` finds the first entry for that reply. It runs the entry's callback, releases the reply with `deleteLater` only if the entry is owned, and erases the entry.
- **Cancellation.** `cancel` finds the same entry. It releases the reply if owned, erases the entry, then closes and aborts the reply. It returns whether an entry was found.
- **The timeout guard.** A positive timeout creates a guard with a timer of `1000 * seconds` milliseconds. The timer's `timeout()` signal reaches the guard's slot through a queued connection, so each emission only queues a call that the event loop delivers later. A delivered call stops the timer, disconnects the guard from `finished`, cancels the reply and then runs the caller's "on timeout" function. When the guard's reply finishes, the guard's `networkReply` slot stops the timer and schedules the guard's deletion. It does not take back a call that is already queued, and the timeout slot checks nothing before acting (see "## Findings").

Modules:

- `Tracking` (tracking.dfy) holds the table and the effect log as values: entries, the linear search `FirstIndex`, erasure, and the effects a cancel or a completion has on the log. It also holds the accounting invariant `Accounted`: every reply handed out by the transport is counted exactly once, either as an entry still in the table or as a dispatch in the log, and a reply not yet handed out is counted nowhere. A dispatch is a callback run on the reply, or an abort of it. The module proves that every operation keeps this invariant and what follows from it.
- `GuardMachine` (guard_machine.dfy) holds the guard as a state machine over three events: the timer emits, a queued timeout call is delivered, and `finished(reply)` arrives. A guard state is its timer's activity, the number of queued timeout calls, and whether it is still connected to `finished`. `Step` is the guard as written. `FixedStep` adds a "has acted" flag, and the race lemmas are proved about it.
- `AccessManager` (network_access_manager.dfy) holds the two classes. `NetworkAccessManager` has fields `entries`, `log` and `next`, where `next` is the transport's next fresh reply. `TimeOutManager` has fields for its timer, its queued timeout calls and its signal connection, read together as a `GuardMachine.Guard` by `State()`. Each guard method's new state is `Step` applied to its old state. The manager's `Valid()` is the accounting invariant. Every manager method that starts from a valid manager leaves it valid, and so does the guard's `Timeout`, which changes the manager.
- `Scenarios` (scenarios.dfy) delivers complete event sequences to a manager and its guard, one event at a time, and states the resulting log. The sequences are: completion before the timer emits, a delivered timeout call before completion, a blocking completion followed by a late cancel, a blocking request that times out, and a completion that comes between the timer's emission and the delivery of its call.

Replies (`QNetworkReply *`) are abstract identities (`nat`). The transport hands out `next` and increments it, so each reply is fresh. The source relies on this without checking it. Requests and callbacks are opaque identifiers. Running a callback, `deleteLater`, `close`, `abort` and running the "on timeout" function are appended to the manager's `log` as effects. Events are delivered one at a time, as Qt's single-threaded event loop does: the `finished` signal is a call of `NetworkReply` on the manager and then on each guard (the manager connected first), and the timer emitting is a call of `TimerEmits` on its guard. The delivery of a queued timeout call is a call of `Timeout`, which requires a queued call.

Behaviour of the code that the model keeps on purpose:

- A timed-out blocking request is not released with an aborted result. A timeout goes through `cancel`, which erases the entry without running its stored function (network_access_manager.hpp:216). The later `finished` event then finds no entry, so the capturing function never runs and the nested event loop is never quit. `Scenarios.BlockingTimeout` shows this.
- `cancel` works in the order deleteLater (if owned), then erase, then close, then abort (network_access_manager.hpp:211-219). A reply that is not tracked is neither closed nor aborted.
- The guard runs the "on timeout" function whatever `cancel` returns (network_access_manager.hpp:73-75), including when the reply has already been erased.

## Model

| member | source | states |
|---|---|---|
| Tracking.FirstIndex | sirikali/src/3rdParty/NetworkAccessManager/network_access_manager.hpp:237-250 | the result is the lowest index whose reply is the argument; it is None exactly when no entry holds that reply |
| Tracking.RemoveAt | sirikali/src/3rdParty/NetworkAccessManager/network_access_manager.hpp:216 | erasing one position removes one entry; the entries before it are unchanged and those after it shift down by one, so relative order is kept |
| Tracking.CancelEffects | sirikali/src/3rdParty/NetworkAccessManager/network_access_manager.hpp:211-219 | cancel releases the reply (deleteLater) exactly when the entry is owned, and it always ends with close followed by abort |
| Tracking.CompletionEffects | sirikali/src/3rdParty/NetworkAccessManager/network_access_manager.hpp:256-261 | completion first runs the entry's own callback on its reply, runs no other callback, and releases the reply exactly when the entry is owned |
| Tracking.TracksIffOccurs | sirikali/src/3rdParty/NetworkAccessManager/network_access_manager.hpp:237-250 | the linear search succeeds if and only if some entry holds the reply |
| Tracking.OccurrencesConcat | sirikali/src/3rdParty/NetworkAccessManager/network_access_manager.hpp:122 | the number of entries for a reply in two appended tables is the sum of the two counts |
| Tracking.DispatchesConcat | sirikali/src/3rdParty/NetworkAccessManager/network_access_manager.hpp:252-265 | the number of dispatches of a reply in two appended logs is the sum of the two counts |
| Tracking.OccurrencesRemoveAt | sirikali/src/3rdParty/NetworkAccessManager/network_access_manager.hpp:216 | erasing a position takes exactly that entry out of the count for its reply and changes the count of no other reply |
| Tracking.EraseOccurrences | sirikali/src/3rdParty/NetworkAccessManager/network_access_manager.hpp:207-221 | erasing a reply's entry removes one entry for that reply if it is tracked, and no entry of any other reply |
| Tracking.DispatchesOfCancel | sirikali/src/3rdParty/NetworkAccessManager/network_access_manager.hpp:207-221 | a cancel dispatches the cancelled reply exactly once if it is tracked, dispatches nothing otherwise, and never dispatches another reply |
| Tracking.DispatchesOfCompletion | sirikali/src/3rdParty/NetworkAccessManager/network_access_manager.hpp:252-265 | a completion dispatches the finished reply exactly once if it is tracked, dispatches nothing otherwise, and never dispatches another reply |
| Tracking.AccountedInitially | sirikali/src/3rdParty/NetworkAccessManager/network_access_manager.hpp:102-111 | the empty table and empty log satisfy the accounting invariant |
| Tracking.AccountedAfterIssue | sirikali/src/3rdParty/NetworkAccessManager/network_access_manager.hpp:120-122 | starting a request for a fresh reply and appending its entry keeps the accounting invariant |
| Tracking.AccountedAfterCancel | sirikali/src/3rdParty/NetworkAccessManager/network_access_manager.hpp:207-221 | a cancel, tracked or not, keeps the accounting invariant |
| Tracking.AccountedAfterCompletion | sirikali/src/3rdParty/NetworkAccessManager/network_access_manager.hpp:252-265 | a completion, tracked or not, keeps the accounting invariant |
| Tracking.AccountedAfterTimeoutCall | sirikali/src/3rdParty/NetworkAccessManager/network_access_manager.hpp:75 | running a timeout function dispatches nothing, so it keeps the accounting invariant |
| Tracking.AtMostOnceDispatch | sirikali/src/3rdParty/NetworkAccessManager/network_access_manager.hpp:252-265 | under the invariant, a reply is dispatched at most once and is in the table at most once; a reply handed out is tracked exactly when it has not been dispatched; a reply not yet handed out is neither tracked nor dispatched |
| Tracking.EraseRetires | sirikali/src/3rdParty/NetworkAccessManager/network_access_manager.hpp:207-221 | after a reply's entry is erased, the reply is no longer tracked, so a second cancel returns false and a second completion does nothing; every other reply stays tracked or untracked as it was |
| Tracking.NotInvoked | sirikali/src/3rdParty/NetworkAccessManager/network_access_manager.hpp:256 | a reply that has never been dispatched has had no callback run on it |
| Tracking.FirstIndexOfAppended | sirikali/src/3rdParty/NetworkAccessManager/network_access_manager.hpp:117-127 | a newly appended entry for a reply that was not tracked is the one the search finds, and erasing it gives back the table as it was before the append |
| GuardMachine.ForeignCompletionIgnored | sirikali/src/3rdParty/NetworkAccessManager/network_access_manager.hpp:79-81 | a completion for any other reply leaves the guard's state unchanged and makes it do nothing |
| GuardMachine.QuietIsSticky | sirikali/src/3rdParty/NetworkAccessManager/network_access_manager.hpp:66-86 | once the timer is stopped and no timeout call is queued, the guard stays so and does nothing for any sequence of later events |
| GuardMachine.CompletionWithNothingQueued | sirikali/src/3rdParty/NetworkAccessManager/network_access_manager.hpp:79-86 | a completion of the bound reply while the guard is connected and no timeout call is queued means the guard never acts, whatever follows |
| GuardMachine.QueuedTimeoutRunsAfterCompletion | sirikali/src/3rdParty/NetworkAccessManager/network_access_manager.hpp:60-61 | as written: when the timer emits, then the bound reply finishes, then the queued call is delivered, the guard still calls cancel and then the timeout function |
| GuardMachine.FixedValidKept | sirikali/src/3rdParty/NetworkAccessManager/network_access_manager.hpp:66-86 | corrected guard (see Findings): a guard that has not acted stays connected to the finished signal, over any events |
| GuardMachine.TerminalIsSticky | sirikali/src/3rdParty/NetworkAccessManager/network_access_manager.hpp:66-86 | corrected guard (see Findings): once the guard has acted, it stays so and does nothing for any sequence of later events |
| GuardMachine.RunFromArmed | sirikali/src/3rdParty/NetworkAccessManager/network_access_manager.hpp:66-86 | corrected guard (see Findings): over any events the guard does nothing, or calls cancel on its own reply and then the timeout function, once; a guard that has not acted by the end did nothing, and one that had already acted does nothing |
| GuardMachine.CompletionBeatsTimer | sirikali/src/3rdParty/NetworkAccessManager/network_access_manager.hpp:66-86 | corrected guard (see Findings): a completion of the bound reply delivered before the guard has acted means neither cancel nor the timeout function ever runs, whatever calls the timer had queued |
| GuardMachine.TimerBeatsCompletion | sirikali/src/3rdParty/NetworkAccessManager/network_access_manager.hpp:66-78 | corrected guard (see Findings): a queued timeout call delivered before the guard has acted runs cancel and then the timeout function, exactly once, whatever follows |
| AccessManager.NetworkAccessManager.constructor | sirikali/src/3rdParty/NetworkAccessManager/network_access_manager.hpp:108-112 | a new manager has an empty table and log and satisfies the invariant |
| AccessManager.NetworkAccessManager.Track | sirikali/src/3rdParty/NetworkAccessManager/network_access_manager.hpp:120-122 | the transport hands out a fresh reply and logs the start of the request; exactly one entry, for that reply, is appended at the end of the table; the invariant is kept |
| AccessManager.NetworkAccessManager.Get | sirikali/src/3rdParty/NetworkAccessManager/network_access_manager.hpp:117-127 | asynchronous get appends one owned entry running the caller's function at the end of the table, and creates an armed guard exactly when the timeout is positive |
| AccessManager.NetworkAccessManager.GetBlocking | sirikali/src/3rdParty/NetworkAccessManager/network_access_manager.hpp:128-145 | blocking get appends one entry that is not owned and whose function captures the reply, and creates an armed guard exactly when the timeout is positive |
| AccessManager.NetworkAccessManager.Post | sirikali/src/3rdParty/NetworkAccessManager/network_access_manager.hpp:146-157 | asynchronous post appends one owned entry with the caller's function, and creates a guard exactly when the timeout is positive |
| AccessManager.NetworkAccessManager.PostBlocking | sirikali/src/3rdParty/NetworkAccessManager/network_access_manager.hpp:158-177 | blocking post appends one entry that is not owned and captures the reply, and creates a guard exactly when the timeout is positive |
| AccessManager.NetworkAccessManager.Head | sirikali/src/3rdParty/NetworkAccessManager/network_access_manager.hpp:178-188 | asynchronous head appends one owned entry with the caller's function, and creates a guard exactly when the timeout is positive |
| AccessManager.NetworkAccessManager.HeadBlocking | sirikali/src/3rdParty/NetworkAccessManager/network_access_manager.hpp:189-206 | blocking head appends one entry that is not owned and captures the reply, and creates a guard exactly when the timeout is positive |
| AccessManager.NetworkAccessManager.Cancel | sirikali/src/3rdParty/NetworkAccessManager/network_access_manager.hpp:207-221 | returns true exactly when the reply is tracked; then it erases exactly its first entry and logs deleteLater (only if owned), close and abort; an untracked reply leaves the table and the log unchanged; the invariant is kept |
| AccessManager.NetworkAccessManager.SetTimeOut | sirikali/src/3rdParty/NetworkAccessManager/network_access_manager.hpp:223-235 | creates a fresh guard exactly when the timeout is positive; the guard is bound to the reply and to this manager, is armed and connected, and its timer period is 1000 times the seconds |
| AccessManager.NetworkAccessManager.FindNetworkReply | sirikali/src/3rdParty/NetworkAccessManager/network_access_manager.hpp:237-250 | finds an entry if and only if one holds the reply, and then returns the lowest such position |
| AccessManager.NetworkAccessManager.NetworkReply | sirikali/src/3rdParty/NetworkAccessManager/network_access_manager.hpp:252-265 | for a tracked reply, runs its entry's callback once, logs deleteLater only if owned, and erases exactly that entry; an untracked reply changes nothing; the invariant is kept |
| AccessManager.TimeOutManager.constructor | sirikali/src/3rdParty/NetworkAccessManager/network_access_manager.hpp:50-64 | a new guard is bound to its reply, manager and timeout function, its timer runs with a period of 1000 times the seconds, nothing is queued, and it is not yet connected to the finished signal |
| AccessManager.TimeOutManager.TimerEmits | sirikali/src/3rdParty/NetworkAccessManager/network_access_manager.hpp:60-63 | a running timer queues one more call of the timeout slot; a stopped timer queues nothing; the new state is the machine's step |
| AccessManager.TimeOutManager.Timeout | sirikali/src/3rdParty/NetworkAccessManager/network_access_manager.hpp:66-78 | a delivered call, with no check of the guard's state, stops the timer, disconnects, cancels the reply through the manager (erasing and logging exactly what cancel does) and then logs the timeout function; the manager's invariant is kept and the new state is the machine's step |
| AccessManager.TimeOutManager.NetworkReply | sirikali/src/3rdParty/NetworkAccessManager/network_access_manager.hpp:79-86 | while connected, the completion of its own reply stops the timer and leaves queued calls queued; any other reply changes nothing; the new state is the machine's step |
| Scenarios.CompletionBeforeTimeout | sirikali/src/3rdParty/NetworkAccessManager/network_access_manager.hpp:79-86 | get with a timeout, then completion before the timer emits: the log gains exactly start, the callback and deleteLater, the table returns to what it was, and the guard falls quiet |
| Scenarios.TimeoutBeforeCompletion | sirikali/src/3rdParty/NetworkAccessManager/network_access_manager.hpp:66-78 | post with a timeout, the timer's call delivered, then a late completion: the log gains exactly start, deleteLater, close, abort and the timeout function, and no callback runs |
| Scenarios.BlockingCompletion | sirikali/src/3rdParty/NetworkAccessManager/network_access_manager.hpp:128-145 | a blocking get without timeout completes with the capturing function and no release by the tracker; a later cancel returns false |
| Scenarios.BlockingTimeout | sirikali/src/3rdParty/NetworkAccessManager/network_access_manager.hpp:189-206 | a blocking head that times out is closed and aborted, and its capturing function never runs |
| Scenarios.QueuedTimeoutAfterCompletion | sirikali/src/3rdParty/NetworkAccessManager/network_access_manager.hpp:60-61 | as written: get with a timeout, the timer emits, the reply completes, then the queued call is delivered: the log gains start, the callback, deleteLater and then the timeout function as well |

## Left out

- The Qt transport (`QNetworkAccessManager::get/post/head`, `QNetworkReply`) is foreign library code. Starting a request is modelled as handing out a fresh abstract reply. The `QtNAM()` accessor (network_access_manager.hpp:113-116) only exposes that object and is not modelled.
- The nested `QEventLoop::exec`/`quit` of the blocking forms is not modelled. The blocking methods return the transport's reply instead of waiting. The capturing function is recorded as the effect `Invoked(reply, CaptureReply)`. The model does not claim that a timeout releases a blocked caller.
- The `unique_ptr` that the blocking forms return, with its `deleteLater` deleter (network_access_manager.hpp:144, 176, 205), belongs to the caller and is not modelled.
- Real time and `QTimer` are not modelled: the timer's emissions are calls of `TimerEmits`, in any order the caller chooses. The connect/disconnect machinery of signals and slots is reduced to the guard's `observing` flag and its count of queued calls.
- `deleteLater` of a reply is a logged effect, not a release of memory. A guard's own `deleteLater` is not modelled: events posted before the deletion are still delivered, and a sequence of events to a guard may simply stop, which is all the deletion does to it.
- The guard's connection to `finished` is queued too (network_access_manager.hpp:233-234). That delay is not a separate event: a caller of the model delivers `NetworkReply` to the guard at whatever point after the manager's it chooses.
- The payload of `post` (template type `T`, network_access_manager.hpp:146-177) is opaque and does not affect the lifecycle, so it is not a parameter.
- AccessManager.TimeOutManager.constructor: the timer period `1000 * w` is computed on unbounded integers; the source's `int` product overflows for `w` above 2147483 seconds, and that wrap-around is not modelled.
- AccessManager.NetworkAccessManager.SetTimeOut: states the same unbounded product `1000 * s` as the guard's period; the `int` overflow is not modelled.
- Callbacks that re-enter the manager are not modelled. Such a callback (calling `cancel`, `get` and so on from inside the stored function) would change the table before the source erases position `s` (network_access_manager.hpp:256-263). Callbacks here are logged events only.

## Findings

| source | as written | input that shows it | evidently intended | confidence | as-written member | corrected member |
|---|---|---|---|---|---|---|
| sirikali/src/3rdParty/NetworkAccessManager/network_access_manager.hpp:60-86 | the timer's `timeout()` reaches the slot through a queued connection, `networkReply` only stops the timer, and the `timeout()` slot acts without checking whether the guard has already finished | get with a positive timeout; the timer emits, queueing a `timeout()` call; the reply's `finished` is processed before that call is delivered; the call then runs `cancel` (which finds nothing) and the "on timeout" function for a request that succeeded | once the reply has completed, the guard never runs the "on timeout" function (a flag set by `networkReply` and checked by `timeout()`) | medium, not executed | GuardMachine.QueuedTimeoutRunsAfterCompletion | GuardMachine.CompletionBeatsTimer |

`Scenarios.QueuedTimeoutAfterCompletion` shows the same race on the classes. The corrected machine `GuardMachine.FixedStep` records that the guard has acted, and `TerminalIsSticky`, `RunFromArmed` and `TimerBeatsCompletion` are proved about it as well. The classes model the guard as written.
