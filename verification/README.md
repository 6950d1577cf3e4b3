# DelegateMQ runtime: a verified model

This project models the concurrency and messaging runtime, DelegateMQ, that the
asynchronous SQLite wrapper is built on, and proves what the runtime promises. To verify
it, run `dafny verify dfyconfig.toml` with Dafny 4.11.

## How it is built

Every component is modelled in up to three layers.

1. *Regions.* Each stretch of code that runs under one lock, or as one queue operation or
   one call of a transport or target, is a function on values (`StatusRegion`,
   `AllocateRegion`, `SubscribeRegion` and so on): the same branches, edge cases, constants
   and ignored results as the code.
2. *Classes.* An object that the code updates in place is a class with the same fields.
   Its methods have the code's loops and list surgery, and their contracts equate the new
   state with the region functions.
3. *Runs.* A state machine whose steps are those regions. A step that is not enabled
   changes nothing, so a run is any sequence of steps: every interleaving of any number of
   threads. Theorems about runs hold for all sequences of steps.

| files | component |
|---|---|
| `MessageKeys`, `TransportMonitor`, `MonitorRuns`, `RetryMonitor`, `RetryRuns`, `RetryFresh` | reliable delivery, sending side |
| `Participant`, `EndToEnd`, `Dispatcher` | receiving side, the whole path, sequence numbers |
| `AsyncWait`, `AsyncSqlite`, `SqliteWorker`, `SqliteCalls`, `SqliteDatabase` | the blocking cross-thread call, the SQLite worker's queue, and the database behind it |
| `NetworkWait` | the remote call that waits for its acknowledgement |
| `Multicast`, `MulticastContainer` | the re-entrant delegate container |
| `Signal`, `SignalRuns` | signals, state blocks and connection handles |
| `Allocator`, `AllocatorRuns`, `XAllocator`, `XHeap`, `BucketRuns` | fixed-block allocators and the heap on top of them |
| `Timer`, `TimerRuns`, `TimerList` | timers and deadlines |
| `Gf2`, `Crc16` | the CRC |
| `DataBus`, `BusRuns` | the topic registry and the last-value cache |
| `Common` | what several components need: options, powers of two, sequences without repetition |

Time, what the heap returns, what a transport or a target returns, and the moments at which
threads are scheduled are parameters of the steps, so statements hold for all of them.

## What turned out

Properties that hold only under a condition are proved with the exact condition, and with a
run or an input that fails without it.

- `TransportMonitor::Process` reads the array of expired items, a member, after it has
  released the lock. Exactly the runs in which a pass fills a slot that another pass has
  still to read lose a timeout for good (`MonitorRuns.IntactIff`, `MonitorRuns.LostIff`,
  `MonitorRuns.OverlapLoses`); calls of `Process` that do not overlap never do
  (`MonitorRuns.ApartNeverClobbers`). For the retries this means that a callback is lost and
  another repeated. The bounds on sends and timeouts hold all the same; that no stored
  message is forgotten, and what fresh keys add, needs runs without it (`RetryRuns.Orderly`).
- A stored packet is always pending or owned by an operation, except after exactly two kinds
  of step: the lost callback just mentioned, and a re-registration refused at the cap, whose
  result the code ignores (`RetryRuns.TrackedStep`). A run with the latter leaves a sent message that no fresh
  continuation ever resends or drops (`RetryFresh.RefusedReregistrationStrandsMessage`,
  `RetryFresh.NeverResent`).
- A refused send restores the retry store exactly when its key was not already stored;
  otherwise the older message is lost (`RetryMonitors.RefusedSend`,
  `RetryFresh.CollisionLosesMessage`). The dispatcher's numbers keep keys fresh as long as no
  message stays in flight for 65536 dispatches (`Dispatchers.FreshBeginIff`,
  `Dispatchers.CountedIsFresh`).
- An ACK that carries no id removes the smallest key with its number, so it takes the right
  entry exactly under the condition in `TransportMonitors.AckWithoutId`, and otherwise another
  remote's (`TransportMonitors.AckWithoutIdTakesOther`).
- The outcome of a remote call does not depend on when its number is recorded exactly when
  all statuses handled for that number are equal (`NetworkWait.SameWhereverIff`,
  `NetworkWait.TwoStatusesDependOnOrder`).
- A block of `xmalloc` has room for its request exactly when the request with its overhead
  does not pass 2^63 (`XHeaps.RoomIffFits`). Beyond that, up to 2^64 + 4, the bucket is below
  the size of a pointer (`BucketRuns.SoundIff`), and each such request puts one more allocator
  of the same size in the table (`BucketRuns.FoundAgainIff`, `BucketRuns.OversizeAgain`).
- Moving into an idle multicast container keeps it free of blanks exactly when the source is
  (`MulticastDelegates.MoveKeepsIdle`); a list handed on in mid-broadcast need not be
  (`MulticastDelegates.MovedInMidBroadcast`).
- A pass over the timers invokes all that have expired unless the sixteenth of them is not
  the last of the list; exactly then it ends in the fault handler, under the lock and with
  none invoked (`TimerRuns.ProcessFires`, `TimerRuns.SixteenAndOne`).
- A periodic timer's deadline has moved exactly one period per firing if and only if each
  expiry is processed no later than one period after it fell due (`TimerRuns.Deadlines`). Its
  deadlines stay on its grid if and only if each firing is processed in time or restarts the
  timer a whole number of periods late (`TimerRuns.OnGridIff`, `TimerRuns.LateFirings`).
- The cast of a cached value in the second half of a subscription is safe exactly when there
  is nothing to give or the topic's type is still the subscriber's; a reset in between can
  break it (`BusRuns.JoinerCastSafeIff`, `BusRuns.ResetBreaksCast`).
- A subscription refused for its type leaves the bus as it was exactly when it asked for no
  caching or the topic was caching already; otherwise it switches caching on
  (`BusRuns.RefusedStillCaches`). The refused call ends in the fault handler and never
  returns, so this shows only to other threads, and only until the program has ended
  (`BusRuns.RefusedChangesJoiner`).
- The comment at `DataBus.h:439-440` calls caching sticky until a reset; in the code
  `LastValueCache` can also switch it off. The model follows the code.

## Model

| member | source | states |
|---|---|---|
| MessageKeys.KeyInjective | DelegateMQ/extras/util/RetryMonitor.h:87-88 | two headers have the same 32-bit key only if both id and sequence number agree |
| TransportMonitors.TransportMonitor.Add | DelegateMQ/extras/util/TransportMonitor.h:68-97 | an entry is added exactly when the map is below its cap and the key is absent; otherwise nothing changes, and only the cap is reported |
| TransportMonitors.TransportMonitor.Remove | DelegateMQ/extras/util/TransportMonitor.h:104-138 | exactly one SUCCESS for the entry acknowledged, and nothing at all if there is none; with id 0 the entry is the one of the smallest key with that number |
| TransportMonitors.AckWithoutId | DelegateMQ/extras/util/TransportMonitor.h:104-138 | an acknowledgement without an id takes a given key if and only if no smaller pending key has the same sequence number |
| TransportMonitors.AckWithoutIdTakesOther | DelegateMQ/extras/util/TransportMonitor.h:104-138 | of two pending messages with one number an acknowledgement without an id takes the one whose id is smaller, and no other |
| TransportMonitors.FindSeqNum | DelegateMQ/extras/util/TransportMonitor.h:118-126 | the search for a number without an id finds the smallest key, or nothing if no entry has it |
| TransportMonitors.ExtractExpired | DelegateMQ/extras/util/TransportMonitor.h:155-180 | one locked scan takes at most sixteen expired entries, all of them if there are fewer, and leaves every other entry as it was |
| TransportMonitors.FewerExpired | DelegateMQ/extras/util/TransportMonitor.h:150-197 | a full pass lowers the number of expired entries by sixteen whatever fresh entries callbacks add, so the drain ends |
| TransportMonitors.DrainStep | DelegateMQ/extras/util/TransportMonitor.h:150-197 | each pass fires only entries of the start that have not fired, and after a pass that was not full none is expired |
| TransportMonitors.TransportMonitor.Pass | DelegateMQ/extras/util/TransportMonitor.h:155-196 | one pass notifies exactly the entries it took, in order, while callbacks may add entries, and reports how many are left exactly if expired ones are |
| TransportMonitors.TransportMonitor.Process | DelegateMQ/extras/util/TransportMonitor.h:146-198 | Process terminates, leaves no expired entry, and emits one TIMEOUT, with the id and number it was added for, for exactly the entries added more than the timeout ago, for any callbacks that add fresh entries |
| MonitorRuns.Conservation | DelegateMQ/extras/util/TransportMonitor.h:68-198 | in every run in which no pass fills a slot of the shared array that another has still to read, each accepted Add is pending, acknowledged or one timeout of one pass, never two of these; it is told once or still due; the numbers add up; and pending never passes the cap |
| MonitorRuns.AddedAndAcknowledged | DelegateMQ/extras/util/TransportMonitor.h:68-138 | an accepted Add is pending and an acknowledged one is told of as such, both by its own number, and nothing else changes |
| MonitorRuns.IntactIff | DelegateMQ/extras/util/TransportMonitor.h:155-188 | in every run each pass tells of exactly what it took, each once and in order, if and only if no pass fills a slot that another has still to read |
| MonitorRuns.LostIff | DelegateMQ/extras/util/TransportMonitor.h:155-188 | a run has a timeout that no continuation ever tells of if and only if some pass filled a slot that another had still to read |
| MonitorRuns.ApartNeverClobbers | DelegateMQ/extras/util/TransportMonitor.h:146-198 | this never happens when no pass begins while another has still to tell of something |
| MonitorRuns.OverlapLoses | DelegateMQ/extras/util/TransportMonitor.h:172-188 | a run of two overlapping calls in which one timeout is never told and the other is told twice |
| RetryMonitors.RetryMonitor.LockedStatus | DelegateMQ/extras/util/RetryMonitor.h:140-186 | the decision under the lock: forget on success or when retries are used up, retry a sent entry with one attempt less, re-register one that is still being sent |
| RetryMonitors.RetryMonitor.SendWithRetry | DelegateMQ/extras/util/RetryMonitor.h:80-130 | alone: at most one transport send, an entry left behind exactly when Add was accepted and the send succeeded, with the whole budget of retries and marked as sent |
| RetryMonitors.RetryMonitor.OnStatusChanged | DelegateMQ/extras/util/RetryMonitor.h:133-210 | alone: one resend of the stored packet at most, preceded by an accepted Add, and the entry is dropped if that Add is refused |
| RetryMonitors.RefusedSend | DelegateMQ/extras/util/RetryMonitor.h:93-106 | a refused send leaves the store as it was if and only if its key was not stored before |
| RetryRuns.SendBudget | DelegateMQ/extras/util/RetryMonitor.h:80-204 | in every interleaving, even with callbacks lost or repeated, one SendWithRetry causes at most 1 + maxRetries transport sends, all with the header and bytes it was called with |
| RetryRuns.OneSendPerTimeout | DelegateMQ/extras/util/RetryMonitor.h:80-204 | in every interleaving a message that is stored and has not been refused has been sent, or is committed to be sent, exactly once and once more for each timeout charged to it; and it is marked as sent unless its first send is under way |
| RetryRuns.TimeoutHandled | DelegateMQ/extras/util/RetryMonitor.h:157-186 | after every run a TIMEOUT handled for a stored message drops it exactly if maxRetries have been charged before; otherwise it commits one resend of the header and bytes of its SendWithRetry if it is marked as sent, and a re-registration if not |
| RetryRuns.ResendReaches | DelegateMQ/extras/util/RetryMonitor.h:188-204 | a committed resend reaches the transport exactly if the monitor accepts the key again, and otherwise the entry is erased |
| RetryRuns.SendReaches | DelegateMQ/extras/util/RetryMonitor.h:80-130 | undisturbed, a SendWithRetry for which the monitor has room sends its packet and leaves an entry with all retries exactly if the transport took it; without room it leaves nothing |
| RetryRuns.TimeoutResends | DelegateMQ/extras/util/RetryMonitor.h:133-204 | undisturbed, the expiry of a sent message with retries left sends exactly its own packet once more if the monitor has room |
| RetryRuns.TimeoutBudget | DelegateMQ/extras/util/RetryMonitor.h:133-204 | at most maxRetries + 1 timeouts are charged to an entry, and it is gone after that many |
| RetryRuns.ChargedExactly | DelegateMQ/extras/util/RetryMonitor.h:157-186 | what is charged to a message is exactly the timeouts handled while it is stored and has been sent or has no retries left |
| RetryRuns.SentTimeouts | DelegateMQ/extras/util/RetryMonitor.h:133-204 | so at most maxRetries + 1 timeouts are handled for a stored message once sent, and after that many it is gone |
| RetryRuns.NothingAfterSuccess | DelegateMQ/extras/util/RetryMonitor.h:148-156 | once SUCCESS has been handled nothing that runs later adds a transport send for the message |
| RetryRuns.TrackedStep | DelegateMQ/extras/util/RetryMonitor.h:85-210 | every stored key stays pending or owned through a step if and only if the step is neither a re-registration refused at the cap nor a lost callback of a key nothing else owns |
| RetryRuns.ExecTracked | DelegateMQ/extras/util/RetryMonitor.h:85-210 | in every interleaving without such a step each stored key is pending in the monitor or owned by an operation in progress |
| RetryFresh.ExecExclusive | DelegateMQ/extras/util/RetryMonitor.h:85-210 | with fresh keys and no callback lost or repeated each key is pending or owned by one operation, never both, and every operation works for the message stored last under its key |
| RetryFresh.RefusedOnlyWhenFull | DelegateMQ/extras/util/TransportMonitor.h:74-90 | with fresh keys an operation's Add is accepted if and only if the monitor is below its cap |
| RetryFresh.LeavesOnlyOnPurpose | DelegateMQ/extras/util/RetryMonitor.h:85-204 | with fresh keys a stored message keeps its packet until it is acknowledged, has no retries left, fails to send or is refused: nothing done for another message affects it |
| RetryFresh.CollisionLosesMessage | DelegateMQ/extras/util/RetryMonitor.h:93-106 | a run in which a send that reuses a key in flight erases the older message with no timeout or acknowledgement |
| RetryFresh.CrowdedReached | DelegateMQ/extras/util/RetryMonitor.h:93-115 | the state from which the next run starts is reachable: a first send still under way while another message has taken the monitor's last place |
| RetryFresh.RefusedReregistrationStrandsMessage | DelegateMQ/extras/util/RetryMonitor.h:206-209 | a run after which a stored and sent message with retries left is known to no entry in the monitor and to no operation |
| RetryFresh.AbandonedForGood | DelegateMQ/extras/util/RetryMonitor.h:85-210 | such a message keeps its entry unchanged through every continuation with fresh keys: it is never resent and never dropped |
| RetryFresh.NeverResent | DelegateMQ/extras/util/RetryMonitor.h:85-210 | in particular the message of that run is still stored after every fresh continuation, with as many sends as before |
| Participants.IsDuplicate | DelegateMQ/extras/databus/Participant.h:317-326 | a number is called duplicate exactly when it is among the last accepted ones the ring can hold, and otherwise becomes the newest of them |
| Participants.RecordHolds | DelegateMQ/extras/databus/Participant.h:309-326 | the ring always holds exactly the last accepted numbers |
| Participants.ChannelTypeFixed | DelegateMQ/extras/databus/Participant.h:266-295 | a registered id keeps its channel and argument type through every later sequence of events |
| Participants.Participant.GetOrCreateChannel | DelegateMQ/extras/databus/Participant.h:266-295 | a mismatch is reported exactly when the id is registered with another type, and changes no channel |
| Participants.Participant.ProcessIncoming | DelegateMQ/extras/databus/Participant.h:62-105 | a failed Receive is passed on and changes nothing; otherwise the packet reaches the handler exactly when its marker is right, its id registered and it is an ACK or no recent duplicate, and else leads to the stated error or nothing |
| EndToEnd.DroppedIff | DelegateMQ/extras/databus/Participant.h:317-326 | a copy is dropped if and only if fewer than the history size of numbers have been accepted since that number was |
| EndToEnd.ArrivalIff | DelegateMQ/extras/databus/Participant.h:73-103 | for any arrivals and registrations, a packet is given to the handler if and only if its marker is right, its id was registered before, and it is an ACK or its number is not among the last history-size ones handled; and the missing handler is reported exactly for a right marker with an unregistered id |
| EndToEnd.RegistrationIff | DelegateMQ/extras/databus/Participant.h:184-197 | a registration reports a mismatch if and only if the first one of its id was of another type |
| EndToEnd.ChannelsAre | DelegateMQ/extras/databus/Participant.h:266-295 | an id has a channel if and only if it has been registered, with the type of the first registration |
| EndToEnd.ReceiveAllKeepsInv | DelegateMQ/extras/databus/Participant.h:73-98 | whatever arrives, the handler of an id has run for exactly the accepted numbers in order, and any history size + 1 consecutive ones are pairwise distinct |
| EndToEnd.HandlerRunsApart | DelegateMQ/extras/databus/Participant.h:73-98 | two runs of a handler for one id and number have at least the history size of other accepted messages of that id between them |
| EndToEnd.DeliveredOnce | DelegateMQ/extras/databus/Participant.h:73-98 | over a network that drops, duplicates and reorders, each packet handled is that of some SendWithRetry, header and bytes, and is handled at most once if fewer than the history size of new messages of its id come in between |
| Dispatchers.Dispatcher.Dispatch | DelegateMQ/extras/dispatcher/Dispatcher.h:48-70 | each dispatch takes the next number modulo 2^16 and hands the transport a header with it |
| Dispatchers.SameKeyIff | DelegateMQ/extras/dispatcher/Dispatcher.h:54-56 | two dispatches of one id get the same key if and only if their positions differ by a multiple of 65536 |
| Dispatchers.FreshBeginIff | DelegateMQ/extras/dispatcher/Dispatcher.h:54-56 | a send has a fresh key if and only if no message in flight has its id and a number dispatched a multiple of 65536 dispatches away |
| Dispatchers.CountedIsFresh | DelegateMQ/extras/dispatcher/Dispatcher.h:54-56 | in every run without lost or repeated callbacks whose sends carry the numbers of distinct dispatches, in any order, and in which no message in flight is 65536 or more dispatches away from a new one, all keys are fresh |
| Dispatchers.DispatchedKeysSuffice | DelegateMQ/extras/dispatcher/Dispatcher.h:48-70 | so in such a run an Add is refused only by a full monitor, and a stored message leaves only on purpose |
| AsyncWaits.Semaphore.Wait | DelegateMQ/delegate/Semaphore.h:26-50 | Wait succeeds exactly when the flag was set, and consumes it |
| AsyncWaits.DelegateAsyncWait.Invoke | DelegateMQ/delegate/DelegateAsyncWait.h:426-464 | the target runs exactly when the caller still waits; the semaphore is signalled even if it throws, and success is recorded only if it does not |
| AsyncWaits.DelegateAsyncWait.Call | DelegateMQ/delegate/DelegateAsyncWait.h:340-397 | success exactly when the target ended in time without throwing, then with its value; the target runs once if reached before the caller gave up and never after; without a target nothing happens, and with the sync flag set the target runs at once and no success is reported |
| AsyncWaits.DelegateAsyncWait.AsyncInvoke | DelegateMQ/delegate/DelegateAsyncWait.h:405-413 | there is a value exactly when the call succeeded, and it is the target's; only a target run at once throws to the caller |
| AsyncSqlite.AsyncInvoke | SQLite/async_sqlite3.cpp:69-99 | on the worker the function's own result; otherwise its result if the call succeeded, and in every other case SQLITE_BUSY for an int and the default value for any other type |
| AsyncSqlite.FutureTask.Run | SQLite/async_sqlite3.cpp:46-60 | a queued task stores the function's value or exception once |
| SqliteWorker.BlockingCall | DelegateMQ/delegate/DelegateAsyncWait.h:340-464 | in every interleaving a blocking call's operation runs at most once and, if at all, strictly between invocation and return, even on timeout; success exactly when signalled and not thrown, with the operation's value |
| SqliteCalls.SuccessIff | DelegateMQ/delegate/DelegateAsyncWait.h:353-397 | in every interleaving a blocking call that has returned reports success if and only if it was queued, its wait did not time out and its operation returned a value, and then that value |
| SqliteCalls.CanReturn | DelegateMQ/delegate/DelegateAsyncWait.h:340-464 | nobody waits for ever on a lock or the semaphore: from every reachable state every blocking call can still return without timing out |
| SqliteCalls.FutureIsFulfilled | SQLite/async_sqlite3.cpp:24-64 | from every reachable state the promise of a queued future can still be fulfilled, once |
| SqliteCalls.WholeCallSucceeds | DelegateMQ/delegate/DelegateAsyncWait.h:340-464 | a run in which the worker reaches the call in time: success with the value of its operation, and an inner call that ran inside it |
| SqliteWorker.NeverAfterReturn | DelegateMQ/delegate/DelegateAsyncWait.h:430-436 | after a blocking call has returned nothing starts its operation or changes its result |
| SqliteWorker.QueueOrder | SQLite/async_sqlite3.cpp:69-99 | queued operations execute one at a time in queue order, and one that was passed over is a blocking call whose caller gave up without success |
| SqliteWorker.InlineContiguous | SQLite/async_sqlite3.cpp:89-98 | a call made from the worker runs inside the operation that made it, and no queued operation starts or ends while it runs, nor has since its start if it is still running |
| SqliteWorker.PromiseOnce | SQLite/async_sqlite3.cpp:24-64 | a future's promise is fulfilled at most once, when its operation ends, with what that returned or threw |
| SqliteWorker.ExecKeepsInv | DelegateMQ/delegate/DelegateAsyncWait.h:340-464 | the handshake of every call, the queue's tickets and the order of execution are kept by every run |
| SqliteDatabase.OneAfterTheOther | SQLite/async_sqlite3.cpp:69-99 | in every run in which each operation returns or throws what it does on the database as it finds it, the database and all outcomes are those of the executed operations one after the other in queue order |
| SqliteDatabase.Linearizable | SQLite/async_sqlite3.cpp:69-99 | that order holds each queued operation that has ended once and agrees with real time, and a blocking call that reports success returns its operation's value in that order |
| NetworkWait.InvokeWaitState.OnStatus | DelegateMQ/extras/util/NetworkEngine.h:225-244 | a status of another id changes nothing; an early one is buffered; the first for the recorded number completes the wait and notifies |
| NetworkWait.InvokeWaitState.RecordSeq | DelegateMQ/extras/util/NetworkEngine.h:251-271 | recording the number completes the wait exactly if a status for it was buffered, and drops the buffer |
| NetworkWait.WaitCompletes | DelegateMQ/extras/util/NetworkEngine.h:224-294 | in every interleaving the wait is complete exactly when the number is recorded and some status for it has been handled, with the last early status, or else the first later one, as verdict, and one notification |
| NetworkWait.OrderDoesNotMatter | DelegateMQ/extras/util/NetworkEngine.h:184-202 | with one status for the number the outcome is that status, in whatever order it and the recording happen |
| NetworkWait.SameWhereverIff | DelegateMQ/extras/util/NetworkEngine.h:184-202 | the outcome is the same wherever among the events the number is recorded if and only if all statuses handled for it are equal |
| NetworkWait.CompleteIsFinal | DelegateMQ/extras/util/NetworkEngine.h:235-239 | once complete, the verdict never changes |
| NetworkWait.TwoStatusesDependOnOrder | DelegateMQ/extras/util/NetworkEngine.h:224-271 | two different statuses for the number give one outcome if both come early and another if both come late |
| MulticastDelegates.PerformRefines | DelegateMQ/delegate/MulticastDelegate.h:95-195 | under any nesting of broadcasts, appends, removals, clears and assignments by a callback have the same effect, invocations and outcome as on a plain list without blanks |
| MulticastDelegates.EmitRefines | DelegateMQ/delegate/MulticastDelegate.h:56-67 | a broadcast, nested or not, thrown out of or not, invokes what a broadcast over the plain list does and leaves the container standing for the same list |
| MulticastDelegates.IdleAgain | DelegateMQ/delegate/MulticastDelegate.h:232-260 | when no broadcast is active there are no blanks and the cleanup flag is off, whatever callbacks did or threw before |
| MulticastDelegates.QuietBroadcast | DelegateMQ/delegate/MulticastDelegate.h:56-67 | a broadcast whose callbacks leave the container alone invokes every delegate once in order and changes nothing |
| MulticastDelegates.MoveKeepsIdle | DelegateMQ/delegate/MulticastDelegate.h:120-123 | moving into an idle container keeps it idle if and only if what is moved has no blanks |
| MulticastDelegates.MovedInMidBroadcast | DelegateMQ/delegate/MulticastDelegate.h:120-123 | a list in which a callback has removed a delegate brings its blank along, and no broadcast of the new container drops it |
| MulticastDelegates.PerformGrows | DelegateMQ/delegate/MulticastDelegate.h:158-195 | during a broadcast positions never shift: a slot keeps its delegate or is blanked, and new slots come last |
| MulticastDelegates.InvokedAtTurn | DelegateMQ/delegate/MulticastDelegate.h:61-66 | a pass invokes a delegate at a position if and only if it is still there when the position's turn comes |
| MulticastDelegates.ReachedUnlessThrew | DelegateMQ/delegate/MulticastDelegate.h:61-66 | a pass that did not throw came to every position the list had at its start |
| MulticastDelegates.InOrder | DelegateMQ/delegate/MulticastDelegate.h:61-66 | a pass goes through positions in increasing order, so none is invoked twice |
| MulticastDelegates.OnceUnlessGone | DelegateMQ/delegate/MulticastDelegate.h:61-66 | a broadcast that does not throw invokes a delegate of its starting list exactly once if it is still there at its turn, whatever becomes of it later, and else not at all |
| MulticastDelegates.SurvivorsInvoked | DelegateMQ/delegate/MulticastDelegate.h:61-66 | a delegate still in the list when an uninterrupted pass ends has been invoked, appended ones included |
| MulticastContainer.MulticastDelegate.Remove | DelegateMQ/delegate/MulticastDelegate.h:158-178 | the first equal delegate is erased, or blanked during a broadcast, and no other slot changes |
| MulticastContainer.MulticastDelegate.Clear | DelegateMQ/delegate/MulticastDelegate.h:185-195 | all slots are blanked during a broadcast and dropped otherwise |
| MulticastContainer.MulticastDelegate.CopyAssign | DelegateMQ/delegate/MulticastDelegate.h:95-101 | the other container's delegates without its blanks replace these; self-assignment changes nothing |
| MulticastContainer.MulticastDelegate.MoveAssign | DelegateMQ/delegate/MulticastDelegate.h:106-126 | the other container's slots replace these, behind the blanks during a broadcast, and the other is left empty |
| MulticastContainer.MulticastDelegate.Cleanup | DelegateMQ/delegate/MulticastDelegate.h:232-243 | the sweep keeps the delegates in order and only them |
| MulticastContainer.MulticastDelegate.Broadcast | DelegateMQ/delegate/MulticastDelegate.h:56-67 | the live loop under its guard computes the broadcast that the theorems are about, for every behaviour of callbacks, nested broadcasts and exceptions |
| Signals.StateBlock.DisconnectImpl | DelegateMQ/delegate/Signal.h:290-296 | a live block loses exactly the given copy; a dead one is not touched |
| Signals.Connection.Disconnect | DelegateMQ/delegate/Signal.h:85-93 | a connected handle takes its copy out of its block and is off afterwards; a second call does nothing |
| Signals.Connection.MoveFrom | DelegateMQ/delegate/Signal.h:59-67 | the connection passes to the new handle and the old one is off |
| Signals.Connection.Assign | DelegateMQ/delegate/Signal.h:68-79 | move assignment first disconnects what the handle held; self-assignment keeps it |
| Signals.GetSnapshot | DelegateMQ/delegate/Signal.h:217-238 | up to eight delegates go to the small buffer, more to the large one, in order |
| Signals.Signal.Invoke | DelegateMQ/delegate/Signal.h:203-261 | exactly the delegates at capture are invoked in order, whether they fit the small buffer or not |
| Signals.Signal.Connect | DelegateMQ/delegate/Signal.h:179-193 | the new copy goes to the end of the current block, and the handle refers to both |
| Signals.Signal.Clear | DelegateMQ/delegate/Signal.h:273-286 | a fresh empty block becomes current, and the old one is dead and empty |
| SignalRuns.ListIsConnectedHandles | DelegateMQ/delegate/Signal.h:59-93 | in every run the current list is, in connection order, exactly the copies of connected handles that refer to the current block |
| SignalRuns.ListChanges | DelegateMQ/delegate/Signal.h:179-296 | in every run connecting appends one new delegate, disconnecting takes out the handle's own, Clear and destruction leave none, and nothing else changes the list |
| SignalRuns.HandleChanges | DelegateMQ/delegate/Signal.h:59-93 | a move passes the connection on and leaves the other handle off, a disconnected handle is off, and Clear's old block is dead |
| SignalRuns.StaleHandlesAreHarmless | DelegateMQ/delegate/Signal.h:290-296 | nothing done with a handle that refers to a replaced block, or to a destroyed signal's, alters the current block |
| SignalRuns.DestroyedIsEmpty | DelegateMQ/delegate/Signal.h:159-167 | after the signal's destruction its block is dead and empty whatever handles do |
| Allocators.Allocator.constructor | DelegateMQ/extras/allocator/Allocator.cpp:10-42 | blocks have room for a pointer and for the object, and a supplied pool is used if there is one |
| Allocators.Allocator.Allocate | DelegateMQ/extras/allocator/Allocator.cpp:63-114 | a recycled block if there is one, else a pool or heap block, else none, with the counters that go with it |
| Allocators.Allocator.Deallocate | DelegateMQ/extras/allocator/Allocator.cpp:119-136 | the block becomes the head of the list linked through the blocks' own bytes |
| AllocatorRuns.BlocksNeverOverlap | DelegateMQ/extras/allocator/Allocator.cpp:63-172 | in every run in which only blocks in use are freed, and whatever is written into them, no block is both free and in use or free twice, and no two share a byte |
| AllocatorRuns.BlocksStayInPool | DelegateMQ/extras/allocator/Allocator.cpp:63-114 | in every run every block of a pool lies wholly inside the memory of maxObjects blocks, each just large enough for an object and for a pointer |
| AllocatorRuns.UserBytesApart | DelegateMQ/extras/allocator/xallocator.cpp:343-392 | in every run of a bucket's allocator the bytes of a request that fits, and its canary, lie in its own block, and none of those bytes is a byte of another live request or header or of a free block |
| AllocatorRuns.BytesKept | DelegateMQ/extras/allocator/Allocator.cpp:63-172 | in every run the bytes of a block in use change only when that block is written to or given back |
| AllocatorRuns.ReallocKeepsBytes | DelegateMQ/extras/allocator/xallocator.cpp:433-447 | over one shared memory, copying a block to another and giving it back leaves the bytes copied in the new block and every third block as it was |
| AllocatorRuns.BlocksAreCounted | DelegateMQ/extras/allocator/Allocator.cpp:101-147 | in every run, modulo 2^32, blocks in use are allocations less deallocations, and in use plus free are the blocks created or the pool index, which never passes the maximum |
| AllocatorRuns.AllocateHandsOut | DelegateMQ/extras/allocator/Allocator.cpp:63-114 | after every run a block handed out is not in use and overlaps none that is, and a pool fails exactly when all its blocks are in use |
| AllocatorRuns.XMallocPaths | DelegateMQ/extras/allocator/xallocator.cpp:343-392 | after every run the fast path hands out the block given back last, the slow path what the heap gives, and a block given back is the next to be handed out, with their counters |
| AllocatorRuns.PopTakesFirst | DelegateMQ/extras/allocator/Allocator.cpp:161-172 | following the stored links gives back the blocks in the reverse order of their release |
| AllocatorRuns.LastInFirstOut | DelegateMQ/extras/allocator/Allocator.cpp:119-172 | an allocation undoes the deallocation before it: the same block, and all but the running totals as before |
| AllocatorRuns.DoubleFree | DelegateMQ/extras/allocator/Allocator.cpp:119-172 | the hypothesis is needed: a block freed twice is handed out twice |
| XAllocators.NextHigher | DelegateMQ/extras/allocator/xallocator.cpp:106-113 | for words of any width the bit-spreading loop computes the first power of two counted up to the argument, and zero for zero and above the greatest power |
| XAllocators.LeastPower | DelegateMQ/extras/allocator/xallocator.cpp:102-105 | for any width that power is not below the argument and no smaller power of two will do |
| XAllocators.BucketIsLeast | DelegateMQ/extras/allocator/xallocator.cpp:102-105 | the same for the 64-bit words of the heap |
| XAllocators.Round | DelegateMQ/extras/allocator/xallocator.cpp:110-111 | one round of the loop doubles the run of ones below the top bit |
| XHeaps.RoomIffFits | DelegateMQ/extras/allocator/xallocator.cpp:293-298 | a block has room for header, request and footer if and only if the three together do not pass 2^63 |
| XHeaps.BlockOfFitting | DelegateMQ/extras/allocator/xallocator.cpp:293-298 | for such a request the block is less than twice as large as needed and its user size is not below the request |
| XHeaps.Buckets.FindAllocator | DelegateMQ/extras/allocator/xallocator.cpp:192-204 | an allocator of the size is found exactly if the used part of the table holds one |
| XHeaps.Buckets.InsertAllocator | DelegateMQ/extras/allocator/xallocator.cpp:209-220 | the allocator goes into the first empty slot, exactly if there is one, and the table stays packed |
| XHeaps.Buckets.GetAllocator | DelegateMQ/extras/allocator/xallocator.cpp:293-337 | without interference the result serves the bucket, the fault handler is entered (null) only for a full table, and sizes stay distinct for requests that fit |
| XHeaps.XHeap.XMalloc | DelegateMQ/extras/allocator/xallocator.cpp:343-392 | a new block next to the live ones, with room for the request exactly if it fits; the fault handler (null) exactly if the table is full and has no allocator for the bucket |
| XHeaps.XHeap.XFree | DelegateMQ/extras/allocator/xallocator.cpp:397-416 | just the given block is no longer live; null is ignored |
| XHeaps.XHeap.XRealloc | DelegateMQ/extras/allocator/xallocator.cpp:421-451 | the old block is freed, the new one starts with the old bytes, and every other block is untouched; with size 0 it only frees, and the fault handler (null) leaves the blocks as they are |
| XHeaps.CopyCoversRequests | DelegateMQ/extras/allocator/xallocator.cpp:437-442 | the copy is exactly the old block's bytes in front of its footer up to the new size, so it covers the first bytes up to the smaller of old request and new size, and stays inside the new block if the request fits |
| BucketRuns.NothingLost | DelegateMQ/extras/allocator/xallocator.cpp:293-337 | in every interleaving each allocator made is in the table, with the thread that made it, or deleted, never two of these, and a result is always in the table with the size asked for |
| BucketRuns.CallEnds | DelegateMQ/extras/allocator/xallocator.cpp:293-337 | every call can end, with an allocator, or in the fault handler exactly if the table is full and has none of its size; one that finds an allocator makes none |
| BucketRuns.OnePerSize | DelegateMQ/extras/allocator/xallocator.cpp:313-333 | in every interleaving of requests that fit the table never holds two allocators of one size, and calls get the same allocator exactly if they ask for the same bucket |
| BucketRuns.FittingIsSound | DelegateMQ/extras/allocator/xallocator.cpp:293-298 | a request that fits has a bucket that is its allocator's block size |
| BucketRuns.SoundIff | DelegateMQ/extras/allocator/xallocator.cpp:293-298 | a request's bucket is below a pointer's size if and only if the request with its overhead passes 2^63 but not 2^64 + 4 |
| BucketRuns.FoundAgainIff | DelegateMQ/extras/allocator/xallocator.cpp:317-326 | an inserted allocator is found again if and only if its block size is the bucket's |
| BucketRuns.OversizeAgain | DelegateMQ/extras/allocator/xallocator.cpp:317-326 | each request for a bucket below a pointer's size adds one more allocator of the same size until the table is full |
| TimerList.Timer.CheckExpired | DelegateMQ/extras/util/Timer.cpp:106-140 | a timer fires exactly if it is enabled and due; one-shot timers go off, periodic ones move their deadline |
| TimerList.TimerService.Start | DelegateMQ/extras/util/Timer.cpp:45-85 | a positive timeout arms the timer and puts it at the head of the list unless it is already in it; any other changes nothing |
| TimerList.TimerService.Stop | DelegateMQ/extras/util/Timer.cpp:90-101 | the timer is off and flagged, and stays linked |
| TimerList.TimerService.Destroy | DelegateMQ/extras/util/Timer.cpp:24-40 | the timer is unlinked, and every other keeps its place |
| TimerList.TimerService.DropDisabled | DelegateMQ/extras/util/Timer.cpp:155-168 | the pointer surgery leaves exactly the enabled timers, in order |
| TimerList.TimerService.ProcessTimers | DelegateMQ/extras/util/Timer.cpp:145-191 | the sweep and one check per timer, as one pass over the live list, then the captured signals; or the fault handler and no signal |
| TimerRuns.ListHolds | DelegateMQ/extras/util/Timer.cpp:24-191 | in every run the list holds no timer twice, every enabled timer is in it, and a disabled one only while the stopped flag is set |
| TimerRuns.ProcessFires | DelegateMQ/extras/util/Timer.cpp:173-190 | after every run a pass invokes exactly the expired timers in list order, at most sixteen, unless the sixteenth is not the last of the swept list, and exactly then it ends in the fault handler and invokes none |
| TimerRuns.SixteenAndOne | DelegateMQ/extras/util/Timer.cpp:173-190 | a run with sixteen expired timers and one that has not expired, whose next pass ends in the fault handler |
| TimerRuns.FirstDue | DelegateMQ/extras/util/Timer.cpp:45-140 | after every run a timer started for a timeout and left alone since fires for the first time in a pass exactly if the pass reads the clock for it at start + timeout or later |
| TimerRuns.PeriodicDue | DelegateMQ/extras/util/Timer.cpp:106-140 | a periodic timer that has fired k times in time fires next exactly if the clock reads start + (k + 1) periods or later |
| TimerRuns.OneShotOnce | DelegateMQ/extras/util/Timer.cpp:115-119 | a one-shot timer fires at most once for each start |
| TimerRuns.SilentUntilStarted | DelegateMQ/extras/util/Timer.cpp:24-101 | a timer that has been created, stopped or destroyed does not fire until it is started again |
| TimerRuns.Deadlines | DelegateMQ/extras/util/Timer.cpp:106-140 | a periodic timer's deadline moves on at least one period per firing, for any schedule, and, as long as no pass has ended in the fault handler, exactly one if and only if every expiry was processed no later than one period after it fell due |
| TimerRuns.OnGridIff | DelegateMQ/extras/util/Timer.cpp:106-140 | all deadlines of a periodic timer lie on its grid if and only if each firing was processed in time or restarted the timer a whole number of periods late |
| TimerRuns.LateFirings | DelegateMQ/extras/util/Timer.cpp:106-140 | a late firing that leaves the grid, and one two periods late that stays on it but moves the deadline by two |
| TimerRuns.FiresAtMost | DelegateMQ/extras/util/Timer.cpp:57-140 | a periodic timer started at s with period T has by any later time fired at most floor((now - s) / T) times |
| Gf2.FeedIsShift | DelegateMQ/extras/util/crc16.h:56-61 | feeding up to sixteen bits is adding them at the top and multiplying by x that often, which is why a table works |
| Gf2.Linear | DelegateMQ/extras/util/crc16.h:68-84 | the register of a difference of messages is the difference of the registers |
| Gf2.BurstDetected | DelegateMQ/extras/util/crc16.h:68-84 | two bit messages of one length that differ only within sixteen consecutive bits never have the same register |
| Crc16.CalcBlockBitwise | DelegateMQ/extras/util/crc16.h:68-84 | the bit loop computes the CRC of the polynomial definition |
| Crc16.CalcBlockByTable | DelegateMQ/extras/util/crc16.h:56-61 | the table loop computes the same, for every message and start value |
| Crc16.TableMeans | DelegateMQ/extras/util/crc16.h:24-51 | each of the 256 entries is its index fed to an empty register |
| Crc16.CrcOfBlocks | DelegateMQ/extras/util/crc16.h:56-61 | the CRC of a concatenation is the chained CRC |
| Crc16.AdjacentBytesDetected | DelegateMQ/extras/util/crc16.h:68-84 | two messages of one length that differ only within two adjacent bytes always have different CRCs |
| Crc16.BurstsDetected | DelegateMQ/extras/util/crc16.h:68-84 | so do two that differ only within any sixteen consecutive bits |
| Crc16.OwnCrcGivesZero | DelegateMQ/extras/util/crc16.h:68-84 | a message followed by its own CRC has CRC zero |
| DataBuses.DataBus.InternalGetOrCreateSignal | DelegateMQ/extras/databus/DataBus.h:668-686 | a topic keeps one signal, and another type gets none |
| DataBuses.DataBus.SubscribeFirst | DelegateMQ/extras/databus/DataBus.h:328-337 | the first region switches caching on before the type decides whether there is a signal |
| DataBuses.DataBus.SubscribeSecond | DelegateMQ/extras/databus/DataBus.h:362-379 | the second region gives the cached value exactly if caching was asked for and it is not older than the lifespan |
| DataBuses.DataBus.InternalPublish | DelegateMQ/extras/databus/DataBus.h:403-519 | a mismatch writes nothing; otherwise the slot holds the new value and time if caching is on, reused or new alike |
| DataBuses.DataBus.InternalRegisterSerializer | DelegateMQ/extras/databus/DataBus.h:594-614 | a serializer is stored exactly if its type is the topic's |
| DataBuses.DataBus.InternalRegisterStringifier | DelegateMQ/extras/databus/DataBus.h:617-645 | so is a stringifier |
| DataBuses.DataBus.InternalReset | DelegateMQ/extras/databus/DataBus.h:647-665 | nothing registered or cached is left |
| BusRuns.AllTyped | DelegateMQ/extras/databus/DataBus.h:309-686 | in every reachable state each topic's signal, serializer, stringifier and cached value have the topic's registered type |
| BusRuns.MapsAgree | DelegateMQ/extras/databus/DataBus.h:403-475 | a topic's type, its caching and its cached value with its time are those that the history of calls alone determines: first use, and latest matching publish made while caching was on |
| BusRuns.LatestCachedIff | DelegateMQ/extras/databus/DataBus.h:437-485 | the latest cached publish is the last one of the topic's type made while caching was on, if no reset came after it |
| BusRuns.CachingOnIff | DelegateMQ/extras/databus/DataBus.h:289-333 | a topic caches if and only if some call asked for it and no reset or switching off came after that |
| BusRuns.NoTypeIff | DelegateMQ/extras/databus/DataBus.h:668-686 | a topic has no type if and only if no call has named it since the last reset |
| BusRuns.TypeOfIff | DelegateMQ/extras/databus/DataBus.h:668-686 | otherwise its type is that of the call that named it first |
| BusRuns.PublishIsTypeSafe | DelegateMQ/extras/databus/DataBus.h:420-515 | what a publish takes out to cast has the type it casts to, and a publish of another type changes nothing |
| BusRuns.PublishHandsOut | DelegateMQ/extras/databus/DataBus.h:420-515 | by the history alone, a publish whose type fits hands out the signal that subscribers since the last reset were given, or none if there was none, and the serializer and stringifier registered last with the topic's type since then |
| BusRuns.OneSignal | DelegateMQ/extras/databus/DataBus.h:668-686 | every accepted subscriber of a topic is given a signal, the same for all until a reset |
| BusRuns.SignalsApart | DelegateMQ/extras/databus/DataBus.h:668-686 | in every reachable state different topics have different signals |
| BusRuns.JoinerGetsLatest | DelegateMQ/extras/databus/DataBus.h:362-379 | a joining subscriber that asked for it is given the latest cached publish exactly when there is one not older than its lifespan |
| BusRuns.JoinerCastIsSafe | DelegateMQ/extras/databus/DataBus.h:328-379 | without a reset between a subscription's two regions the unchecked cast is safe |
| BusRuns.JoinerCastSafeIff | DelegateMQ/extras/databus/DataBus.h:374-375 | in general it is safe if and only if caching was not asked for, no cached publish is recent enough, or the topic's type is still the subscriber's |
| BusRuns.ResetBreaksCast | DelegateMQ/extras/databus/DataBus.h:647-665 | a run in which a reset and another subscriber between the two regions make it fail |
| BusRuns.RefusedStillCaches | DelegateMQ/extras/databus/DataBus.h:331-346 | a subscription refused for its type has left the bus unchanged, when it enters the fault handler, if and only if it asked for no caching or the topic was caching already, and never changes more than that |
| BusRuns.RefusedChangesJoiner | DelegateMQ/extras/databus/DataBus.h:331-346 | a run in which, before the fault handler has ended the program, a subscriber of another thread is given a value only because of a refused subscription |

## Left out

- SQLite itself and its one-line wrappers: an operation is any function on the database with a result or exception, whose inline calls are part of it. The calls that bypass the worker are not modelled.
- Operating system threads, condition variables and physical transports: a FIFO queue with one consumer and a `Send` that returns a result are assumed. The sources of the ports are not part of this model.
- The transport's own call of `TransportMonitor::Add`, which comments mention, and message priorities.
- A worker that exits with messages still queued.
- RetryMonitors.RetryMonitor.SendWithRetry: a retry monitor before Init, which has neither transport nor transport monitor and whose sends fail an assertion, is not modelled; Init sets both at once.
- RetryMonitors.RetryMonitor.OnStatusChanged: one call alone, after Init; every interleaving of calls is in RetryRuns.
- Participants.Participant.ProcessIncoming: the ring of sequence numbers is a value held in the participant's map, as in the source, so aliasing of rings is not a question; the handler's work is not modelled, nor that an error is reported to subscribers only once per topic and kind.
- TransportMonitors.TransportMonitor.Process: the clock stands still during the call, callbacks only add fresh entries, and Process is not called again from within; the fixed buffer of sixteen expired entries is a sequence of at most sixteen.
- AsyncWaits.DelegateAsyncWait.Call: one call against one worker at a given moment; every interleaving of many is in SqliteWorker.
- MulticastDelegates.PerformRefines: callbacks behave as some finite script, so a callback that appends itself for ever is not covered; containers are not deleted inside their own callbacks.
- MulticastContainer.MulticastDelegate.Broadcast: copying a delegate cannot run out of memory.
- Allocators.Allocator.Allocate: the loop over an installed new-handler is not modelled; an exhausted pool fails. A supplied pool must hold block size times objects bytes.
- XHeaps.Buckets.GetAllocator: a null result stands for the fault handler, which does not return; blocks and headers are those of a 64-bit target.
- XHeaps.XHeap.XMalloc: null as for GetAllocator; the address a bucket's allocator hands out is a parameter that differs from the live ones, and a block's bytes are its own map; that the bytes of two blocks of one allocator are apart and keep what was written to them is AllocatorRuns.UserBytesApart and AllocatorRuns.BytesKept, and of blocks of different allocators it is what the system's heap guarantees.
- XHeaps.XHeap.XFree: which allocator a block belongs to is kept with the block and not read from its header bytes.
- XHeaps.XHeap.XRealloc: as for XMalloc; magic numbers and canaries are not modelled beyond the room they take; the static-pools build is not modelled.
- TimerList.TimerService.ProcessTimers: callbacks run after the pass, outside the lock, so their effect is the next steps of a run; each timer visited has its own reading of the clock.
- BusRuns.JoinerGetsLatest: delivery after the lock is released may overtake or follow a concurrent publish, as the source says; only what is chosen under the lock is stated.
- DataBuses.DataBus.InternalPublish: monitors, participants and a copy of the value that throws are not modelled, nor the fault handler in which a call of the wrong type ends.
- Participants.Participant.GetOrCreateChannel: after a mismatch its caller ends in the fault handler; what other threads do until then is covered, that the caller does nothing more is not stated.
- DataBuses.DataBus.InternalReset: it clears what is modelled here; participants, reported errors and the bus's own signals are not.
- The rate limiter, participants' arrays, monitors and error latching of DataBus.
- Crc16.CalcBlockBitwise: words and bytes are their bits, so `<<`, `>>` and `^` are defined on bits; a negative length, which makes the source's loop run on, is not modelled.
- C++ type machinery: cloning, equality and type erasure are abstract identities.
- UnicastDelegate, MulticastDelegateSafe, MonotonicGuard and thread monitoring, which would only add easy members.
