# Verification model of the gRPC-over-WebSocket tunnel

A Dafny model of the stateful parts of the tunnel and proofs of what they keep. `dafny verify
dfyconfig.toml` checks all of it.

| file | models |
|---|---|
| `BrowserStream.dfy` | the browser connection as a value: bounded queue, unread tail, token, error channel; runs of calls that do not overlap |
| `BrowserConn.dfy` | the same connection as a class over a real backing array with a moving head and in-place compaction |
| `BrowserSteps.dfy` | the same connection step by step: any number of threads inside store, report, close and read, with the three locks, `TryLock`, the once and both channels |
| `BrowserProgress.dfy` | bounded runs, deadlock freedom and completion of close |
| `BrowserCalls.dfy` | what whole calls do for their callers: reported errors, stored messages, filled buffers |
| `BrowserCloseOrder.dfy`, `BrowserCloseGap.dfy`, `BrowserCloseHeld.dfy` | what a close does to the stream order and to what the connection holds: exactly when a gap can open, and when queue and tail stay empty |
| `AbuseGuard.dfy`, `RateBound.dfy` | the abuse guard of `pkg/grpctunnel/abuse_control.go` (the same code as `pkg/bridge/abuse_control.go`) and what its rate window lets through |
| `HandlerLifecycle.dfy` | concurrent requests through the handler, each with a position, the items it holds and a stack of deferred calls (`pkg/grpctunnel/server.go`; with `observed` false, `pkg/bridge/bridge.go`) |
| `HandlerProgress.dfy` | no request gets stuck, and every exit can happen |
| `HandlerRate.dfy` | the rate bound of the guard over runs of concurrent requests |
| `NativeConn.dfy`, `NativeDrain.dfy` | the two message-to-stream adapters, and what enough reads return |
| `Tunnel.dfy`, `BrowserTunnel.dfy` | writer, wire and reader put together: native to native, and native to the interleaved browser connection |
| `TodoItems.dfy`, `TodoStore.dfy` | the todo store of `examples/direct-bridge/main.go` (the same code as `examples/grpc-server/main.go`) as a value and as linked nodes with a map |
| `TodoPersist.dfy` | its debounced background persister |
| `Keepalive.dfy` | configuration checks, ping timing and the read deadline (`pkg/bridge/bridge.go` has the same code) |
| `Sequences.dfy` | shared facts about sequences |

The value-level functions are the specification. The imperative classes are proved equal to them
call by call, and the theorems over all runs are about them. Interleavings are separate step
systems whose steps are one atomic access or one critical section with its unlock.

## Where the code does less than one might expect

- After a close the browser connection can deliver a message although bytes accepted before it
  were dropped: the closed check of an arriving message is not under the queue lock.
  `BrowserCloseGap.GapIsExact` says exactly when such a gap can open; nothing else ever happens to
  the order (`BrowserCloseOrder.OrderUnlessGap`). A read that begins after the close delivers
  nothing.
- A close can leave payload behind: a message that lands in the cleared queue, and a tail whose read
  holds the lock that `TryLock` wants. `BrowserCloseHeld` says when neither happens, and shows a tail
  that stays for ever.
- A select may return a queued error while data is queued. Nothing here says that data comes
  first; data is kept and later reads return it.
- The clock is read before the guard's lock is taken (`pkg/grpctunnel/server.go:303`,
  `pkg/grpctunnel/abuse_control.go:52`), so attempts can meet the guard out of clock order. Readings
  before the start of the window they meet are counted in it; `RateBound.RateBoundHolds` bounds what
  they cost and `RateBound.RateBoundIsReached` attains the bound. At the zero time the limit is off
  (`RateBound.ZeroClockIsUnlimited`).
- A panic of the logger of the bridge handler between the upgrade and the deferred close leaks the
  socket (`pkg/bridge/bridge.go:308-309`), and one on the way from the connect hook to the disconnect
  hook keeps the disconnect hook from being called (`pkg/bridge/bridge.go:322-324`). A panic of the
  origin check inside the upgrade goes to neither total. The grpctunnel handler logs with the
  standard logger; as long as that does not panic, it leaks nothing. It closes the socket before it
  lowers the gauge, although it raised the gauge after the upgrade
  (`HandlerLifecycle.EveryExitReleases`).
- A refused text message is consumed, and the next read goes on behind it; over any reads exactly
  the text messages are left out of the stream (`NativeConn.ReadsSkipText`). Between two adapters of
  this repository only binary messages are sent.
- The comment on `IdleTimeout` (`pkg/bridge/bridge.go:56`) speaks of client activity or pong
  frames. The code moves the read deadline on pongs only; the model follows the code
  (`Keepalive.DataDoesNotExtend`).
- The todo store relies on `uuid.New` for identifiers not in use: `TodoItems.CreateNeedsNewId`
  shows that a create needs exactly that.

## Assumptions

- Integers are unbounded. Queue counts, byte counts and connection counts are bounded by the
  proved limits or by the number of requests, far below 64 bits. Durations are nanoseconds;
  `time.Time.Sub` saturates only far above a minute.
- Growth by append doubles from 8 (or from 1 after a close), which is what the Go runtime does
  for these element sizes up to 256 elements.
- `TryLock` may fail although the lock is free. A parked read is one whose select has no ready
  channel. The choice of a select with several ready channels is arbitrary.
- A message reader is any function that obeys the io.Reader contract, including bytes together
  with the end and reads of no bytes. That enough reads return everything (`NativeDrain`) needs
  readers that make progress: they store a byte when there is one and room for it, say when nothing
  is left, and do not break. A failed write sends nothing, as
  `pkg/bridge/conn.go:161-162` says.
- `strings.TrimSpace` and `net.SplitHostPort` are arbitrary functions in the client key. Clock
  readings are parameters. The gauge and the two totals are integers.
- User code does not rewrite the remote address of a request: the deferred release derives the
  client's key again (`pkg/bridge/bridge.go:300`, `pkg/bridge/abuse_control.go:87`), and
  `AbuseGuard.ReleaseNeedsSameKey` shows that it then has to be the same.
- A deferred call that panics is followed by the next deferred call. Calls into OpenTelemetry do
  not panic.
- The browser calls back one message at a time, so arrivals are the calls of one thread
  (`BrowserTunnel`); `BrowserSteps` does without this.
- Before the first snapshot of the todo store nothing is said about the file it was loaded from:
  loading may have left out records.

## Model

| member | source | states |
|---|---|---|
| `BrowserStream.StreamRefinement` | pkg/wasm/dialer/websocket_conn.go:133-336 | over every sequence of arrivals, error reports, closes and reads of any buffer size that do not overlap: both queue limits hold, a non-empty queue has its token, and while open delivered ++ tail ++ queue is exactly what was accepted |
| `BrowserStream.RunKeepsInvariant` | pkg/wasm/dialer/websocket_conn.go:133-336 | the invariant behind that equation, for calls that do not overlap, from any state that satisfies it |
| `BrowserStream.FitsExactly` | pkg/wasm/dialer/websocket_conn.go:145-148 | the overflow test, written without adding to the byte count, is exactly "both limits still hold with the message queued" |
| `BrowserStream.OverflowAborts` | pkg/wasm/dialer/websocket_conn.go:157-160 | an arrival closes an open connection exactly when a limit would be exceeded, and the error left for a parked read names the sizes that exceed it |
| `BrowserStream.ErrorsStayInOrder` | pkg/wasm/dialer/websocket_conn.go:205-221 | errors returned by reads followed by those still waiting are the reported ones in order, beside any data and across a close |
| `BrowserStream.ReadSplitsPending` | pkg/wasm/dialer/websocket_conn.go:302-336 | a read moves a prefix of the pending bytes to its caller and keeps the rest, for every size including 0 |
| `BrowserStream.ReadAnswers` | pkg/wasm/dialer/websocket_conn.go:302-336 | a read of an open connection returns from the tail or else the oldest message exactly as many bytes as fit, keeps the rest, else returns the oldest error, else waits |
| `BrowserStream.DeliveredFitsBuffers` | pkg/wasm/dialer/websocket_conn.go:302-336 | over every sequence of calls, reads deliver no more than their buffers hold |
| `BrowserStream.CloseLeaves` | pkg/wasm/dialer/websocket_conn.go:254-283 | a close leaves a closed, empty queue whose reads fail, no tail if it gets the read lock, and the waiting errors as they were |
| `BrowserStream.ClosedIsFinal` | pkg/wasm/dialer/websocket_conn.go:254-283 | calls that begin after a close has returned change nothing and deliver nothing |
| `BrowserStream.ReadMakesProgress` | pkg/wasm/dialer/websocket_conn.go:310-336 | a read into a non-empty buffer brings an open connection strictly closer to being drained |
| `BrowserStream.DrainDeliversAll` | pkg/wasm/dialer/websocket_conn.go:302-336 | enough reads into non-empty buffers deliver every accepted byte, whatever errors are queued beside the data |
| `BrowserConn.GrownIsCapacity` | pkg/wasm/dialer/websocket_conn.go:152 | doubling a capacity that occurs stays within the capacities up to 256 |
| `BrowserConn.Connection.constructor` | pkg/wasm/dialer/websocket_conn.go:84-91 | a new connection is the empty value over 8 empty slots |
| `BrowserConn.Connection.ClearQueuedMessagesHead` | pkg/wasm/dialer/websocket_conn.go:171-187 | in-place compaction keeps the queue, leaves exactly the live slots filled, and afterwards the head is 0 or an append fits without moving the array |
| `BrowserConn.Connection.Append` | pkg/wasm/dialer/websocket_conn.go:152 | an append adds one message at the end; the array is replaced, at doubled size, only when it is full |
| `BrowserConn.Connection.CompactAndAppend` | pkg/wasm/dialer/websocket_conn.go:151-152 | compacting and appending moves the array only when the head is 0 and the array is full; capacity stays within 256 |
| `BrowserConn.Connection.Enqueue` | pkg/wasm/dialer/websocket_conn.go:142-155 | the locked section queues a message exactly when both limits hold with it, and keeps the byte count exact |
| `BrowserConn.Connection.ShiftQueuedMessage` | pkg/wasm/dialer/websocket_conn.go:224-246 | pops the oldest message if there is one, forgets it in the array, keeps head below half of the slice; the negative clamp is dead code |
| `BrowserConn.Connection.StoreConnectionError` | pkg/wasm/dialer/websocket_conn.go:205-221 | queues an error unless the connection is closed or four are waiting |
| `BrowserConn.Connection.DropQueuedMessages` | pkg/wasm/dialer/websocket_conn.go:264-272 | every slot of the dropped array is emptied |
| `BrowserConn.Connection.CloseChannels` | pkg/wasm/dialer/websocket_conn.go:254-283 | closes once; every slot of the array is emptied, and the tail is dropped exactly if TryLock gets the read lock |
| `BrowserConn.Connection.HandleQueueOverflow` | pkg/wasm/dialer/websocket_conn.go:191-202 | an overflow reports the would-be sizes, then closes |
| `BrowserConn.Connection.SignalReaders` | pkg/wasm/dialer/websocket_conn.go:162-167 | a token is there afterwards and nothing else changed |
| `BrowserConn.Connection.StoreIncomingMessage` | pkg/wasm/dialer/websocket_conn.go:133-168 | the imperative store refines the value-level one |
| `BrowserConn.Connection.AwaitSignal` | pkg/wasm/dialer/websocket_conn.go:327-334 | the select takes an error, or a token, or waits, and takes nothing it does not report |
| `BrowserConn.Connection.TakeMessage` | pkg/wasm/dialer/websocket_conn.go:319-325 | copies as much of the oldest message as fits and keeps the rest as tail |
| `BrowserConn.Connection.Receive` | pkg/wasm/dialer/websocket_conn.go:302-336 | the read loop, which ends because each round uses the token, refines the value-level read |
| `BrowserSteps.EveryRunIsSafe` | pkg/wasm/dialer/websocket_conn.go:133-336 | any number of threads, every interleaving: nothing is sent on the closed error channel, which is closed at most once; limits hold; a parked read with a non-empty queue has a token or a producer about to send one; until a close clears the queue, delivered ++ popped ++ tail ++ queue is what was accepted; for ever after, delivered ++ popped ++ tail is a prefix of the accepted bytes without the one stretch the clear cut out |
| `BrowserSteps.LocksExclude` | pkg/wasm/dialer/websocket_conn.go:69-76 | critical sections of the queue lock, the read lock and the once exclude each other, and no reporter holds its lock while the channel is being closed |
| `BrowserSteps.LocksNest` | pkg/wasm/dialer/websocket_conn.go:254-336 | locks nest one way and nobody asks for one it holds: under the queue lock or the error channel lock for nothing, under the read lock only for the queue lock, inside the once only for the queue lock and the error channel lock |
| `BrowserSteps.LateReadDeliversNothing` | pkg/wasm/dialer/websocket_conn.go:302-308 | the steps of a read that began after the closed flag was set change nothing that the threads share but the read lock |
| `BrowserCalls.ErrorsArriveInOrder` | pkg/wasm/dialer/websocket_conn.go:205-221 | every interleaving, also across a close: errors returned by reads followed by those waiting are the errors sent, in order, both read off the moves of the run |
| `BrowserCalls.UnreturnedReportWakesRead` | pkg/wasm/dialer/websocket_conn.go:327-332 | while a sent error is not returned, a read in its select can return the oldest one |
| `BrowserCalls.OpenReportIsSent` | pkg/wasm/dialer/websocket_conn.go:205-221 | a report that has ended while the connection is open did send its error |
| `BrowserCalls.StoreQueuesOrReports` | pkg/wasm/dialer/websocket_conn.go:142-160 | the locked section queues the message exactly when both limits hold with it, else the would-be sizes are reported |
| `BrowserCalls.OpenStoreIsQueued` | pkg/wasm/dialer/websocket_conn.go:133-168 | an arrival that returns while the connection is open, without overflow, has queued its message and leaves a token |
| `BrowserCalls.ReadsFillTheirBuffers` | pkg/wasm/dialer/websocket_conn.go:310-325 | each move of a read hands out, from the start of tail or popped message, as many bytes as fit and keeps the rest; no other move hands out anything |
| `BrowserCalls.CloseReturnsClosed` | pkg/wasm/dialer/websocket_conn.go:254-283 | when a close returns, the flag is set, the queue was cleared and the error channel is closed |
| `BrowserCalls.FreeReadLockCanBeWon` | pkg/wasm/dialer/websocket_conn.go:273-276 | a close that finds the read lock free can win it and drop the tail |
| `BrowserSteps.NextKeepsInvariant` | pkg/wasm/dialer/websocket_conn.go:133-336 | each step of each thread keeps lock ownership, closing order, read placement, wake-ups and the stream equation |
| `BrowserSteps.ReachableKeepsInvariant` | pkg/wasm/dialer/websocket_conn.go:133-336 | the invariant holds in every reachable state |
| `BrowserSteps.RelockedKeepsLocks` | pkg/wasm/dialer/websocket_conn.go:70-76 | a step that takes or gives up only what its position says keeps all ownership facts of all threads |
| `BrowserSteps.WakesKeepsWakeUps` | pkg/wasm/dialer/websocket_conn.go:162-167 | no step of any thread can lose a wake-up |
| `BrowserSteps.GuardedKeepsPlacement` | pkg/wasm/dialer/websocket_conn.go:205-221 | no step of another thread invalidates the closed recheck a reporter made under its read lock, or the empty tail a reader saw |
| `BrowserSteps.StoreKeepsStream` | pkg/wasm/dialer/websocket_conn.go:142-155 | the locked section of a store keeps the stream law, before and after a clear |
| `BrowserSteps.ReadKeepsStream` | pkg/wasm/dialer/websocket_conn.go:310-336 | each step of a read keeps the stream law, including between popping a message and splitting it |
| `BrowserSteps.CloseKeepsStream` | pkg/wasm/dialer/websocket_conn.go:254-283 | clearing the queue cuts exactly its bytes out of the stream; dropping the tail ends delivery |
| `BrowserSteps.CloseStepIsLocal` | pkg/wasm/dialer/websocket_conn.go:254-283 | each step of closeChannels keeps lock ownership, the closing order and the stream law; the flag is set before the channel is closed under the write lock |
| `BrowserSteps.ReadStepIsLocal` | pkg/wasm/dialer/websocket_conn.go:302-336 | each step of a read keeps lock ownership, the closing order and the stream law |
| `BrowserProgress.EveryRunIsBounded` | pkg/wasm/dialer/websocket_conn.go:133-336 | in every run the number of steps is bounded by the work at its start plus 19 per call begun: no loop goes round for ever |
| `BrowserProgress.StuckExactlyWhenNothingToRead` | pkg/wasm/dialer/websocket_conn.go:133-336 | in a reachable state no thread can take a step exactly when every call has returned or an open, empty connection has only reads waiting |
| `BrowserProgress.StuckMeansNoStep` | pkg/wasm/dialer/websocket_conn.go:133-336 | a thread has a next step exactly when the wait condition of its position is met |
| `BrowserProgress.CloseAlwaysProgresses` | pkg/wasm/dialer/websocket_conn.go:254-336 | while a close is under way or the connection is closed, some thread can always step until all calls have returned, also with a read parked in its select under the read lock |
| `BrowserProgress.StuckLeavesReads` | pkg/wasm/dialer/websocket_conn.go:254-283 | without a next step nobody holds the queue lock, the error channel lock or the once |
| `BrowserProgress.CanActTakesStep` | pkg/wasm/dialer/websocket_conn.go:133-336 | every position whose wait condition is met has a step |
| `BrowserCloseGap.LateAppend` | pkg/wasm/dialer/websocket_conn.go:134-152 | a run in which a message whose closed check came first is appended after the clear done by close |
| `BrowserCloseGap.CloseCanLeaveGap` | pkg/wasm/dialer/websocket_conn.go:134-168 | from the start that run goes on to deliver the late message although an earlier accepted one was dropped |
| `BrowserCloseGap.GapIsExact` | pkg/wasm/dialer/websocket_conn.go:134-168 | of every run whose next move clears the queue: some continuation delivers a byte accepted behind the dropped ones if and only if the queue holds bytes, a store with bytes that fit an empty queue is past its closed check, and a read into a non-empty buffer is past its own and on its way to the queue |
| `BrowserCloseGap.GapOpens` | pkg/wasm/dialer/websocket_conn.go:134-168 | the continuation that opens the gap |
| `BrowserCloseOrder.QuietClearKeepsOrder` | pkg/wasm/dialer/websocket_conn.go:254-336 | if no store is between its closed check and its append when the queue is cleared, then from there on the queue stays empty and delivered ++ popped ++ tail is a prefix of what was accepted |
| `BrowserCloseOrder.OrderUnlessGap` | pkg/wasm/dialer/websocket_conn.go:133-336 | in every reachable state, open or closed, the delivered bytes are a prefix of the accepted ones, or continue at exactly the position where the stretch cut out ends |
| `BrowserCloseOrder.NextKeepsNoGapAhead` | pkg/wasm/dialer/websocket_conn.go:254-336 | once the conditions for a gap are not met, no step of any thread brings them back |
| `BrowserCloseOrder.ClearLeavesNoGapAhead` | pkg/wasm/dialer/websocket_conn.go:265-272 | the step of the clear itself |
| `BrowserCloseHeld.QueueStaysEmptyExactly` | pkg/wasm/dialer/websocket_conn.go:264-272 | the queue stays empty in every continuation of its clear exactly if no store was past its closed check with a message that fits an empty queue |
| `BrowserCloseHeld.CloseDropsAll` | pkg/wasm/dialer/websocket_conn.go:264-276 | if nothing could land in the queue when it was cleared, the closed connection holds nothing for ever from the state in which the winner of TryLock drops the tail, or in which there is no tail and no read past its closed check |
| `BrowserCloseHeld.SettledHoldsForEver` | pkg/wasm/dialer/websocket_conn.go:254-336 | once the close has returned and no store or read is past its closed check, what the connection holds never changes |
| `BrowserCloseHeld.CloseCanKeepTail` | pkg/wasm/dialer/websocket_conn.go:273-276 | a run from the start in which a close loses TryLock to a read, all calls return, and a tail stays |
| `BrowserCloseHeld.NextKeepsTailGone` | pkg/wasm/dialer/websocket_conn.go:302-308 | no step of any thread brings back a tail |
| `AbuseGuard.KeyIsHost` | pkg/grpctunnel/abuse_control.go:111-126 | requests whose addresses split into hosts share a key exactly if they share the host, whatever the ports |
| `AbuseGuard.KeyWithoutHost` | pkg/grpctunnel/abuse_control.go:111-126 | an address that does not split is its own key; requests without address or host share one key |
| `AbuseGuard.GuardStore.constructor` | pkg/grpctunnel/abuse_control.go:33-39 | a new guard is empty |
| `AbuseGuard.GuardStore.ReserveConnection` | pkg/grpctunnel/abuse_control.go:42-82 | verdict and new state of the in-place reservation, including that a cap refusal still counts the attempt and a rate refusal changes nothing |
| `AbuseGuard.GuardStore.ClearConnection` | pkg/grpctunnel/abuse_control.go:85-108 | new state of the in-place release, saturating branches included |
| `AbuseGuard.ReserveKeepsAccounts` | pkg/grpctunnel/abuse_control.go:55-81 | a reservation is granted exactly when the rate allows it and both caps hold with one more; the counters stay equal to the slots held |
| `AbuseGuard.ClearKeepsAccounts` | pkg/grpctunnel/abuse_control.go:98-107 | releasing a held slot removes exactly it; neither saturating branch is needed and no entry of 0 stays |
| `AbuseGuard.RefusalsName` | pkg/grpctunnel/abuse_control.go:63-77 | what each refusal means: the rate is checked first, then the cap on all connections, then the cap of the client |
| `AbuseGuard.ReleaseSaturates` | pkg/grpctunnel/abuse_control.go:98-107 | a release that finds nothing lowers nothing, and no release touches other clients or the rate windows |
| `AbuseGuard.ClearUndoesReserve` | pkg/grpctunnel/abuse_control.go:42-108 | a release undoes a granted reservation except for the counted attempt |
| `AbuseGuard.ReleaseNeedsSameKey` | pkg/grpctunnel/abuse_control.go:90-107 | the release, which derives the key again, undoes the reservation exactly if the key is still the same; otherwise the client keeps the slot |
| `AbuseGuard.CountsAddUp` | pkg/grpctunnel/abuse_control.go:27-28 | the per-client counts add up to the active count |
| `RateBound.RateBoundHolds` | pkg/grpctunnel/abuse_control.go:55-68 | over every run of any clients whose clock readings for this client lie at most lag before the start of the window they meet: in any m minutes at most (m + 1) times the limit less one of its attempts pass the rate check, and the limit less one more for each begun minute of lag |
| `RateBound.RateBoundForLateClocks` | pkg/grpctunnel/abuse_control.go:55-68 | in particular for readings that come at most lag late in lock order; without lag, for a clock that never goes back |
| `RateBound.RateBoundIsReached` | pkg/grpctunnel/abuse_control.go:55-68 | that bound is attained for every limit, every positive number of minutes and every number of minutes of lag |
| `RateBound.LagBreaksBound` | pkg/grpctunnel/abuse_control.go:57-61 | the bound without lag holds of every run with n minutes of lag exactly if n is 0 or the limit is 1 |
| `RateBound.ZeroClockIsUnlimited` | pkg/grpctunnel/abuse_control.go:57 | at the zero time no attempt is ever refused, so that reading has to be excluded |
| `RateBound.RateIsPerClient` | pkg/grpctunnel/abuse_control.go:55-68 | a client's window and rate decisions are a function of its own attempt times, whatever other clients, releases and caps do |
| `RateBound.RefusedChangesNothing` | pkg/grpctunnel/abuse_control.go:55-65 | a rate refusal leaves the guard as it was, and an attempt a minute or more after the window start always passes |
| `RateBound.PassedWithinBudget` | pkg/grpctunnel/abuse_control.go:55-68 | from any window, the passes in an interval are paid for by the rest of that window and the windows that can still begin |
| `HandlerLifecycle.EveryExitReleases` | pkg/grpctunnel/server.go:298-354 | on every exit, by return or by panic of the origin check, the logger, a hook or the gRPC handlers: each item acquired is released exactly once, except the socket exactly if the logger panicked between the upgrade and the deferred close, and the owed disconnect hook exactly if the logger panicked on the way to it; release is acquisition reversed exactly if nothing leaks and no gauge was raised; no counter was chosen exactly if the origin check panicked |
| `HandlerRate.RequestsKeepRateBound` | pkg/grpctunnel/server.go:298-309 | over every run of concurrent requests: those of a client that pass the rate check in any m minutes, and so those that get a slot, keep the bound of the rate window |
| `HandlerRate.RunIsGuardRun` | pkg/grpctunnel/server.go:298-309 | the guard of a run of requests moves as the guard of its reservations and releases, and its passes are theirs |
| `HandlerLifecycle.EveryStateConserves` | pkg/grpctunnel/server.go:298-354 | any number of concurrent requests, every reachable state: the guard counts exactly the held slots client by client within both caps, the gauge counts the open connections and never exceeds the guard, and the two totals count the decided requests |
| `HandlerLifecycle.QuietHandlerHoldsNothing` | pkg/grpctunnel/server.go:298-354 | when all requests have finished, however they left, the guard is empty, the gauge is 0, and the two totals fall short of the requests by exactly those whose origin check panicked |
| `HandlerLifecycle.SlotReleaseIsExact` | pkg/grpctunnel/server.go:309 | the deferred release of a slot always finds its slot: both counts go down by exactly one |
| `HandlerProgress.UnfinishedCanStep` | pkg/grpctunnel/server.go:298-354 | in every reachable state every request that has not finished has a step, whatever the clock |
| `HandlerProgress.OwnStepsAreBounded` | pkg/grpctunnel/server.go:298-354 | each request finishes within a fixed number of its own steps |
| `HandlerProgress.LeavingTakesItsStack` | pkg/grpctunnel/server.go:298-354 | a request that has left is finished exactly when it has taken one step for each deferred call and one more |
| `HandlerProgress.EveryRunIsBounded` | pkg/grpctunnel/server.go:298-354 | every run of n requests ends after at most n times that many steps |
| `HandlerProgress.StuckMeansFinished` | pkg/grpctunnel/server.go:298-354 | a run cannot go on exactly when all its requests have finished |
| `HandlerProgress.EveryExitIsReachable` | pkg/grpctunnel/server.go:298-354 | a new request is rejected if the guard refuses it and else can leave at every other place, served or by a panic, and finishes |
| `HandlerLifecycle.ReachableKeepsSystem` | pkg/grpctunnel/server.go:298-354 | the invariant of the handler holds in every reachable state |
| `HandlerLifecycle.NextKeepsGuard` | pkg/grpctunnel/server.go:303-309 | each step of each request keeps the guard equal to the slots held |
| `HandlerLifecycle.NextKeepsCounters` | pkg/grpctunnel/server.go:304-320 | each step of each request keeps gauge and totals equal to what the requests account for |
| `HandlerLifecycle.FinishedReleases` | pkg/bridge/bridge.go:288-346 | what a finished request, of either handler, has acquired, released and leaked |
| `HandlerLifecycle.ReleaseOrder` | pkg/grpctunnel/server.go:309-325 | the release order is the acquisition order reversed exactly if nothing leaks and there is no gauge: the socket is upgraded before the gauge is raised and closed before it is lowered |
| `HandlerLifecycle.DeferredOrLeaked` | pkg/bridge/bridge.go:303-332 | at every place a request can leave, what it has acquired is what it has deferred, except for the socket and the disconnect hook in the two gaps around the log lines |
| `HandlerLifecycle.ReleaseKeepsRan` | pkg/grpctunnel/server.go:301-348 | running one deferred call releases an item that is still held and keeps the order |
| `NativeConn.Adapter.constructor` | pkg/bridge/conn.go:78-84 | a new adapter has nothing unread; the bridge one is closed when it has no socket |
| `NativeConn.Adapter.Receive` | pkg/bridge/conn.go:106-146 | the read loop, which ends because each round uses up a message, refines the recursive form |
| `NativeConn.WriteIsAllOrNothing` | pkg/bridge/conn.go:163-182 | a write adds to the stream of the other side exactly the bytes it counts: the whole payload exactly if it returns no error, else none |
| `NativeConn.NothingAfterClose` | pkg/bridge/conn.go:192-202 | over every sequence of operations: after a close all reads and writes are refused and no later close reports an error |
| `NativeDrain.ReadReturnsStored` | pkg/bridge/conn.go:135-145 | a read returns exactly the bytes that the last answer of a message reader stored, and none if it asked none |
| `NativeDrain.ErrorsOfReads` | pkg/grpctunnel/conn.go:36-51 | the error values the two adapters generate, and those they pass on |
| `NativeDrain.FirstCloseReports` | pkg/bridge/conn.go:192-202 | the first close of an open socket reports what the socket reports |
| `NativeDrain.DrainReturnsAll` | pkg/bridge/conn.go:106-146 | with message readers that make progress, enough reads into non-empty buffers return every binary byte, across refused text messages |
| `NativeDrain.DrainReturnsAhead` | pkg/grpctunnel/conn.go:32-66 | so enough reads up to the first error return all bytes before the first text message |
| `NativeDrain.TunnelDelivers` | pkg/bridge/conn.go:106-182 | after any run of the tunnel that leaves the receiver open: once carried, enough reads make the bytes read exactly those written |
| `NativeConn.LoopSplitsRemaining` | pkg/bridge/conn.go:117-145 | one read returns at most the buffer and a prefix of the remaining binary bytes, for every reader that obeys the io.Reader contract, also when it refuses a text message |
| `NativeConn.ReadsSkipText` | pkg/bridge/conn.go:106-146 | over any reads, across refused text messages and errors: bytes read ++ bytes remaining are all binary payloads in order, the text messages left out |
| `NativeConn.LoopSplitsAhead` | pkg/bridge/conn.go:117-145 | so a read that refuses nothing takes a prefix of the bytes before the first text message |
| `NativeConn.LoopEnds` | pkg/bridge/conn.go:117-145 | a generated error or a wait comes only between messages |
| `NativeConn.ReadsRefineStream` | pkg/bridge/conn.go:106-146 | up to the first error, for every message sequence, chunking and buffer sizes, the bytes read are a prefix of the binary payload before the first text message, and all of it when the error comes between messages |
| `NativeConn.LoopsAgree` | pkg/grpctunnel/conn.go:43-65 | both adapters leave the same state and return the same bytes |
| `NativeConn.AdaptersAgree` | pkg/grpctunnel/conn.go:32-66 | over any reads, also after errors, the adapters end in the same state with the same bytes, and each read differs only in the error the adapter generates itself |
| `NativeConn.AdaptersAgreeUpToError` | pkg/grpctunnel/conn.go:32-66 | the same of reads up to the first error |
| `NativeConn.TextRefusalIsNotSticky` | pkg/bridge/conn.go:129-131 | after refusing a text message the next read goes on behind it |
| `Tunnel.NativeTunnelKeepsStream` | pkg/bridge/conn.go:106-182 | native to native, all four pairings, every interleaving of writes, deliveries, reads, hang-ups and closes: read ++ in flight is what was written, so the bytes read are a prefix and equal once nothing is in flight |
| `Tunnel.RunKeepsLink` | pkg/bridge/conn.go:106-182 | the link invariant over every run from any state that satisfies it |
| `BrowserTunnel.TunnelKeepsStream` | pkg/wasm/dialer/websocket_conn.go:133-336 | native to browser, the receiver with any number of interleaved threads: accepted ++ refused ++ under way is what was written, open or closed; bytes are refused only by a connection closed or about to close; until a close clears the queue, delivered ++ held is what was accepted, so delivered is a prefix of what was written, and all of it once nothing is held, refused or under way |
| `BrowserTunnel.TunnelKeepsOrder` | pkg/wasm/dialer/websocket_conn.go:133-336 | also after a close the bytes delivered are a prefix of those written, unless there is a gap |
| `BrowserTunnel.WireCanArrive` | pkg/wasm/dialer/websocket_conn.go:93-111 | what is on the wire can arrive whenever the callback thread is idle |
| `BrowserTunnel.CloseKeepsTunnelOrder` | pkg/wasm/dialer/websocket_conn.go:254-336 | a close that clears the queue when no gap may open keeps that prefix for ever |
| `BrowserTunnel.NextKeepsLink` | pkg/wasm/dialer/websocket_conn.go:133-168 | each write, arrival and step of the receiver keeps the wire order and refuses nothing that is followed by an accepted message |
| `TodoItems.RunKeepsIndexed` | examples/direct-bridge/main.go:182-246 | identifiers stay distinct and non-empty over every run of operations |
| `TodoItems.CreateNeedsNewId` | examples/direct-bridge/main.go:184-186 | a create keeps them so exactly when its identifier is non-empty and not in use |
| `TodoItems.OperationsKeepOrder` | examples/direct-bridge/main.go:182-246 | a create adds its item with its text, not done, behind the others; an update replaces in place, a delete takes out one item and keeps the order, an unknown identifier changes nothing |
| `TodoItems.DeletedAt` | examples/direct-bridge/main.go:240-241 | deleting by identifier is deleting the one position that holds it |
| `TodoItems.LoadedKeepsFirsts` | examples/direct-bridge/main.go:82-95 | loading keeps exactly the first record of every non-empty identifier, in order |
| `TodoItems.LoadedIsIndexed` | examples/direct-bridge/main.go:78-98 | what was loaded has distinct non-empty identifiers |
| `TodoItems.LoadingIsStable` | examples/direct-bridge/main.go:78-111 | loading a snapshot of the store gives the same sequence back |
| `TodoStore.List.PushBack` | examples/direct-bridge/main.go:186 | appends a linked node behind the last one |
| `TodoStore.List.Unlink` | examples/direct-bridge/main.go:240 | relinking around a node leaves the other nodes linked both ways in order |
| `TodoStore.List.Remove` | examples/direct-bridge/main.go:240 | removes one node; the others keep their order |
| `TodoStore.List.Replace` | examples/direct-bridge/main.go:225 | changes what one node holds and nothing else |
| `TodoStore.List.Walk` | examples/direct-bridge/main.go:101-111 | walking the links gives the todos in order; no node is skipped as corrupt |
| `TodoStore.MapsInsert` | examples/direct-bridge/main.go:186 | a new identifier keeps map and list in agreement |
| `TodoStore.MapsDelete` | examples/direct-bridge/main.go:240-241 | removing a node and its key keeps map and list in agreement |
| `TodoStore.Store.Load` | examples/direct-bridge/main.go:78-98 | rebuilds list and map from records: exactly the loaded sequence, list and map agreeing |
| `TodoStore.Store.Create` | examples/direct-bridge/main.go:182-194 | appends the very todo it returns, with its text and not done, signals, keeps list and map in agreement |
| `TodoStore.Store.Update` | examples/direct-bridge/main.go:203-230 | puts the very todo it returns, a new object, in the place of the old one and signals if the identifier is known; the corrupt-node branch is unreachable |
| `TodoStore.Store.Delete` | examples/direct-bridge/main.go:232-246 | removes the item and signals if the identifier is known |
| `TodoStore.Store.Snapshot` | examples/direct-bridge/main.go:100-111 | the snapshot holds the visible todos in order |
| `TodoStore.Store.SignalPersist` | examples/direct-bridge/main.go:127-133 | a token is there afterwards |
| `TodoStore.Store.Place` | examples/direct-bridge/main.go:205 | the map leads to the one position that holds the identifier |
| `TodoStore.SnapshotThenRun` | examples/direct-bridge/main.go:101-246 | after any later operations the store is what they make of the sequence, and a snapshot still shows what it showed when it was taken |
| `TodoPersist.NoChangeIsLost` | examples/direct-bridge/main.go:127-165 | every interleaving of calls and worker: after a change since the last snapshot a signal is queued, or the worker is between taking one and its snapshot, or the changing call is about to signal; so with an idle worker on an empty channel the last snapshot is the store, or there is none and the store is as it was loaded |
| `TodoPersist.SnapshotsAreWhole` | examples/direct-bridge/main.go:156-159 | a snapshot is taken between whole calls |
| `TodoPersist.StoreIsWhatWasDone` | examples/direct-bridge/main.go:182-246 | every interleaving: the store is what the operations of the calls, in lock order, make of what was loaded |
| `TodoPersist.BurstsCollapse` | examples/direct-bridge/main.go:141-149 | a signal that comes during the wait can start it again |
| `TodoPersist.EveryRunIsBounded` | examples/direct-bridge/main.go:136-164 | every run comes to rest unless calls keep beginning |
| `TodoPersist.AtRestAllIsSaved` | examples/direct-bridge/main.go:136-164 | whenever everything rests, the last snapshot is the store, or there is none and the store is as it was loaded |
| `TodoPersist.NextKeepsInvariant` | examples/direct-bridge/main.go:127-165 | each step of a call or of the worker keeps the lock, change and index facts |
| `Keepalive.KeepaliveIsExact` | pkg/grpctunnel/server.go:202-235 | with an accepted configuration that sends pings, a peer that answers each within a delay is never cut off, whatever else it sends, exactly when there is no idle timeout or ping interval plus delay is below it |
| `Keepalive.AnsweredNeverExpires` | pkg/grpctunnel/server.go:202-235 | without an idle timeout no deadline is set; with one, the deadline is ahead at every read and now, by the last answered ping |
| `Keepalive.SlowPongsExpire` | pkg/grpctunnel/server.go:202-235 | with an idle timeout that is no longer than ping interval plus delay, two pongs within their delay let the deadline pass |
| `Keepalive.NoPingsNoDeadline` | pkg/grpctunnel/server.go:177-182 | an accepted configuration that sends no pings sets no deadline |
| `Keepalive.DeadlineAfterPong` | pkg/grpctunnel/server.go:202-209 | after the last pong the deadline is the idle timeout later, and no data frame moves it; without an idle timeout there is none |
| `Keepalive.DataDoesNotExtend` | pkg/grpctunnel/server.go:202-209 | a peer that sends data but no pong is cut off exactly when there is an idle timeout and it has passed |
| `Keepalive.AcceptedExactly` | pkg/grpctunnel/server.go:158-193 | accepted are exactly the configurations without negative values, without a limit on an unlimited read, and with the ping interval below any idle timeout |
| `Keepalive.FirstViolationIsReported` | pkg/grpctunnel/server.go:158-193 | the error of a rejected configuration is the first one in order that it violates |
| `Keepalive.AcceptedTimings` | pkg/grpctunnel/server.go:158-265 | an accepted configuration writes pings within their own interval, which is below the idle timeout, limits reads as configured or by default, and leaves them unlimited only if asked to |

## Left out

- BrowserStream.StreamRefinement: calls do not overlap; BrowserSteps.EveryRunIsSafe states the law
  for calls that do.
- BrowserStream.RunKeepsInvariant: the same.
- BrowserStream.ClosedIsFinal: says nothing of calls that overlap the close;
  BrowserCloseOrder.OrderUnlessGap does.
- Internals of gorilla/websocket, HTTP/2, h2c, the reverse proxy, gRPC and OpenTelemetry.
- `syscall/js` calls, attaching and releasing the browser handlers, the recover in the browser
  Write and the dial handshake of `pkg/wasm/dialer/dialer.go`.
- Deadline setters and address getters of all three connections.
- Parsing of target URLs; log lines, metric attributes, durations and span contents.
- Option setters and further configuration checks, the rejection of requests by a misconfigured
  bridge handler, a nil guard, reconnect defaults, buffer pools.
- The ping goroutine itself: its ticker, its close of the socket on a failed ping, its stop
  channel. Pings are taken to go out at multiples of the interval.
- JSON and files in `loadTodos` and `saveTodos`, timer internals, and any claim that changes
  reach the file: the debounce can be put off without bound and a failed save is only logged.
- ListTodos as a concurrent reader in `TodoPersist`: it shares the read lock and writes nothing.
- Amortised cost of the queue: alternating push and pop at full capacity compacts every time.
- `BrowserConn` has no threads and `BrowserSteps` no backing array: the array is only touched
  under the queue lock, whose sections are single steps there.
- `tools/`, generated code, pages, `examples/_shared/helpers`, benchmarks and end-to-end suites.
