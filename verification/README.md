# Verified model of the TCP load balancer

This project models the load balancer's proxy engine, its shared scheduler and metrics, and its
configuration reader in Dafny, and proves what they keep over every run. `dafny verify dfyconfig.toml`
checks all of it.

## How it is laid out

- `Engine.dfy` is the per-worker proxy engine as functions on the whole worker state: the `peers` map, the epoll
  interest list, the answers of the kernel and of other threads still to come, and bookkeeping that no code reads
  (which connection owns a descriptor, the bytes that passed each socket, the descriptors obtained and released, the
  calls made on the shared runtime state). A system call takes the next answer of a finite stream; an exhausted stream
  means "would block" (for the socket error of a connect: an error), so every finite run is some choice of streams.
  Answers the kernel cannot give, such as a descriptor that is already open, are read as "would block".
- `Invariant.dfy`, `Steps.dfy`, `Handlers.dfy` state the invariant of a worker, and prove that every elementary
  change, every handler and every event keeps it. `Evolves` says what may happen to connections meanwhile.
  `Moments.dfy` finds a state of the worker between any two shared calls that a handler makes.
- `Runs.dfy` defines whole runs of the event loop, batches of events included, and states the main results at every
  event boundary. Descriptors may be closed and reused inside a batch. `Timeouts.dfy` and `Verdicts.dfy` say exactly
  what the timer and the read, write, connect and accept loops did; `Progress.dfy` says that an event leaves nothing
  undone that the kernel would have allowed.
- `Events.dfy` says what each event of a run does by the descriptor it names: listener, timer, stale descriptor, socket.
  `Arrivals.dfy` (new connections), `Touches.dfy` (what an event leaves alone), `Interest.dfy` (registration for
  output), `Times.dfy` (when bytes passed) and `Ejections.dfy` (which failures eject) hold its parts.
- `Worker.dfy` is the worker as an object with the loops and in-place updates of the original; each method is proved
  to compute the corresponding function, and `Run` to produce one of the runs of `Runs.dfy`.
- `Calls.dfy`, `Atomics.dfy` execute the runtime-state operations one atomic instruction at a time under every
  interleaving of any number of threads, with spuriously failing compare-exchange loops; `Interleavings.dfy` says what
  holds in every state of every such run, and `Fleet.dfy` joins them to the workers.
- `Selection.dfy`, `Rotation.dfy`, `Health.dfy`, `Scheduler.dfy`, `Runtime.dfy` are the selection policies, the
  backend state machine and the two shared objects as they behave when an operation runs alone. `Tickets.dfy`,
  `Balance.dfy` and `Extremes.dfy` are round robin and least connections chosen by several threads at once, one load at
  a time.
- `Text.dfy`, `Config.dfy` are the configuration reader; `ConfigFile.dfy` says which configurations a file can hold,
  by a writer that belongs to this model and not to the repository. `Modular.dfy` and `Outcomes.dfy` hold arithmetic
  and result types.

## What the proofs found

- Back-pressure resumes later than the design notes suggest: bytes already written stay in the buffer's size until
  the buffer has gone out whole, so a paused source is read again only after a full drain (`PausedUntilDrained`).
- Round robin is sound for every counter value but not complete at the wrap of its 64-bit counter: a scan that
  crosses the wrap skips a backend unless the number of backends divides 2^64 (`RoundRobinCompleteExactly`).
- "Down means the threshold is on record" fails when the 32-bit failure counter wraps; `WrapLosesRecord` gives the
  input and `DownIsRecorded` the streak lengths for which it holds.
- Draining is not sticky: failures on open connections eject a draining backend and one recovery returns it.
  `DrainingLeft` says exactly when draining lasts, `DrainingReturns` exactly when the backend comes back by itself, and
  `DrainingCanReturn` that this can happen for every threshold.
- The design notes say that power of two choices compares two routable backends and takes the less busy one; the code
  samples any two, returns the only routable one of a pair without comparing it (`UncomparedPick` gives the input), and
  falls back to a scan. The documented rule holds for all counts and draws exactly if every backend is routable or none
  is (`ComparesTwoExactly`).
- A socket can stay registered for output with nothing to write: an output event that writes everything never changes
  its own registration (`OutputStays`), so a level-triggered poll reports it again until the next data for it arrives.
  That is the only way: registration for output is never made without need, and outlives the need only through an
  output event of that very socket (`OutputRegistration`).
- Least connections chosen by T threads at once keeps two routable backends within T connections of each other, or
  within what they were apart at the start. With three that is no bound, because a scan compares two counters by two
  loads: 2k threads can get from 1 to 3k - 1 apart (`SpreadBeyondThreads`). Each further backend adds at most T - 1
  (`SpreadUnderThreads`).
- The endpoint reader is loose: text after the digits of a port is ignored, and a negative port that wraps around into
  range is accepted (`TailIgnored`, `NegativePort`); `AcceptedExactly` and `NumberExactly` say exactly which texts are
  endpoints and numbers.

## Model

| member | source | states |
|---|---|---|
| Runs.RunInvariant | src/server.cpp:239-280 | the whole invariant, including room behind every unprocessed input event, in every state of every run |
| Runs.StreamFidelity | src/server.cpp:419-510 | bytes read from one socket equal bytes written to the other followed by what is pending; after a close, what was written is a prefix of what was read |
| Runs.BufferBound | src/server.cpp:437-454 | no buffer ever reaches 1 MiB plus one 64 KiB read |
| Runs.Pairing | src/server.cpp:364-390 | pairing is an involution without fixed points between opposite sides of the same backend; clients are never connecting |
| Runs.NoLostWakeup | src/server.cpp:314-338 | input interest is registered exactly when the socket is connected and its partner has room; output interest whenever needed |
| Runs.NoDeadlock | src/server.cpp:322-330 | a connected socket that is not read waits for a partner registered for output with bytes pending |
| Runs.PausedStep | src/server.cpp:452-454 | one event while a source is paused reads nothing from it and leaves its buffer the same, further written, or empty |
| Runs.PausedUntilDrained | src/server.cpp:473-510 | full-drain hysteresis over any stretch of a run, with input re-registered exactly when the buffer is empty |
| Runs.WriteProgress | src/server.cpp:484-500 | each positive write takes exactly that many bytes off the front of what is pending |
| Runs.DescriptorConservation | src/server.cpp:565-573 | every descriptor obtained is the worker's own, or registered, or was closed exactly once, at every event boundary |
| Runs.Ledger | src/server.cpp:437-443 | the calls a worker makes move every counter by the sum over its connections and refusals, never close more than was opened, and eject a backend only right after recording its failure |
| Runs.HistoriesGrow | src/server.cpp:249-279 | connections keep their identity, histories only grow, and an ended connection is never touched, even when its descriptors are reused |
| Runs.RoomyElsewhere | src/server.cpp:249-279 | handling an event never takes the room from behind another descriptor of the batch, reused or not |
| Runs.CloseAllEmpties | src/server.cpp:284-292 | closing every registered descriptor, in any order, leaves none |
| Runs.CleanShutdown | src/server.cpp:284-296 | after shutdown no socket is registered, no descriptor is open, the listener, timer and epoll ones included, and every recorded open has its close |
| Handlers.HandleKeeps | src/server.cpp:249-279 | one event keeps the invariant and reads only from its own descriptor |
| Handlers.FlushKeeps | src/server.cpp:473-510 | the write loop keeps the invariant whatever the writes return |
| Handlers.ReadKeeps | src/server.cpp:419-471 | the read loop keeps the invariant, given room behind the descriptor at its start |
| Handlers.ForwardKeeps | src/server.cpp:431-451 | append, flush and both interest updates together restore the invariant |
| Handlers.FinishConnectKeeps | src/server.cpp:392-417 | connect completion keeps the invariant |
| Handlers.AcceptKeeps | src/server.cpp:340-362 | the accept loop keeps the invariant and touches no existing connection |
| Handlers.ReapKeeps | src/server.cpp:518-544 | the timer keeps the invariant |
| Steps.ClosePairKeeps | src/server.cpp:546-563 | closing a pair keeps the invariant, releases both descriptors and books one close |
| Steps.ModifyKeeps | src/server.cpp:314-338 | refreshing a descriptor's interest makes it exact and disturbs no other |
| Steps.SentKeeps | src/server.cpp:484-493 | a partial write leaves every registered interest right; a whole one leaves only the partner's out of date |
| Steps.ReceivedKeeps | src/server.cpp:424-443 | appending a chunk keeps fidelity, the bound and the counters |
| Steps.JoinKeeps | src/server.cpp:379-389 | a new connection keeps the invariant |
| Steps.EjectKeeps | src/server.cpp:575-579 | the ejection test keeps the invariant, whatever other threads did to the failure counter |
| Timeouts.ReapExact | src/server.cpp:518-544 | the timer fails exactly the connections still connecting past the connect timeout, closes exactly those for which no byte was read from either side or written to the client during the idle timeout, and leaves the rest untouched, in any map order |
| Timeouts.ReapCounters | src/server.cpp:536-543 | timeout counters rise by exactly what was removed and the error counter by exactly the connect timeouts |
| Timeouts.ActiveSurvives | src/server.cpp:426-436 | a connection with a byte read in either direction within the idle timeout is never reaped as idle |
| Timeouts.ExpiredListExact | src/server.cpp:523-534 | the list of expired clients holds each due client once |
| Timeouts.ShutdownBlamesNobody | src/server.cpp:290-292 | shutdown records no backend failure |
| Verdicts.FlushTells | src/server.cpp:473-510 | the write loop delivers the front of what was pending, as many bytes as the answers took, and stops only when empty, blocked, or closed by a failed write |
| Verdicts.ReadTells | src/server.cpp:419-471 | the read loop receives everything the answers carried, in order, and stops only when blocked, throttled or closed, with the blame on the socket that failed |
| Verdicts.FinishConnectTells | src/server.cpp:392-417 | a socket error fails the connection; otherwise the latency since the connection was made and the backend's health are recorded, the socket is connected, and what the client had sent is written as far as the socket takes it |
| Verdicts.HangupTells | src/server.cpp:266-269 | a hang-up ends the connection, as a backend failure exactly if the socket is the backend's |
| Verdicts.AcceptTells | src/server.cpp:340-390 | one connection per routed client, in order; refusals recorded; stops exactly when the answers run out or at the first one that is neither a client nor an interruption, and consumes that one |
| Progress.OutputDone | src/server.cpp:266-277 | after an output event a surviving socket is connected, and everything pending for it is written unless the kernel would take no more |
| Progress.InputDone | src/server.cpp:266-277 | after an input event everything the reads returned was received in order, and reading stopped only because the kernel had no more, the partner's buffer is full, or the connection ended |
| Progress.RunProgress | src/server.cpp:249-279 | both, for every socket event of every run |
| Progress.FlushLeavesOthers | src/server.cpp:473-510 | writing to one socket leaves every other peer, buffers included, as it is or closed |
| Workers.Worker.constructor | src/server.cpp:209-235 | a new worker holds its three own descriptors and is in the initial state |
| Events.ListenerAccepts | src/server.cpp:253-256 | an event of the listener accepts: connections, refusals, descriptors, recorded calls and the answer that stops it follow from the answers; new connections are connecting and registered; nothing old is touched |
| Events.TimerReaps | src/server.cpp:257-261 | an event of the timer reads the clock once and decides about every connection by that time |
| Events.TimerCounts | src/server.cpp:257-261 | and moves the timeout and error counters by exactly what it removed |
| Events.StaleIgnored | src/server.cpp:262-264 | an event of a descriptor closed earlier in the batch changes nothing |
| Events.HangupEnds | src/server.cpp:266-269 | a hang-up closes the pair, ends its connection with the blame on the backend exactly if it is the backend's, and touches nothing else |
| Events.ConnectDecides | src/server.cpp:392-417 | an output event on a connecting socket records latency and health, or fails the connection, by the next answer |
| Events.SocketTouches | src/server.cpp:266-277 | an event on a socket touches only its own pair, writes to the socket only on output and to its partner only on input, and completes a connect only on output |
| Events.OutputRegistration | src/server.cpp:314-338 | a socket registered for output after a step needs it or was registered before, and outlives its need only through its own output event |
| Events.OutputStays | src/server.cpp:473-497 | an output event on a connected socket leaves its own registration as it was, even when everything was written |
| Times.TrafficTimes | src/server.cpp:419-436 | over any stretch of a run a socket from which a byte was read or to which one was written carries a time that the clock showed during the stretch; other times stay |
| Ejections.EjectionsExact | src/server.cpp:575-579 | over every run the i-th failure recorded is followed at once by the ejection of its backend exactly if the i-th answer says so, and each failure takes one answer |
| Ejections.ShutdownEjections | src/server.cpp:284-296 | likewise to the end of the shutdown |
| Workers.Worker.Run | src/server.cpp:239-282 | every execution is one of the runs, from the state on entry, waiting for the given batches one after another and handling every event of each, followed by a shutdown of its last state |
| Workers.Worker.Dispatch | src/server.cpp:249-279 | one event is handled as the step of a run |
| Workers.Worker.Flush | src/server.cpp:473-510 | the loop computes the write function |
| Workers.Worker.ReadAvailable | src/server.cpp:419-471 | the loop computes the read function |
| Workers.Worker.Forward | src/server.cpp:425-451 | one round of the read loop |
| Workers.Worker.FinishConnect | src/server.cpp:392-417 | connect completion |
| Workers.Worker.Establish | src/server.cpp:405-412 | the successful end of a connect, with its latency and health records |
| Workers.Worker.AcceptClients | src/server.cpp:340-362 | the accept loop |
| Workers.Worker.AttachBackend | src/server.cpp:364-377 | what happens to one accepted client |
| Workers.Worker.Join | src/server.cpp:379-389 | registration of a new pair |
| Workers.Worker.ModifyFd | src/server.cpp:314-338 | the interest mask |
| Workers.Worker.ClosePair | src/server.cpp:546-563 | closing a pair and its accounting |
| Workers.Worker.CloseOne | src/server.cpp:565-573 | closing one socket |
| Workers.Worker.MaybeEject | src/server.cpp:575-579 | the ejection test |
| Workers.Worker.ReapTimeouts | src/server.cpp:518-544 | the expired list built in an arbitrary map order, then closed |
| Workers.Worker.Shutdown | src/server.cpp:284-296 | all descriptors listed in an arbitrary map order, then closed, then the worker's own three |
| Interleavings.Conservation | src/runtime.cpp:145-177 | in every state of every interleaving each counter is the sum of what the executed instructions did |
| Interleavings.CountersWithCallsInFlight | src/runtime.cpp:145-177 | in every state of every interleaving each counter is the net effect of the calls begun, corrected by what those in progress have yet to do |
| Interleavings.GuardNeverFires | src/scheduler.cpp:119-122 | a thread in a decrement loop always sees a positive counter, in both loops |
| Interleavings.QuiescentCounters | src/runtime.cpp:145-177 | with no call in flight each counter is the net effect of all calls made |
| Interleavings.GlobalsAgree | src/runtime.cpp:145-177 | with no call in flight the global active, total, error and byte counters are the sums of the per-backend ones |
| Interleavings.PeakExact | src/runtime.cpp:15-19 | with no open in flight the peak is the largest value the active counter has ever held |
| Interleavings.PeakNeverFalls | src/runtime.cpp:15-19 | the peak never decreases |
| Interleavings.RaiseBounded | src/runtime.cpp:15-19 | over any stretch of any run in which a thread stays within one call, its attempts that do not fail spuriously are bounded by how much closer it gets to its candidate, so by the candidate, whatever the other threads do |
| Interleavings.ScheduleOf | src/runtime.cpp:145-177 | every run has a schedule saying which thread takes each step and how |
| Atomics.ProgramEffect | src/runtime.cpp:145-177 | the instructions of each operation add up to its effect |
| Moments.HandleTraced | src/server.cpp:249-279 | between any two shared calls of one handler the worker has a state with sound books and linked connections that has made exactly the calls so far |
| Moments.EveryMoment | src/server.cpp:546-563 | such a state exists at every moment of every run, between the close and the failure of one pair too |
| Moments.EveryMomentOfShutdown | src/server.cpp:284-296 | and at every moment of the shutdown that ends the run |
| Fleet.AlwaysManned | src/server.cpp:546-563 | threads that are anywhere in the lives of their workers have worker states that have made exactly the calls begun, as the next three rows suppose |
| Fleet.ActiveIsLivePairs | src/scheduler.cpp:107-123 | in every state of every interleaving, calls in progress included, a backend's active counter is the number of pairs registered for it by all workers, less the opens that have not added theirs yet, plus the closes that have not taken theirs away |
| Fleet.CountersAreContributions | src/runtime.cpp:160-177 | in every state every counter is the sum over all live and ended connections of all workers, plus refusals and failed probes, corrected by the calls in progress; with none the correction is zero |
| Fleet.TotalIsPairsEverMade | src/scheduler.cpp:107-113 | in the same states the total counter is live pairs plus ended ones over all workers, less the opens that have not counted themselves yet |
| Fleet.QuiescentPairs | src/scheduler.cpp:107-123 | with no call in progress active is the number of live pairs, and total is active plus the ended pairs |
| Fleet.StoppedFleet | src/server.cpp:284-296 | after all workers have ended their runs with a shutdown and finished their last calls every active counter, per backend and global, is zero, whatever the other threads are doing |
| Fleet.CallsCountPairs | src/server.cpp:546-557 | opens minus closes of a worker on a backend are its registered pairs there |
| Calls.GlobalIsSumOfBackends | src/runtime.cpp:145-177 | whatever calls do to a global counter they do to the sum of the per-backend ones |
| Calls.LiveNeverNegative | src/scheduler.cpp:115-123 | closes never outnumber opens |
| Selection.RoundRobinSound | src/scheduler.cpp:56-65 | what round robin returns is Up, for every counter value |
| Selection.RoundRobinComplete | src/scheduler.cpp:56-65 | before the counter wraps, a backend is returned exactly when one is Up |
| Selection.RoundRobinCompleteExactly | src/scheduler.cpp:57-59 | with the wrap: complete for all states exactly when the scan does not cross it or the count divides 2^64 |
| Selection.LeastIsFirst | src/scheduler.cpp:90-104 | least connections returns the first Up backend of minimum active count, and one exactly when one is Up |
| Selection.OpenKeepsSpread | src/scheduler.cpp:90-104 | with all Up, an open never raises the spread above the larger of what it was and 1 |
| Selection.LeastRotates | src/scheduler.cpp:90-113 | from nothing, with all Up and no closes, the m-th connection goes to backend m mod n, as under round robin |
| Selection.SampleSound | src/scheduler.cpp:67-88 | sampling returns a drawn backend that is Up and no busier than the other draw if that is Up |
| Selection.PowerOfTwoExact | src/scheduler.cpp:67-104 | whatever is drawn, a backend is returned exactly when one is Up |
| Selection.PowerOfTwoExactly | src/scheduler.cpp:67-104 | the first drawn pair with a routable member decides, for its only routable or its less busy member; without one, least connections does |
| Selection.UncomparedPick | src/scheduler.cpp:76-81 | drawing a routable backend together with one that is not returns the routable one with nothing compared, however busy it is |
| Selection.ComparesTwoExactly | src/scheduler.cpp:67-88 | for all counts and draws the one returned is the less busy of two routable backends drawn together, exactly if every backend is Up or none is |
| Balance.SpreadUnderThreads | src/scheduler.cpp:90-113 | under every interleaving of the loads and opens of T threads, routable backends stay within the larger of the initial spread and T, plus T - 1 for each routable backend after the second |
| Extremes.SpreadIsReached | src/scheduler.cpp:90-113 | T threads can get two backends T connections apart |
| Extremes.SpreadBeyondThreads | src/scheduler.cpp:90-113 | with three backends T is not a bound: 2k threads can get from 1 apart to 3k - 1 apart |
| Extremes.Scans | src/scheduler.cpp:90-104 | a scan that nobody interrupts chooses what the policy chooses |
| Rotation.SelectsIff | src/scheduler.cpp:56-65 | a counter value selects a backend exactly when its slot is reached through backends that are not Up |
| Rotation.ExactShares | src/scheduler.cpp:56-65 | n consecutive selections pick an Up backend once plus the length of the cyclic run of not-Up backends before it |
| Rotation.Balanced | src/scheduler.cpp:56-65 | with all Up, shares over any window differ by at most one |
| Tickets.TicketDecides | src/scheduler.cpp:56-65 | under every interleaving the k-th selection to take a value of the counter chooses what round robin chooses for the k-th value |
| Tickets.SharesUnderThreads | src/scheduler.cpp:56-65 | so n consecutive selections have the exact shares, whichever threads made them |
| Tickets.BalancedUnderThreads | src/scheduler.cpp:56-65 | and with all Up the shares over any stretch differ by at most one |
| Health.History | src/scheduler.cpp:125-141 | over all operation sequences: the counter is the failure streak modulo 2^32, Down needs a streak of the threshold, and Up after such a streak, however long, needs an enable since the last recovery |
| Health.StateExactly | src/scheduler.cpp:125-148 | after any history: draining exactly if a drain was followed by no enable and no ejecting failure, Down exactly if a failure ejected and only failures followed |
| Health.DownIsRecorded | src/scheduler.cpp:125-131 | for every streak length n: all histories ending in such a streak have the threshold on record when Down exactly if n is below the threshold or n modulo 2^32 is not |
| Health.WrapLosesRecord | src/scheduler.cpp:130-130 | the input for which it does not |
| Health.DrainingLeft | src/scheduler.cpp:133-141 | over any continuation a draining backend stays draining all along exactly if it is never enabled and no failure brings its counter to the threshold |
| Health.DrainingReturns | src/scheduler.cpp:133-141 | without the administrator a draining backend comes back into service at some point exactly if a failure ejects it and a recovery follows |
| Health.DrainingCanReturn | src/server.cpp:575-579 | such continuations exist for every threshold |
| Schedulers.Scheduler.constructor | src/scheduler.cpp:30-37 | all counters zero, all backends Up |
| Schedulers.Scheduler.Select | src/scheduler.cpp:51-105 | each policy computes its function; the result is Up; completeness as in Selection |
| Schedulers.Scheduler.ScanFrom | src/scheduler.cpp:58-64 | the rotation scan |
| Schedulers.Scheduler.ScanLeast | src/scheduler.cpp:90-104 | the least-connections scan |
| Schedulers.Scheduler.DrawPairs | src/scheduler.cpp:70-87 | the sampling loop |
| Schedulers.Scheduler.MarkOpen | src/scheduler.cpp:107-113 | one more active and one more total, or out of range |
| Schedulers.Scheduler.MarkClosed | src/scheduler.cpp:115-123 | one less active but never below zero, despite spurious failures |
| Schedulers.Scheduler.MarkFailure | src/scheduler.cpp:125-131 | one more error and one more consecutive failure, with wrap |
| Schedulers.Scheduler.MarkHealthy | src/scheduler.cpp:133-141 | the recovery step of the state machine on that backend alone |
| Schedulers.Scheduler.SetState | src/scheduler.cpp:143-148 | that backend's state, or out of range |
| Runtimes.RuntimeState.FailAndEject | src/server.cpp:559-562 | the failure step of the state machine on that backend alone, and one error counted globally and for it |
| Runtimes.RuntimeState.CheckAll | src/server.cpp:642-659 | one pass of the health checker leaves draining backends alone; an answered probe clears the failures, brings a Down backend back and leaves its latency; a failed one counts one failure and one error and takes the backend Down at the threshold; no other counter moves |
| Runtimes.RuntimeState.CheckOne | src/server.cpp:643-657 | the same for one backend, and no other backend changes |
| Runtimes.RuntimeState.RecordConnectLatency | src/runtime.cpp:175-177 | that backend's latency gauge, or out of range |
| Runtimes.RuntimeState.constructor | src/runtime.cpp:35-41 | all counters zero |
| Runtimes.RuntimeState.UpdatePeak | src/runtime.cpp:15-19 | ends under unending interference after no more attempts than the distance it had to go, with the peak at the highest value anyone brought meanwhile |
| Runtimes.RuntimeState.RecordConnectionOpen | src/runtime.cpp:145-150 | every counter moves by the effect of an open; the peak follows |
| Runtimes.RuntimeState.RecordConnectionClose | src/runtime.cpp:152-158 | every counter moves by the effect of a close, saturating at zero |
| Runtimes.RuntimeState.RecordBackendFailure | src/runtime.cpp:170-173 | every counter moves by the effect of a failure; the global one even out of range |
| Runtimes.RuntimeState.RecordBytesFromClient | src/runtime.cpp:160-163 | bytes from clients, globally and per backend |
| Runtimes.RuntimeState.RecordBytesFromBackend | src/runtime.cpp:165-168 | bytes from backends, globally and per backend |
| Configs.EndpointRoundTrip | src/config.cpp:54-67 | reading a printed endpoint returns it exactly when the host is non-empty, does not start with white space, and the port is not zero |
| Configs.EndpointNormalForm | src/config.cpp:54-67 | printing what was read and reading it again changes nothing |
| Configs.AcceptedShape | src/config.cpp:54-67 | every accepted text yields a proper host and a port from 1 to 65535 |
| Configs.AcceptedExactly | src/config.cpp:54-67 | a text is read as an endpoint exactly if, trimmed, it is a non-empty host, a colon, and a text without colons that reads as its port |
| Configs.TailIgnored | src/config.cpp:61-66 | text after the digits of a port is ignored |
| Configs.NegativePort | src/config.cpp:61-66 | a negative port that wraps around to 1..65535 is accepted |
| Configs.RejectedExactly | src/config.cpp:54-67 | which error a text makes that is no endpoint: its shape, the conversion's, or the range of the port |
| Configs.PolicyRoundTrip | src/config.cpp:28-52 | the reported name of a policy reads back as that policy |
| Configs.PolicyExactly | src/config.cpp:28-40 | a policy is read exactly from the texts that differ from one of its three names in the case of letters and in white space around it |
| Configs.LoadConfig | src/config.cpp:69-131 | the one-pass reader returns the configuration or the first error: a file that cannot be opened, a bad line with its number, or no backend |
| Configs.GetLine | src/config.cpp:79-79 | the next line and the rest of the text |
| Configs.FileMeaning | src/config.cpp:79-130 | accepted exactly when every line is well formed and a backend is named; backends in file order, other keys from their last assignment |
| Configs.FieldByKey | src/config.cpp:99-123 | each key sets the field of its own name to its last assignment |
| Configs.NumberExactlyCut | src/config.cpp:107-123 | a number is cut to its lower 32 bits |
| Configs.ErrorExactly | src/config.cpp:69-131 | which error a file ends in: that of its first bad line, with its number; no backend; or not opened |
| Configs.CommentIgnored | src/config.cpp:81-84 | appending a comment changes nothing |
| Configs.BlankIgnored | src/config.cpp:86-89 | blank and comment-only lines say nothing |
| Configs.PaddingIgnored | src/config.cpp:86-97 | white space around line, key and value does not matter |
| Configs.CaseIgnored | src/config.cpp:96-96 | keys that differ only in the case of letters read the same |
| Configs.InsertIgnored | src/config.cpp:79-89 | inserting a line that says nothing changes only line numbers in errors |
| Configs.SameLines | src/config.cpp:79-124 | files whose lines say the same have the same result |
| Text.TrimPad | src/config.cpp:12-17 | padding never changes the trimmed text |
| Text.TrimShape | src/config.cpp:12-17 | trimmed text neither starts nor ends with white space |
| ConfigFiles.FileRoundTrip | src/config.cpp:69-131 | a file can hold exactly the configurations with a backend and with hosts that are not empty, do not start with white space and contain neither a comment sign nor a newline; the text written for one reads back as it |
| ConfigFiles.LoadedIsLoadable | src/config.cpp:69-131 | every configuration that is read has this shape |
| ConfigFiles.KeyNames | src/config.cpp:99-123 | each key has exactly one name |
| ConfigFiles.KeyInAnyCase | src/config.cpp:96-123 | a key is recognised exactly by that name in any case with any white space around |
| Text.LowerExactly | src/config.cpp:19-24 | lower-casing identifies exactly the texts that differ in the case of letters, and leaves no capital |
| Text.SpaceExactly | src/config.cpp:12-17 | white space is the six characters of the C locale |
| Text.ReadsNumber | src/config.cpp:61-61 | what the number conversion makes of a sign, zeros in front, text behind, and numbers of 2^64 or more |
| Text.OnlyNumbers | src/config.cpp:61-61 | only white space, an optional sign and digits make a number |
| Text.NumberExactly | src/config.cpp:61-61 | a text is read as n exactly if it is white space, an optional sign, digits below 2^64 and any tail, with n their value, negated modulo 2^64 after a minus |
| Text.ValueOfConcat | src/config.cpp:61-61 | digits count ten times as much for each digit behind them |
| Text.ValueOfDigit | src/config.cpp:61-61 | and a digit alone counts its own value |
| Text.LinesOfUnlines | src/config.cpp:79-79 | the lines of a text made of lines are those lines |
| Text.ReadsDecimal | src/config.cpp:61-61 | the number conversion reads back decimal notation |

## Left out

- Real system calls, address resolution, socket options, the timer descriptor's reads and the retry of interrupted waits: only their results appear, as answers.
- Exceptions out of `add_fd`, `connect_backend` and listener setup, which end the worker thread, and failures of `EPOLL_CTL_MOD`: assumed not to happen.
- Several addresses per backend: `connect_backend` appears as one answer, refused or a descriptor.
- The `fd` field of a peer, which is its key, and the value of the latency gauge under interleavings; times are in clock units.
- Workers.Worker.AttachBackend: the selected backend and the outcome of `connect_backend` are one answer, because the shared counters and states that selection reads are moved by other threads meanwhile; Selection and Scheduler model the choice itself.
- Workers.Worker.MaybeEject: whether the shared failure counter has reached the threshold is an answer, because other threads move that counter meanwhile; Health models the test itself.
- Widths of the other counters: 64-bit totals are unbounded; the rotation counter and the failure counter have theirs.
- Weak memory: interleavings are sequentially consistent, and multi-counter equalities are stated with no call in flight.
- The consecutive-failure counter and backend states under interleaving: the state machine is proved for whole operations, because the loads and stores of an ejection and a recovery can interleave.
- Changes of backend states and closes while several threads select: Tickets and Balance are about fixed states, and about opens and refusals only.
- The quality of the random generator: draws are arbitrary indices.
- Reading the configuration file from disk: the reader starts from its text, or from its absence.
- The admin HTTP server and its event stream, statistics texts, logging, `main`, the dashboard and the scripts: plumbing, except that drain and enable are operations of the state machine.
