# A verified model of the task orchestrator

The orchestrator keeps shared state that several loops change, with network and
Docker calls between the locked steps. This project models three components and
proves what their protocols keep over every interleaving:

- the **manager** control plane: stores, routing indexes and pending queue, the
  assign / post / roll back protocol of `SendWork`, the health pass with its
  stale snapshot, and the merge of worker reports;
- the **worker** execution loop: read, Docker call, merge under lock, for
  `RunTask` and the update passes;
- the **schedulers**: the round-robin cursor, and the marginal-cost fan-out with
  one goroutine per candidate and its cost formula.

How it is built:

- Shared state is a value (`MState`, `WState`). Each locked helper is a function
  on that value, and each body that releases the lock is a thread with a program
  counter that takes one locked step at a time (`ManagerProtocol`,
  `WorkerProtocol`).
- The `Manager`, `Worker` and `RoundRobinScheduler` classes update their fields
  in place, loops included, and every method is proved to reach the state the
  value-level protocol reaches.
- `ManagerSystem` and `WorkerSystem` interleave any number of threads. A run is
  any sequence of actions; the actions carry what the network, Docker and the
  scheduler answered, so a lemma over all runs covers every schedule and every
  such behaviour. `Along(s, run, ok)` says that `ok` holds of every step.
- Stores hold each task under its own ID (`Keyed`), which the code's own writes
  establish and keep.

| file | contents |
|---|---|
| `Tasks.dfy` | task record, state machine, in-memory store |
| `Reports.dfy` | report merge, health decision, update fan-out |
| `ManagerProtocol.dfy`, `Manager.dfy`, `ManagerSystem.dfy` | manager state and threads, the class, the interleaved system |
| `ManagerDispatch.dfy`, `ManagerRouting.dfy`, `ManagerBudget.dfy`, `ManagerRetire.dfy`, `ManagerRevive.dfy`, `ManagerLive.dfy`, `ManagerEdges.dfy`, `ManagerEvents.dfy`, `ManagerRequeue.dfy`, `ManagerRollback.dfy` | theorems about the manager |
| `ManagerScenarios.dfy` | concrete runs on which a condition of those theorems fails |
| `WorkerProtocol.dfy`, `Worker.dfy`, `WorkerSystem.dfy` | worker state and threads, the class, the interleaved system |
| `WorkerOutcomes.dfy`, `WorkerInspection.dfy`, `WorkerHistory.dfy` | what one body leaves, where a merge comes from, sequential histories |
| `Schedulers.dfy`, `MarginalCost.dfy` | round-robin; cost formula and marginal-cost scheduler |

Conditions the code itself imposes, and how they appear:

- **Re-dispatch.** The fresh-dispatch branch of `SendWork` is taken for any ID
  `assignmentFor` does not find, retired IDs included. Nobody has to submit such
  an ID again: a restart event the manager requeued itself is enough, as
  `RequeuedRestartRevives` shows, so `RetiredNeverComesBack` and
  `IgnoredExactlyWhenRouted` assume nothing about it. `NoRedispatch` excludes the
  runs that take the branch for a stored task or for one another caller is
  posting (`FreshExactlyWithoutRedispatch` says what that amounts to);
  `RedispatchBreaksBudget` is such a run, and `RunStaysWithinBudgetExactly`,
  `RunKeepsToEdgesExactly` and `RunStaysLiveExactly` say exactly which runs are
  safe with it.
- **Echo.** `WorkerEchoes` says that a worker accepting a post answers with a
  task of the posted ID, as `internal/worker/api.go:34-49` does.
- **The restart window.** `restartTask` reads the route and calls `beginRestart`
  under two locks; `LiveExactlyWithoutStopInWindow` and
  `RetiredForGoodWithoutRedispatch` are equivalences with that window, and it is
  part of the condition of `RetiredNeverComesBack`.
- **One RunTasks loop.** `CompletedForeverExactlyWithOneRunner` and
  `OwnersExactlyWithOneRunner` are equivalences with the number of loops.
- **Disjoint reports.** `FanOutIsConfluent` needs each task reported by one worker;
  `OrderNeverMattersExactlyWithoutRaces` covers shared tasks exactly.
- A task's state is an unvalidated integer on the wire; `Unknown` stands for
  every value without a name.

The comment at `internal/manager/state.go:107-109` says the routing map and the
store are written under the same lock. The code writes them under different
locks (`internal/manager/manager.go:305` and `internal/manager/manager.go:327`),
and a refused post leaves the route without the task; the model follows the code.

## Model

The main results come first; the rest follows by component.

| member | source | states |
|---|---|---|
| `ManagerRevive.RetiredNeverComesBack` | internal/manager/manager.go:276-505 | after any run of a new manager, whatever it re-dispatched, a task just retired stays retired in every continuation that does not submit it again and whose workers echo the posted ID, if and only if at that moment no event of it was queued or with a caller (stops aside), no restart of it was being posted, and none stood between route lookup and beginRestart |
| `ManagerScenarios.RequeuedRestartRevives` | internal/manager/manager.go:433-453 | a run from a new manager with one caller and exact echoes retires a task with the window closed, nobody submits it again, and its own requeued restart event is dispatched and stores it Scheduled |
| `ManagerBudget.RestartCountNeverExceedsMax` | internal/manager/manager.go:385-459 | over all interleavings of one health loop on stale snapshots with reports, stops and sends, without re-dispatch and with tasks first stored within the budget, no count exceeds TaskRestartMax |
| `ManagerBudget.RestartsAreConserved` | internal/manager/manager.go:385-459 | without re-dispatch, over a run the counts sum to what they were, plus what tasks arrived with, plus the restarts begun |
| `ManagerBudget.RestartBudget` | internal/manager/manager.go:385-459 | from a new manager, without re-dispatch and with tasks first stored within the budget, the restarts of a whole run number at most TaskRestartMax per stored task, less the counts the tasks arrived with |
| `ManagerBudget.RunStaysWithinBudgetExactly` | internal/manager/state.go:216-242 | along any run of any interleaving, re-dispatch included, all counts are within the budget in every state if and only if each restart found one to spend and each store brought none above it |
| `ManagerScenarios.RedispatchBreaksBudget` | internal/manager/manager.go:298-332 | with re-dispatch, one caller and a worker that echoes every task unchanged, a run from a new manager exceeds the budget: stop and resubmit under a snapshot |
| `ManagerLive.LiveExactlyWithoutUnroutedRestart` | internal/manager/manager.go:419-459 | from a new manager with one ProcessTasks loop and no re-dispatch, every stored task is routed or Completed in every state if and only if no restart begins for a task whose route is gone |
| `ManagerLive.LiveExactlyWithoutStopInWindow` | internal/manager/manager.go:419-505 | from a new manager with one ProcessTasks loop and no re-dispatch, every stored task is routed or Completed in every state if no stop lands between a restart's route lookup and its beginRestart, and only if, for runs that do not end between the two |
| `ManagerLive.RunStaysLiveExactly` | internal/manager/state.go:98-177 | along any run of any interleaving every stored task is routed or Completed in every state if and only if restarts and stores find a route and roll-backs find no live task |
| `ManagerScenarios.StopMeetsRestartGoesOn` | internal/manager/manager.go:420-453 | a run from a new manager without re-dispatch leaves a stopped task Scheduled without a route: a live task is out of reach and its state took no edge |
| `ManagerRouting.InverseExactlyWithoutResubmit` | internal/manager/state.go:98-177 | with one ProcessTasks loop the indexes stay exact inverses along a run in every state if and only if no event is dispatched for a task that is routed but not stored |
| `ManagerRouting.RoutedTasksAreListed` | internal/manager/state.go:136-177 | along every run of every interleaving, a task routed to a worker is listed by it and the worker's address resolves |
| `ManagerEdges.SerialRunsKeepToEdges` | internal/manager/manager.go:276-505 | with loop bodies one at a time and no re-dispatch, every change of a stored state along a run is an edge |
| `ManagerEvents.EventsAreConserved` | internal/manager/manager.go:276-333 | over every run with any number of callers, live events plus entered ones equal live events now plus those ended, outcome by outcome |
| `ManagerEvents.EveryOccurrenceIsInOnePlace` | internal/manager/manager.go:276-333 | from a new manager every enqueued occurrence is on the queue, with one caller, or at exactly one terminal outcome |
| `ManagerEvents.IgnoredExactlyWhenRouted` | internal/manager/manager.go:276-307 | along any run of any callers, re-dispatch included, an event other than a stop, of a stored task and with callers only at their lookup, never gets past its lookup if and only if every lookup of it finds a route; then each occurrence ends ignored or is still live |
| `ManagerRequeue.RequeuedRestartIsIgnored` | internal/manager/manager.go:433-453 | after any run of a new manager with one ProcessTasks loop, a new restart event of a routed task whose worker is unreachable is queued once more and, until the task is retired, is sent nowhere: it ends ignored or is still live |
| `ManagerRequeue.RouteGoesOnlyByRetirement` | internal/manager/state.go:136-291 | with one ProcessTasks loop, along any run, a stored and routed task that is not being dispatched keeps its route in every state if and only if it is never retired |
| `ManagerRollback.RollbackMakesFailuresInvisible` | internal/manager/manager.go:298-332 | any number of unreachable rounds over any nodes, then a success, leave the manager state of an immediate success |
| `Reports.FanOutIsConfluent` | internal/manager/manager.go:178-228 | if no task is reported by two workers, every complete interleaving leaves the store of processing the workers one after another |
| `Reports.OrderNeverMattersExactlyWithoutRaces` | internal/manager/manager.go:178-228 | for any report lists, shared tasks included, schedules that give each worker the same number of turns reach the same store if and only if no two next reports race at any point |
| `ManagerDispatch.HealthPassExactly` | internal/manager/manager.go:385-459 | with nobody interfering a whole pass makes a stored task Scheduled with one more count if and only if its count is below 3, a node has its worker's name, and it is Failed, or Running without a published port or with an unhealthy answer; every other record, route, list and log entry stays, and the undelivered restarts are queued in order |
| `Reports.InterleaveFoldsEachRecord` | internal/manager/manager.go:178-228 | at every point of every interleaving each stored record is the fold of its own reports in the order they were taken |
| `WorkerOutcomes.PassExactly` | internal/worker/worker.go:283-336 | one update pass leaves a task stored Running whose container Docker found with that container's ports, Failed if and only if the container has exited; every other field and record stays |
| `WorkerInspection.MergeWritesTheAnswer` | internal/worker/worker.go:283-336 | in every interleaving, with any number of RunTasks loops, what a pass writes is an answer the daemon gave it about that task, put into the record stored now and only if that is Running |
| `WorkerOutcomes.RunTaskExactly` | internal/worker/worker.go:114-233 | one RunTask takes the head off the queue and leaves its task, recorded first when unknown, untouched without an edge to the requested state; a start leaves it Failed or Running with Docker's container and ports, a successful stop Completed; no other task moves |
| `WorkerSystem.CompletedForeverExactlyWithOneRunner` | internal/worker/worker.go:114-336 | over all stores, queues and interleavings, Completed stays Completed if and only if at most one RunTasks loop runs |
| `WorkerSystem.OwnersExactlyWithOneRunner` | internal/worker/worker.go:114-336 | over all stores, queues and interleavings, each step writes only its author's fields (ContainerID a successful start, StartTime any start, FinishTime a stop, HostPorts a start or an inspection) if and only if at most one RunTasks loop runs |
| `WorkerHistory.HistoryWalks` | internal/worker/worker.go:114-336 | over any history of bodies and any queue, a stored state walks the state machine, at most two edges per body |
| `MarginalCost.DeadlockFreeExactlyWithRoom` | internal/scheduler/marginalcost.go:55-92 | no schedule of the goroutines deadlocks if and only if the error channel has room for every failing candidate |
| `MarginalCost.ResultIgnoresSchedule` | internal/scheduler/marginalcost.go:40-123 | under every schedule the output is the order-preserving filter of the candidates that answered, and one error was sent for each other candidate |
| `MarginalCost.Score` | internal/scheduler/marginalcost.go:40-123 | under every choice of the next goroutine the call ends, with an error exactly when there were candidates and none scored, otherwise with that output |
| `MarginalCost.PickWorker` | internal/manager/state.go:308-326 | a node comes back exactly when some node with disk room answered with positive memory; it is the earliest cheapest of those and, for a task that asks for no negative memory, beaten by none of them |
| `MarginalCost.WinnerIsUnbeaten` | internal/scheduler/marginalcost.go:54-92 | for a task that asks for no negative memory, the winner's score is positive and no usable candidate of equal total memory beats it: nowhere worse in available memory less the node's allocation, task count and CPU percentage (an unreadable one counting as 100), and somewhere better, memory counting only when some is asked for |
| `RoundRobin.RoundRobinIsFair` | internal/scheduler/roundrobin.go:35-56 | from any cursor, over any m rounds on n nodes, every index wins floor(m/n) or ceil(m/n) times |
| `Reports.MergeByOwner` | internal/manager/pure.go:56-69 | the merge keeps every manager-owned field, takes the worker-owned ones exactly when the reported state is the same or an edge away, and these two facts determine the record |
| `Reports.VisitedIsPath` | internal/manager/pure.go:56-69 | folding any reports into a record, the distinct states visited form a path of the state machine from the first state to the last |
| `Reports.FoldKeepsManagerPart` | internal/manager/pure.go:45-69 | no sequence of reports touches a manager-owned field, RestartCount included |
| `Reports.FoldTakesLastAccepted` | internal/manager/pure.go:56-69 | the worker-owned fields end as those of the last accepted report, or unchanged when none was accepted |
| `Reports.CompletedOnlyHearsCompleted` | internal/manager/pure.go:49-69 | from Completed a report is accepted exactly when it says Completed, so the record stays Completed |
| `Reports.InterleaveKeepsGoal` | internal/manager/manager.go:178-228 | if no task is reported by two workers, then at every point of every interleaving of the report lists, finishing the rest one worker at a time reaches the same store |
| `Reports.FanOutKeepsKeysAndManagerFields` | internal/manager/manager.go:178-228 | in every interleaving, complete or not, no task appears or disappears and no manager-owned field moves |
| `Reports.SharedTaskRaces` | internal/manager/manager.go:178-228 | without disjointness the order can matter: of a Running task, one worker saying Completed and another Failed |
| `Reports.DisjointNeverRaces` | internal/manager/manager.go:178-228 | if no task is reported by two workers no two reports ever race |
| `Reports.TurnsSwapExactly` | internal/manager/manager.go:178-228 | two turns of the fan-out may be swapped if and only if the reports they merge are of different or unknown tasks, or their order is irrelevant to the stored record |
| `Reports.MergesCommuteExactly` | internal/manager/pure.go:56-69 | two reports merge alike in either order if and only if they agree on the worker-owned fields, or both are accepted and exactly one may follow the other, or one is accepted and the other may not follow it, or neither is accepted |
| `Reports.TwoReportsRaceExactly` | internal/manager/manager.go:178-228 | two workers with one report each leave the same store in either order if and only if those conditions hold of the stored record |
| `Reports.ListFoldsEachRecord` | internal/manager/manager.go:203-227 | after one worker's list every stored record is the fold of its own reports in order, and no record appears |
| `Reports.SoleReporterKeepsOrder` | internal/manager/manager.go:178-228 | the reports of a task that one worker reports are taken in that worker's order, a prefix of them at every point |
| `ManagerProtocol.RemoveFirstIsFirst` | internal/manager/state.go:174-176 | the entry Index and Delete take out is the first one |
| `ManagerDispatch.RoutedEventStopsOrIsIgnored` | internal/manager/manager.go:285-296 | for a routed and stored task SendWork only takes the event off the queue, unless the event says Completed, the task is Running, a node has its worker's name and the worker accepts the stop: then the task is Completed, unrouted and unlisted |
| `ManagerDispatch.FreshEventDispatches` | internal/manager/manager.go:298-332 | for any other task the event is dropped when no worker is picked; otherwise it is logged and: accepted, the task is stored, routed and listed last; refused, routed and listed but not stored; unreachable, none of these and the event is last in the queue; no other task, route or list changes |
| `ManagerDispatch.RestartOutcomes` | internal/manager/manager.go:419-459 | a restart of a routed, reachable and stored task reschedules it with one more count and queues its event exactly when the worker was unreachable; otherwise nothing changes |
| `ManagerDispatch.RetireUnknown` | internal/manager/state.go:254-291 | retiring a task that is not stored still drops its route and first listing |
| `ManagerSystem.SendWorkIsARun` | internal/manager/manager.go:276-333 | the body of SendWork is a run of one caller's steps of the interleaved system |
| `ManagerSystem.HealthPassIsARun` | internal/manager/manager.go:385-459 | the body of the health pass is a run of the health loop's steps |
| `ManagerSystem.MergesAreFanOut` | internal/manager/manager.go:178-228 | with only update goroutines running, the interleaved system is the report fan-out |
| `ManagerSystem.FreshExactlyWithoutRedispatch` | internal/manager/manager.go:298-332 | along a run of any number of callers, no task being posted is stored already or posted twice, in every state, if and only if nothing is re-dispatched |
| `ManagerSystem.HealthTickIsARun` | internal/manager/manager.go:385-459 | a snapshot followed by the health pass over it is a run of the health loop's steps |
| `ManagerSystem.UpdateIsARun` | internal/manager/manager.go:189-228 | one goroutine's poll followed by its merges is a run that merges the whole list of a known worker that answers, and nothing otherwise |
| `ManagerRouting.UnrouteKeepsInverse` | internal/manager/state.go:164-177 | dropping a current route keeps the two indexes exact inverses without duplicates |
| `ManagerRouting.AssignKeepsInverse` | internal/manager/state.go:140-154 | assigning keeps the two indexes exact inverses if and only if the task was unrouted |
| `ManagerRouting.RefusedThenResubmitted` | internal/manager/manager.go:309-322 | the condition can fail: a refused task submitted again is listed twice |
| `ManagerBudget.CountMetersRestarts` | internal/manager/state.go:212-242 | without re-dispatch, a stored count grows over a run by exactly the restarts begun |
| `ManagerBudget.RestartsOfOneTaskAreBounded` | internal/manager/manager.go:419-459 | without re-dispatch and with tasks first stored within the budget, a stored task is restarted at most as often as its count leaves room for |
| `ManagerBudget.BudgetKeptExactlyWhenFound` | internal/manager/state.go:216-242 | in any interleaving, re-dispatch included, one step keeps all counts within the budget if and only if a restart found one to spend and a store brought none above it |
| `ManagerRetire.RetiredRun` | internal/manager/state.go:244-291 | a retired task stays Completed and unrouted, with the same count and no restart, along every run without re-dispatch |
| `ManagerRetire.WindowRevives` | internal/manager/manager.go:420-433 | with that window open the next health step reschedules the retired task |
| `ManagerRetire.RetiredForGoodWithoutRedispatch` | internal/manager/manager.go:419-505 | after any run of a new manager without re-dispatch, a task just retired stays retired in every continuation without re-dispatch if and only if no restart of it stood between route lookup and beginRestart |
| `ManagerRevive.SilentRun` | internal/manager/manager.go:276-459 | a retired task of which no event is queued, held or being reposted and no restart is in its window stays retired, keeps its restart count and begins no restart, along every run that does not submit it again and whose workers echo the posted ID |
| `ManagerRevive.UnsilentRevives` | internal/manager/manager.go:276-333 | otherwise, if some caller is free, the manager undoes the retirement by itself: some run in which nothing is submitted and no post accepted ends with the task routed again or no longer Completed |
| `ManagerLive.LiveKeptExactlyWhenRouteFound` | internal/manager/state.go:140-242 | the same equivalence for one step |
| `ManagerEdges.EdgesExactlyWhenReady` | internal/manager/state.go:216-291 | in any interleaving a step moves stored states along state machine edges if and only if the overwriting helpers found a state with such an edge |
| `ManagerEdges.RunKeepsToEdgesExactly` | internal/manager/state.go:216-291 | along any run of any interleaving every change of a stored state is an edge of the state machine if and only if each overwriting helper found a state with such an edge |
| `ManagerEvents.UnreachableSendRequeuesOnce` | internal/manager/manager.go:309-319 | whatever others do, a caller whose fresh send was unreachable keeps its event until it appends that same event once |
| `ManagerEvents.QueueIsFifo` | internal/manager/state.go:120-134 | over every run of any callers, what was pending plus what was enqueued or requeued is what was dequeued plus what is pending, in order |
| `ManagerScenarios.StopMeetsRestart` | internal/manager/manager.go:420-433 | a run from a new manager reaches a retirement inside the window |
| `ManagerRollback.OneFailedRound` | internal/manager/manager.go:309-319 | an unreachable round on a fresh task changes nothing but the event log |
| `Managers.Manager.AssignTask` | internal/manager/state.go:140-154 | the new state is the old one with the event logged, the task listed last by the worker and routed to it |
| `Managers.Manager.UnassignTask` | internal/manager/state.go:164-177 | the new state is the old one without the route and without the first listing of the task |
| `Managers.Manager.ApplyWorkerReport` | internal/manager/state.go:183-210 | the new state is the old one with the report merged, and known says whether the task was stored |
| `Managers.Manager.BeginRestart` | internal/manager/state.go:216-242 | a stored task becomes Scheduled with one more restart and is returned, a missing one changes nothing |
| `Managers.Manager.RetireTask` | internal/manager/state.go:254-291 | a stored task becomes Completed, and stored or not it is unrouted and unlisted |
| `Managers.Manager.StopTask` | internal/manager/manager.go:461-505 | the task is retired exactly when the address resolves and the worker accepts |
| `Managers.Manager.SendWork` | internal/manager/manager.go:276-333 | the body, run alone, carries out the stepwise protocol from dequeue to its last step |
| `Managers.Manager.RestartTask` | internal/manager/manager.go:419-459 | the body, run alone, carries out the restart protocol to its last step |
| `Managers.Manager.DoHealthChecks` | internal/manager/manager.go:385-417 | the loop visits one listing of the store, ends in the state the stepwise pass over it reaches, and restarts exactly the tasks the pass theorem names, field by field |
| `Managers.Manager.UpdateTasksFromWorker` | internal/manager/manager.go:189-228 | a successful poll of a known worker leaves every stored record as the fold of its reports in order; anything else changes nothing |
| `Nodes.AddressIsFirst` | internal/manager/manager.go:122-129 | a worker's address is that of the first node of its name |
| `WorkerProtocol.NeverVanished` | internal/worker/worker.go:304-315 | the write for a missing container is never reached |
| `WorkerInspection.QueueIsFifo` | internal/worker/state.go:105-121 | over every run of any RunTasks loops, what was queued plus what was enqueued is what was dequeued plus what is queued, in order |
| `WorkerInspection.RunTaskIsARun` | internal/worker/worker.go:114-148 | the body of RunTask is a run of one loop's steps |
| `WorkerInspection.UpdatePassIsARun` | internal/worker/worker.go:283-336 | a listing followed by the pass over it is a run of that pass's steps |
| `WorkerSystem.SoloRun` | internal/worker/worker.go:114-336 | with one RunTasks loop, any number of passes and any enqueues, every run keeps Completed tasks Completed and every field with its owner |
| `WorkerSystem.TwoRunnersResurrect` | docs/concurrency-and-state.md:320-324 | with two or more loops some run resurrects a Completed task |
| `WorkerSystem.DefinitionsNeverChange` | internal/worker/state.go:80-100 | with at most one RunTasks loop, name, image, memory, disk, exposed ports, policy, health check and restart count of a stored task never change |
| `WorkerSystem.TwoRunnersOverwrite` | internal/worker/worker.go:114-148 | with two or more loops some run overwrites the definition of a stored task |
| `WorkerHistory.RunTaskTakesAtMostTwoEdges` | internal/worker/worker.go:114-148 | one RunTask leaves a stored state alone or takes the requested edge and then the outcome edge, and touches no other task |
| `WorkerHistory.PassOnlyFailsRunning` | internal/worker/worker.go:283-336 | one update pass changes stored states only from Running to Failed |
| `WorkerHistory.CompletedOutlivesHistory` | internal/worker/worker.go:114-336 | a Completed task is out of reach of any such history |
| `Workers.Worker.UpsertTask` | internal/worker/state.go:89-100 | the change is applied to the record stored now, the argument being only the fallback |
| `Workers.Worker.StartTask` | internal/worker/worker.go:150-210 | one upsert: Failed on any Docker error, otherwise Running with the new container and its ports, or the queued ports when Docker names none |
| `Workers.Worker.StopTask` | internal/worker/worker.go:212-233 | one upsert to Completed exactly when Docker stopped the container |
| `Workers.Worker.RunTask` | internal/worker/worker.go:114-148 | the body, run alone, carries out the stepwise protocol and leaves the queued task as the request and Docker's answer decide |
| `Workers.Worker.UpdateTasks` | internal/worker/worker.go:283-336 | the loop visits one listing and ends in the stepwise pass's state: every Running task with the ports and the fate of the container Docker found, every other record untouched |
| `RoundRobin.NextIsEuclidean` | internal/scheduler/pure.go:25-37 | the truncated remainder with its correction is the Euclidean one of the successor and in range for every 64-bit cursor, the greatest wrapping to the least |
| `RoundRobin.ScoreNodes` | internal/scheduler/pure.go:41-51 | every node in order, score 1 at the selected index and 0 elsewhere |
| `RoundRobin.RoundRobinScheduler.Score` | internal/scheduler/roundrobin.go:35-48 | exactly the node whose turn it is scores 1 and becomes the cursor, which stays put without nodes |
| `RoundRobin.RoundRobinScheduler.PickWorker` | internal/manager/state.go:308-326 | score then pick returns the node at the advanced cursor |
| `RoundRobin.WinnersAreInRange` | internal/scheduler/pure.go:25-37 | over node sets of any changing sizes every round with nodes has a winner inside its set |
| `RoundRobin.EmptyRoundsLeaveNoTrace` | internal/scheduler/roundrobin.go:39-44 | deleting the rounds without nodes changes no winner |
| `RoundRobin.EveryLapIsComplete` | internal/scheduler/roundrobin.go:35-56 | any n consecutive rounds give every index exactly one win |
| `RoundRobin.RoundsAreWinners` | internal/scheduler/roundrobin.go:35-56 | the rounds counted there are the scheduler's own |
| `Cost.FullerCostsMore` | internal/scheduler/pure.go:125-129 | the cost curve is convex: the same increment costs strictly more on a strictly fuller resource |
| `Cost.ScoreIsPositive` | internal/scheduler/pure.go:142-167 | every score is positive, for a task that asks for no negative memory |
| `Cost.DominatingScoresLower` | internal/scheduler/pure.go:151-167 | a node weakly better off everywhere and strictly somewhere that counts scores strictly lower |
| `Cost.WholeMemoryOfIdleNode` | internal/scheduler/pure.go:151-167 | on an idle node a task asking for the whole memory costs Lieb's constant less 1 for the memory and a quarter load on the same curve for the job slot |
| `Cost.OneLoadMore` | internal/scheduler/pure.go:86-167 | one memory and four tasks more multiply an idle-CPU score by Lieb's constant, and one CPU more adds Lieb's constant less 1 times the CPU cost |
| `MarginalCost.SelectCandidateNodes` | internal/scheduler/marginalcost.go:28-38 | the candidates are the nodes at an increasing sequence of indices, namely all whose disk takes what is allocated plus what the task asks, the exact fit included |
| `MarginalCost.ScoredOrFailed` | internal/scheduler/marginalcost.go:97-120 | scored plus failed is the number of candidates |
| `MarginalCost.OneSlotPerCandidateSuffices` | internal/scheduler/marginalcost.go:55-59 | one slot per candidate is room enough |
| `MarginalCost.UnfinishedCanMove` | internal/scheduler/marginalcost.go:60-88 | with that room every unfinished goroutine can always take its next step |
| `MarginalCost.LowestIsEarliestCheapest` | internal/scheduler/pure.go:69-87 | the earliest lowest entry of the output comes from the earliest cheapest usable candidate |
| `Scoring.HighestScoringNode` | internal/scheduler/pure.go:55-67 | the node of the earliest greatest score, none exactly for an empty slice |
| `Scoring.LowestScoringNode` | internal/scheduler/pure.go:75-87 | the node of the earliest smallest score, none exactly for an empty slice |
| `Tasks.CompletedIsTerminal` | internal/task/task.go:25-43 | no walk of any length over the transition table leaves Completed |
| `Tasks.Edges` | internal/task/task.go:25-43 | the transition table has exactly nine edges, and none for a value without a name |
| `Tasks.WalksExactly` | internal/task/task.go:25-43 | some walk leads from one state to another exactly when the first is a named state other than Completed and the second a named one other than Pending |
| `Store.List` | internal/store/in_memory.go:39-41 | listing returns every stored task exactly once, in an arbitrary order |

## Left out

- HTTP servers and clients, JSON encoding, URL building and retries: every call is one of a few nondeterministic answers.
- Docker and gopsutil: oracles for start, stop, inspect and stats. Nothing is claimed about leaked containers.
- The bbolt store and failed writes: the in-memory store, whose Put cannot fail, is modelled.
- Timers, tick intervals, `Shutdown`, logging, error texts, the CLI and task files.
- `getHostPort` on a port published without any binding, which indexes an empty slice: only whether a port is published is modelled.
- Floating-point rounding: scores are reals, and `math.Pow` with base LIEB is any function with the laws of an exponential.
- Eventual placement and eventual agreement between manager and worker: the code promises neither.
- Managers.Manager.SendWork: the node the scheduler picks is an argument, one of the manager's nodes or none; `PickWorker` of either scheduler returns just that.
- Managers.Manager.DoHealthChecks: the class runs the pass without interference; interleaving is the subject of ManagerSystem.
- Workers.Worker.RunTask: likewise run without interference; interleaving is the subject of WorkerSystem.
- MarginalCost.WinnerIsUnbeaten: assumes a task's memory request is not negative, which the code does not check.
- Cost.ScoreIsPositive: assumes a task's memory request is not negative, which the code does not check.
- MarginalCost.PickWorker: one answer per candidate is an argument, so two fetches of one node never differ within a call.
