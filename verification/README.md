# A verified model of hax

hax is the daemon that connects Motr, a distributed object store, to Consul, which watches the
cluster.  Several threads of it take commands from a planner, send notifications to Motr and wait for
their delivery, exchange messages with the hax of other nodes through a queue in Consul's key-value
(KV) store, and record the health of processes and devices there.  This project models the parts of
hax where the order of events matters, and proves what they guarantee over every run.

A protocol is modelled twice.  Once as functions on values, with a label for each atomic step: a
critical section, or one call to Consul.  `Run` replays a sequence of labels, so a statement about
every run is a statement about every interleaving.  Only `DriveStates` takes a whole event as one step;
`DriveRaces` has the single reads and writes behind it, and says which of its results survive.  And once, where the source updates an object, as a
class whose methods are proved to do to the object what those functions do to its value.

| files | what they model |
|---|---|
| `Planning`, `PlannerSystem`, `PlannerDecisions`, `PlannerRefinement`, `PlannerTheorems`, `PlannerOverflow`, `WorkPlanner`, `LinkedLists` | the planner: groups of commands executed one group after the other, with group numbers that wrap around |
| `Heralds`, `HeraldRuns`, `DeliveryHerald` | the rendezvous between delivery notifications and the threads waiting for them |
| `BroadcastQueue`, `Inbox`, `QueueObjects` | the broadcast queue from publishers through the KV store to a consumer that may crash |
| `ConsulCache`, `CacheHits`, `InvocationCache` | memoised reads of the KV store |
| `FailureHandling`, `FailureHandler`, `BucketLocks` | recording and reporting failed processes, with every pattern of failing Consul calls, and the locks they share |
| `FidAllocation`, `FidKeys`, `Fids` | identifiers: allocation under a lock in the KV store, 32-bit packing, print and parse |
| `DriveStates`, `DriveStore`, `DriveRaces` | device states under drive and process events, one after the other and interleaved |
| `WorkerPool` | stopping processes in parallel |
| `AllowedFailures` | how many nodes, controllers and disks a pool may lose |
| `Arithmetic` | facts about products and remainders |

## What turned out not to hold

In each case the code is modelled as it is, a concrete run or input shows the failure, and the exact
condition under which the property does hold is proved.

- **Group numbers wrap around.**  A planner whose current group is more than `MAX_GROUP_ID` groups
  behind the one being filled confuses the two and never moves on (`PlannerOverflow.Dichotomy`,
  `PlannerOverflow.QueueOfBroadcastsWedges`).  A backlog of at most `MAX_GROUP_ID` commands is enough
  to exclude that (`PlannerTheorems.BoundedIsThroughout`).  The docstring of `_assign_group`
  (hax/hax/motr/planner.py:370) takes numbers modulo `MAX_GROUP_ID`; the code wraps one later.
- **A worker can sleep on with work at hand.**  A finish wakes the sleepers only when the group moves on.
  For the backlog that is enough: no worker sleeps while its head is of the current group
  (`PlannerDecisions.SleepersAreIdle`).  For the out-of-order list it is not
  (`PlannerDecisions.SleeperOverlooked`); the finishing worker comes for that work itself, and when all
  sleep none is left (`PlannerTheorems.NoLostWakeup`).
- **SNS operations share groups.**  The same docstring has a second SNS operation open a new group.
  The test looks for the base class among concrete classes, so two operations run at the same time
  (`PlannerTheorems.SnsOperationsOverlap`).  An SNS operation opens a group exactly when a plain
  `SnsOperation` is in the group being filled (`PlannerTheorems.OpensGroupIff`).
- **Compare-and-set with index zero.**  A transaction with index zero is not checked at all, so
  publishing is right exactly when the epoch key has a positive index or there is one publisher
  (`BroadcastQueue.PublishersIff`).
- **Writes that keep the cache.**  A write that does not hand the cache on leaves old answers in it
  (`ConsulCache.StaleReadIff`).  Caching is transparent for all programs whose writes agree on this
  exactly when they hand it on (`ConsulCache.TransparentIff`).  `_generate_sub_disks` makes a write that
  does not (hax/hax/motr/__init__.py:572).
- **A retried failure report is lost.**  A process whose status is written by an attempt that then
  raises is not reported by the retry (`FailureHandling.RetriedReportIff`,
  `FailureHandling.RetryLosesReport`).
- **Status under one fid, lookup under another.**  The status of a process is written under its fid and
  looked up under its base fid.  A second attempt reports a process again exactly when one in the list is
  due under a dynamic fid and its base is not itself due in the list (`FailureHandling.SecondAttemptIff`).
- **A lock that is not released.**  `_update_process_status` takes a bucket lock and keeps it when a call
  raises.  A bucket is locked for good exactly when that has happened in it (`BucketLocks.LeakedIff`,
  `BucketLocks.ServedIff`).
- **Locks of the fid counters.**  Locks are deleted without looking at the owner, deletes are retried, and
  revoking first reads the owners and then deletes.  Counters are unique exactly when there is one
  allocator; or no reply to a delete is lost and nobody revokes; or no reply is lost, only locks of dead
  owners are revoked, and there is one revoker or no third allocator (`FidAllocation.NeverTwiceIff`).  A
  call that fails while it holds the lock waits for itself (`FidAllocation.NothingMoreAllocated`).  The
  only call of `revoke_all_dynamic_fidk_lock_for` (hax/hax/handler.py:268-271) is dead code: it is behind a
  comparison of a string with an enumeration member, which is never true.  So the model of the handler has
  no such call.
- **Device states are written without a check.**  `update_drive_state` reads all entries before it writes
  any, so a process event can overwrite the failed state a drive event has stored since
  (`DriveRaces.FailureOverwritten`).  A sticky state survives exactly when no process event under way has
  read the device before and collected another state (`DriveRaces.SurvivesIff`, `DriveRaces.KeptIff`).
- **Process events can make devices sticky**, when the status of the process itself is repair, repaired
  or rebalance (`DriveStates.ProcessEventSticksIff`).
- **Workers lost to exceptions.**  A worker whose call raises is gone; every process is attempted
  exactly when fewer calls raise, not counting the last, than there are workers
  (`WorkerPool.AttemptedAllIff`).
- **Controllers.**  The number of controllers that may fail can be too high when the units of a node do
  not divide evenly among its controllers (`AllowedFailures.CtrlTooMany`); it is right exactly when losing
  that many, spread evenly over the nodes, loses no more than the parity, or there is nothing
  but parity (`AllowedFailures.CtrlIff`).
- **Negative fid components** print in a form that does not parse (`Fids.FidRoundTrip`).

## Model

| member | source | states |
|---|---|---|
| `PlannerTheorems.WindowInvariant` | hax/hax/motr/planner.py:266-308 | in every state of every run of the planner with unbounded group numbers, queued groups never decrease, lie between the current and the next group, and leave no group in between out |
| `PlannerTheorems.IdsFaithfulIff` | hax/hax/motr/planner.py:251-264 | in every such state, comparing wrapped numbers with the current one is right for all queued commands if and only if at most `MAX_GROUP_ID` groups lie ahead |
| `PlannerRefinement.IncreasedIsModular` | hax/hax/motr/planner.py:251-264 | the next group number is the successor modulo `MAX_GROUP_ID` + 1 |
| `PlannerRefinement.StepRefines` | hax/hax/motr/planner.py:108-121 | within the window, a step of the wrapping planner is the same step of the unbounded one with its numbers wrapped |
| `PlannerRefinement.RunRefines` | hax/hax/motr/planner.py:251-308 | the wrapping and the unbounded planner run in lock step over every run that keeps the window, both as to which steps are possible and as to the states reached |
| `PlannerTheorems.BoundedIsWithin` | hax/hax/motr/planner.py:108-121 | a backlog of at most `MAX_GROUP_ID` commands in every state keeps the window |
| `PlannerTheorems.BoundedIsThroughout` | hax/hax/motr/planner.py:108-121 | a backlog of at most `MAX_GROUP_ID` commands in every state keeps the window in every state, so that each theorem about runs in the window holds for it |
| `PlannerTheorems.NoLostWakeup` | hax/hax/motr/planner.py:151-189 | while at most `MAX_GROUP_ID` groups lie ahead, in every interleaving of adders and workers, when all workers sleep nothing is queued or active and every submitted command has been finished exactly once |
| `PlannerTheorems.EveryRunDrains` | hax/hax/motr/planner.py:285-308 | from a run in the window, before shutdown and with no Die submitted, without further submissions, the workers take a bounded number of steps, and when none can move everything submitted has been finished |
| `PlannerTheorems.RankDrops` | hax/hax/motr/planner.py:161-189 | every step of a worker, going to sleep and being woken included, lowers a measure of the work left |
| `PlannerTheorems.GroupsInOrder` | hax/hax/motr/planner.py:234-249 | in every run of the wrapping planner in the window, a queued command is handed out only when every command of every earlier group has finished, earlier being read off the unbounded run |
| `PlannerTheorems.ExclusiveIsBarrier` | hax/hax/motr/planner.py:310-353 | in every run in the window, when a broadcast or process HA event is handed out, everything handed out before it from the ordered queue has finished |
| `PlannerTheorems.OneExclusiveActive` | hax/hax/motr/planner.py:310-353 | in every run in the window, at most one broadcast or process HA event is active at any time |
| `PlannerTheorems.QueuesAndEvents` | hax/hax/motr/planner.py:199-232 | whatever the group numbers do, both queues are first in first out, nothing is lost or run twice, the metadata describes exactly the active process events, and no two of those concern one process |
| `PlannerDecisions.TakePriority` | hax/hax/motr/planner.py:161-178 | in every run and for either numbering: after shutdown a take yields a Die; before it, the head of the out-of-order list, unless that is a process event whose process has an active one; then the head of the backlog, if it is of the current group; and else the worker sleeps and nothing changes |
| `PlannerDecisions.SleepersAreIdle` | hax/hax/motr/planner.py:303-308 | in every run and for either numbering, if any worker sleeps, the planner is not shut down and the backlog is empty or headed by another group; only the out-of-order list can have work for it |
| `PlannerDecisions.SleeperOverlooked` | hax/hax/motr/planner.py:285-308 | that exception occurs: a run in which a worker sleeps on while the head of the out-of-order list may be handed out, as a finish wakes nobody while another command is active |
| `PlannerDecisions.AddMarks` | hax/hax/motr/planner.py:355-414 | what adding a command appends, with which group number, and that nobody sleeps afterwards |
| `PlannerDecisions.LeavesIff` | hax/hax/handler.py:463-476 | a worker leaves exactly when it has finished a Die |
| `PlannerTheorems.RunKinds` | hax/hax/motr/planner.py:355-414 | in every run with unbounded numbers, the kinds the planner remembers are exactly those submitted to the group being filled |
| `PlannerTheorems.OpensGroupIff` | hax/hax/motr/planner.py:310-353 | in every run in the window, exactly when a command opens a group: a broadcast or process HA event when anything is in the group being filled, an SNS operation when a plain `SnsOperation` is, nothing else ever; otherwise it joins that group |
| `PlannerTheorems.SnsOperationsOverlap` | hax/hax/motr/planner.py:349-352 | the failing run: any two SNS operations other than plain ones, submitted one after the other, are active together |
| `PlannerOverflow.StuckForever` | hax/hax/motr/planner.py:297-303 | over every continuation of a state in which the current number recurs behind another group, the group never changes and only the commands at the head of the queue are started |
| `PlannerOverflow.Dichotomy` | hax/hax/motr/planner.py:262-264 | every run of the wrapping planner either keeps the window and follows the unbounded planner, or leaves it and is wedged from that step on |
| `PlannerOverflow.QueueOfBroadcastsWedges` | hax/hax/motr/planner.py:262-303 | for every `MAX_GROUP_ID` from 1 on, two more broadcasts than that lead to a state with nothing active and a backlog from which no continuation starts a command |
| `WorkPlanners.WorkPlanner.constructor` | hax/hax/motr/planner.py:94-101 | the new object stands for the initial planner |
| `WorkPlanners.WorkPlanner.ShouldIncreaseGroup` | hax/hax/motr/planner.py:310-353 | the chain of tests opens a group exactly when the planner of the run theorems does |
| `WorkPlanners.WorkPlanner.AssignGroup` | hax/hax/motr/planner.py:355-414 | the command carries the group of the run theorems, and the object changes only as its queue of choice demands |
| `WorkPlanners.WorkPlanner.AddCommand` | hax/hax/motr/planner.py:108-121 | the object after the call is the planner after an add step, and all waiters are woken |
| `WorkPlanners.WorkPlanner.IsAllowedAsap` | hax/hax/motr/planner.py:217-232 | the scan of the metadata allows a process event exactly when no active one concerns its process |
| `WorkPlanners.WorkPlanner.NextCmd` | hax/hax/motr/planner.py:161-178 | hands out exactly the command the run theorems choose, or none, and leaves the planner they describe |
| `WorkPlanners.WorkPlanner.Shutdown` | hax/hax/motr/planner.py:191-197 | only the shutdown flag changes, and all waiters are woken |
| `WorkPlanners.WorkPlanner.IncGroup` | hax/hax/motr/planner.py:266-283 | the object advances as the planner of the run theorems does |
| `WorkPlanners.WorkPlanner.AddActiveCmd` | hax/hax/motr/planner.py:205-210 | the command becomes active, with its metadata if it is a process event |
| `WorkPlanners.WorkPlanner.RemoveActiveCmd` | hax/hax/motr/planner.py:199-203 | the command and its metadata are no longer active |
| `WorkPlanners.WorkPlanner.CurrentGroupQueued` | hax/hax/motr/planner.py:297-303 | the scan finds a command of the current group if and only if one is queued |
| `WorkPlanners.WorkPlanner.NotifyFinished` | hax/hax/motr/planner.py:285-308 | the object after the call is the planner after a finish step, and waiters are woken exactly when the group moved on |
| `LinkedLists.LinkedList.Add` | hax/hax/motr/util.py:57-61 | the heap list stands for the sequence with the value put in front |
| `LinkedLists.LinkedList.Remove` | hax/hax/motr/util.py:63-75 | the first occurrence is spliced out of the sequence, the rest keeps its order, and the result tells whether there was one |
| `LinkedLists.LinkedList.Contains` | hax/hax/motr/util.py:77-84 | the walk finds the value if and only if it is in the sequence |
| `LinkedLists.LinkedList.NonEmpty` | hax/hax/motr/util.py:86-89 | true if and only if the sequence is not empty |
| `LinkedLists.RemoveFirstMultiset` | hax/hax/motr/util.py:63-75 | removal takes away exactly one occurrence, and nothing when there is none |
| `HeraldRuns.Soundness` | hax/hax/motr/delivery.py:153-198 | in every state of every run, early deliveries meet no registered promise, and what is confirmed to a client is a non-empty part of its promise |
| `HeraldRuns.RoundRaisesOrShrinks` | hax/hax/motr/delivery.py:71-85 | each round of a wait raises or strictly shrinks the promise |
| `HeraldRuns.ReturnMeansDelivered` | hax/hax/motr/delivery.py:93-151 | a normal return of a wait for all means every id of the promise was notified, and one of a wait for any that some id was |
| `HeraldRuns.AnyReturns` | hax/hax/motr/delivery.py:93-118 | over all runs, a wait for any returns at its next round as soon as an id of its promise has come in, since it began or earlier and not evicted; and if it does not raise it returns, some id having been notified |
| `HeraldRuns.AllReturns` | hax/hax/motr/delivery.py:120-151 | over all runs, a wait for all returns at its next round when every id left has come in |
| `HeraldRuns.AllGoesOn` | hax/hax/motr/delivery.py:120-151 | when some ids have come in and one was never notified, it stays registered and waits on |
| `HeraldRuns.EveryDeliveryAccounted` | hax/hax/motr/delivery.py:153-198 | an id was notified if and only if it is held as confirmed, early, consumed or evicted; in just one of these places if notified once; confirmed to one client only; and evicted only past its time to live |
| `HeraldRuns.NotDeliveredIsJustified` | hax/hax/motr/delivery.py:120-151 | when a wait raises, no remaining id was notified since it began, and one notified earlier had been evicted by then |
| `HeraldRuns.EvictedIff` | hax/hax/motr/delivery.py:153-175 | when a wait begins, an early delivery is removed if and only if the wait wants it or it has outlived its time to live |
| `HeraldRuns.NothingTooOld` | hax/hax/motr/delivery.py:153-175 | and none that is left is older than that |
| `Heralds.OwnerIsWaiting` | hax/hax/motr/delivery.py:177-198 | a notification goes to a waiting client whose promise contains it, and to none only if there is no such client |
| `Heralds.OwnerIsFirst` | hax/hax/motr/delivery.py:177-198 | a notification goes to the first waiting client that has it |
| `DeliveryHeralds.Promise.ExcludeIds` | hax/hax/types.py:306-308 | the promise loses exactly the given ids |
| `DeliveryHeralds.DeliveryHerald.GroomUnsorted` | hax/hax/motr/delivery.py:153-175 | the pass over early deliveries and the removal after it leave the herald the run theorems describe |
| `DeliveryHeralds.DeliveryHerald.NotifyDelivered` | hax/hax/motr/delivery.py:177-198 | the search of the clients leaves the herald the run theorems describe |
| `DeliveryHeralds.DeliveryHerald.VerifyDelivered` | hax/hax/motr/delivery.py:71-85 | the client is unregistered, its promise loses what was confirmed, and it raises exactly when nothing was |
| `DeliveryHeralds.DeliveryHerald.WaitForAll` | hax/hax/motr/delivery.py:120-151 | for every sequence of notifications during the waits, with no other client's wait in between: returns after at most one wait more than there are ids; on success every id was notified; and if no other client shares its ids, on failure no remaining id was |
| `DeliveryHeralds.DeliveryHerald.WaitForAny` | hax/hax/motr/delivery.py:93-118 | for every sequence of notifications while it blocks: on success the promise has lost ids, all of which came in; on failure it is unchanged; if no other client shares its ids it succeeds exactly when one of them came in; and its client is unregistered |
| `BroadcastQueue.PublishersIff` | hax/hax/queue/publish.py:25-47 | in every run committed epochs are contiguous, no queue key is written twice, each message is under its epoch and is that of the call that committed it, no call is given up, each call returns an epoch of its own commits that no other call returns, one that began after another had returned has the larger epoch, and a call commits once more than its answers were lost; all this if and only if the epoch key has a positive index or there is one publisher |
| `BroadcastQueue.StoredOnce` | hax/hax/queue/publish.py:34-47 | in every run with a checked index, a call that has returned has stored its message once, and once more for each lost answer |
| `BroadcastQueue.AloneCommits` | hax/hax/queue/publish.py:34-47 | from every state, a publisher left alone for a read and a put commits its message under the next epoch and returns that |
| `BroadcastQueue.PublishStep` | hax/hax/util.py:245-272 | a commit always takes the next epoch, whose queue key is not in use |
| `BroadcastQueue.DeliveredInOrder` | hax/hax/server.py:233-252 | end to end, in every interleaving of publishers with a consumer that may crash anywhere: up to immediate repetitions the processor receives a prefix of the published sequence, repetitions are at most one per crash, and everything marked as read was delivered |
| `BroadcastQueue.RestMeansCaughtUp` | hax/hax/server.py:233-252 | a consumer to which a full snapshot leaves nothing to do has received everything published |
| `BroadcastQueue.CatchesUp` | hax/hax/server.py:233-252 | from every state of every run, a consumer at rest that is given a full snapshot and not interrupted delivers the rest of what was published and then rests |
| `Inbox.SortSorts` | hax/hax/queue/offset.py:84-85 | the messages are put in numeric order and none is lost or repeated |
| `Inbox.PrepareInOrder` | hax/hax/queue/offset.py:64-86 | however a snapshot of consecutive epochs is ordered, exactly the entries past the offset come out, in publication order |
| `Inbox.PrepareExact` | hax/hax/queue/offset.py:64-86 | for every snapshot: exactly the entries past the offset, each as often as it was there, ascending |
| `QueueObjects.KVAdapter.PutInTransaction` | hax/hax/util.py:245-272 | both keys are written or neither is, depending on the index, and index zero is not checked |
| `QueueObjects.KVAdapter.MarkLastRead` | hax/hax/queue/offset.py:34-38 | only the offset changes |
| `QueueObjects.KVAdapter.GetLastReadEpoch` | hax/hax/queue/offset.py:40-48 | the offset, or -1 when there is none |
| `QueueObjects.Publish` | hax/hax/queue/publish.py:25-47 | against any rivals between read and put of each attempt, with a positive index the loop stores the message once, after all rival messages that came first, under the epoch it returns; with index zero the first attempt goes through, over whatever the rivals stored under that epoch |
| `QueueObjects.ProcessBqUpdate` | hax/hax/server.py:233-252 | every unread entry is processed once and in order, and the last one is marked |
| `ConsulCache.CacheTransparent` | hax/hax/consul/cache.py:91-151 | for every nested program of read-only cached calls and writes that hand the cache on, with reads and writes raising anywhere, what a cached execution returns and stores a direct one returns and stores, and every cached value stays one its function can return on the present store |
| `ConsulCache.CachedRunIsDirectRun` | hax/hax/consul/cache.py:68-151 | the same for a whole program from an empty cache; if no read raised, every direct evaluation at the end in which none raises gives the cached value |
| `ConsulCache.ReadersDeterministic` | hax/hax/util.py:224-231 | a reader has one outcome on a given store when no read raises |
| `CacheHits.HitsIff` | hax/hax/consul/cache.py:114-130 | a call is answered from the cache if and only if the cache is handed on and has it |
| `CacheHits.SecondCallHits` | hax/hax/consul/cache.py:114-130 | a call that has returned is not run again by the next one |
| `CacheHits.RaisedRunsAgain` | hax/hax/consul/cache.py:114-130 | one that has raised is |
| `CacheHits.UnpassedKeepsCache` | hax/hax/consul/cache.py:114-130 | a call that is not handed the cache runs with an empty one and leaves it as it is |
| `ConsulCache.StaleReadIff` | hax/hax/motr/__init__.py:572-572 | the failing run: reading again after a write gives the new value if and only if the write handed the cache on |
| `ConsulCache.TransparentIff` | hax/hax/consul/cache.py:135-151 | caching is transparent for all programs whose writes all hand the cache on, and not for all programs whose writes do not |
| `InvocationCaches.InvocationCache.Has` | hax/hax/consul/cache.py:37-41 | true if and only if the call is in the cache, seen as one map from call to value |
| `InvocationCaches.InvocationCache.Store` | hax/hax/consul/cache.py:50-54 | exactly that call is added to or replaced in the map |
| `InvocationCaches.InvocationCache.Lookup` | hax/hax/consul/cache.py:43-45 | the value the map has for the call, or a KeyError |
| `InvocationCaches.InvocationCache.Clear` | hax/hax/consul/cache.py:47-48 | the map becomes empty |
| `InvocationCaches.Invoke` | hax/hax/consul/cache.py:114-130 | a hit changes nothing and answers from the cache; a miss runs the function, and remembers its value in the cache handed on, if any |
| `InvocationCaches.Execute` | hax/hax/consul/cache.py:91-151 | running a program in place on store and cache does what the transparency theorem is about |
| `FailureHandling.OthersKept` | hax/hax/handler.py:291-292 | for every pattern of failing calls, an attempt that goes through passes the states of other objects on unchanged and in order |
| `FailureHandling.HandleReports` | hax/hax/handler.py:175-290 | a process is reported only if due, with its current health, which is offline or failed; its status is changed only if due and only to stopped; and if due and nothing raises it is reported |
| `FailureHandling.ReportsCurrentHealth` | hax/hax/handler.py:243-283 | in every attempt and for every pattern of failing calls, each process state in the list carries the current health of its process, and that is offline or failed |
| `FailureHandling.RaisesIff` | hax/hax/handler.py:175-290 | an iteration raises if and only if one of the calls it makes fails |
| `FailureHandling.StoresIff` | hax/hax/handler.py:175-290 | the store changes if and only if the status call is reached and does not fail before its effect, and then in one entry |
| `FailureHandling.SecondAttemptQuiet` | hax/hax/handler.py:152-297 | after an attempt that went through, another one on the same states reports no process, whatever calls fail, when all processes are listed under their base fids |
| `FailureHandling.SecondAttemptIff` | hax/hax/util.py:1726-1738 | when neither of two attempts raises, the second reports a process if and only if the list has one that is due under a dynamic fid and whose base is not itself due in the list |
| `FailureHandling.ReportedIffDue` | hax/hax/handler.py:152-297 | an attempt that goes through reports a listed process, under whatever fid, if and only if it is due in the store the attempt starts from and no due base of it comes first in the list |
| `FailureHandling.RetriedReportIff` | hax/hax/handler.py:152-155 | over any number of failed attempts, a due process, under whatever fid, is in the list finally returned if and only if none of them has changed the status read for it and no due base of it comes first |
| `FailureHandling.RetryLosesReport` | hax/hax/handler.py:243-255 | when publishing fails after the status of a process was written under its base fid, the retry returns nothing, whatever calls fail in it |
| `FailureHandlers.ProcessGroup.Lock` | hax/hax/util.py:345-347 | one bucket more is held |
| `FailureHandlers.ProcessGroup.Unlock` | hax/hax/util.py:349-351 | that bucket and no other is released |
| `FailureHandlers.ConsumerThread.UpdateOne` | hax/hax/handler.py:168-290 | the branches store and report as the theorems say; the only lock held on the way out is that of the process, and only on an exception |
| `FailureHandlers.ConsumerThread.UpdateProcessFailure` | hax/hax/handler.py:152-297 | for every list and every pattern of failing calls, the loop does what the theorems are about, takes a lock only when it holds none, and holds none on return and on exception |
| `BucketLocks.LeakedIff` | hax/hax/handler.py:126-131 | in every run of threads taking bucket locks, a bucket is locked with nobody in it if and only if a status update raised in it |
| `BucketLocks.ServedIff` | hax/hax/util.py:338-351 | a waiting call can still get its bucket if and only if that has not happened |
| `FidAllocation.NeverTwiceIff` | hax/hax/util.py:2284-2345 | no counter is returned twice in any run if and only if there are fewer than two allocators, or no reply to a delete is lost and nobody revokes, or no reply is lost, only locks of dead owners are revoked, and there is one revoker or there are only two allocators |
| `FidAllocation.FidsDistinct` | hax/hax/util.py:2347-2360 | under that condition any two full fids returned in any run for base keys below 2^32 differ |
| `FidAllocation.CountersExact` | hax/hax/util.py:2333-2345 | in every run in which counters are unique, a counter is its first value plus the number of writes of it |
| `FidAllocation.ReturnsCounter` | hax/hax/util.py:2333-2345 | and a call returns the counter as it is when it unlocks |
| `FidAllocation.OwnsStep` | hax/hax/util.py:2284-2313 | steps of allocators with no lost reply keep: whoever works on a counter owns its lock |
| `FidAllocation.RevokingStep` | hax/hax/util.py:2315-2331 | so do steps of a single revoker, which reads the owners and then deletes, when it revokes for the dead only |
| `FidAllocation.RevokedTwice` | hax/hax/util.py:2315-2331 | the failing run: two revokers find the lock of a dead owner, and the second one to delete takes the lock of the next owner |
| `FidAllocation.NothingMoreAllocated` | hax/hax/util.py:2333-2345 | after a lock is left behind, no continuation without a revocation allocates anything of its class |
| `FidAllocation.FailureLeavesLock` | hax/hax/util.py:2284-2345 | the failures that leave a lock behind |
| `FidKeys.LowHalf` | hax/hax/util.py:2371-2376 | masking a key bit by bit is taking its remainder modulo 2^32 |
| `FidKeys.BaseFidIff` | hax/hax/util.py:2371-2376 | only processes and services have a base fid; it is of their class, with the key masked |
| `FidKeys.BaseRecovered` | hax/hax/util.py:2347-2376 | the base of a full fid is the fid it was made from |
| `FidKeys.FullKeyInjective` | hax/hax/util.py:2352-2353 | full keys are equal if and only if base key and counter are |
| `FidKeys.FitsIff` | hax/hax/types.py:203-211 | a full key fits 64 bits if and only if the counter is below 2^32 |
| `Fids.FidRoundTrip` | hax/hax/types.py:173-193 | parsing undoes printing if and only if no component is negative, and fails otherwise |
| `Fids.PrintInjective` | hax/hax/types.py:192-193 | different fids print differently, negative components included |
| `Fids.CaseIgnored` | hax/hax/types.py:173-177 | hexadecimal digits are read in either case |
| `DriveStates.StickyStays` | hax/hax/util.py:1594-1604 | with updates one after the other, a failed, repairing, repaired or rebalancing device keeps its state over every run without a drive event on it |
| `DriveStates.StickyAsIfAlone` | hax/hax/motr/__init__.py:539-581 | with updates one after the other, leaving all process events out of a run leads to the same devices being in the same sticky states, unless a process is itself under repair or rebalance |
| `DriveStates.DriveEventStores` | hax/hax/util.py:1594-1604 | a drive event with a health other than unknown or stopped leaves every entry of its device in the state of that health, whatever it was before, and the others unchanged |
| `DriveStates.ProcessEventStores` | hax/hax/motr/__init__.py:550-572 | exactly which entries a process event changes, and to which state: offline if the process failed |
| `DriveStates.ProcessEventSticksIff` | hax/hax/motr/__init__.py:550-573 | exactly when a process event puts a device into a sticky state |
| `DriveStates.NoteAfterProcessEvent` | hax/hax/motr/__init__.py:574-581 | the note of a drive read right after a process event tells its sticky state if it had one, and else the state just stored |
| `DriveStates.NoteTellsState` | hax/hax/util.py:1606-1639 | the note of a sticky, online or offline state, read back as a health, stands for that state |
| `DriveStates.HealthTellsNote` | hax/hax/util.py:1307-1318 | the state stored for a note is announced by that note, except that recovering counts as online |
| `DriveStores.Settled` | hax/hax/util.py:1552-1580 | all reads before all writes, with a device possibly written more than once, amount to one update of each entry |
| `DriveStores.DriveStore.SdevStateUpdate` | hax/hax/util.py:1582-1604 | the writes prepared are those of the entries of the device that take the state |
| `DriveStores.DriveStore.UpdateDriveState` | hax/hax/util.py:1552-1580 | each entry of the given drives takes the state unless protected, the others stay; a stopped health raises before anything is written |
| `DriveStores.DriveStore.SdevState` | hax/hax/util.py:1606-1639 | the note of the first entry of the device, online if there is none |
| `DriveStores.DriveStore.GenerateSubDisks` | hax/hax/motr/__init__.py:539-581 | the store changes as a process event does, and each note matches the store after the change |
| `DriveRaces.FailureOverwritten` | hax/hax/util.py:1569-1580 | the failing run: a failed state stored between the read and the write of a process event is overwritten |
| `DriveRaces.KeptIff` | hax/hax/util.py:1552-1604 | over every interleaving of reads and writes without a drive event on it, a device in a sticky state keeps it throughout if and only if no process event puts another state that it read before the sticky one was there |
| `DriveRaces.SurvivesIff` | hax/hax/util.py:1552-1604 | a sticky state survives whatever may follow but drive events if and only if no process event under way has collected another state for its device |
| `DriveRaces.NoteUnlessPut` | hax/hax/motr/__init__.py:574-581 | in every interleaving, a note tells the state a process event left if nobody puts the device before the note is read |
| `DriveRaces.AtomicWhenAlone` | hax/hax/util.py:1552-1580 | the reads and writes of a call that nobody interrupts do to the entries what one update of each entry does |
| `DriveRaces.DriveCallStores` | hax/hax/util.py:1552-1580 | a call for a drive event that nobody interrupts leaves each device of its drive in the new state, sticky or not before |
| `DriveRaces.DrivePutStores` | hax/hax/util.py:1579-1580 | in any interleaving, a put of a drive event stores its state in that entry, whatever was there, and in no other |
| `DriveRaces.ReadCollects` | hax/hax/util.py:1594-1604 | in any interleaving, reading a drive collects a write of an entry of it if and only if it is for a drive event or the entry is not sticky |
| `DriveRaces.SerialIsAtomic` | hax/hax/util.py:1552-1580 | calls one after the other do what the atomic events do |
| `WorkerPool.NeverStuck` | utils/utils.py:252-271 | in every reachable state before the return some thread can move |
| `WorkerPool.RunsAreBounded` | utils/utils.py:233-271 | no run is longer than three steps a message and one a worker |
| `WorkerPool.ReturnedMeansAttempted` | utils/utils.py:240-271 | on return, whatever the schedule, every worker has left, and the processes attempted are those a pool gets to that goes through the list in order and loses a worker with each call that raises |
| `WorkerPool.AttemptedAllIff` | utils/utils.py:240-250 | all are attempted if and only if fewer calls before the last raise than there are workers |
| `WorkerPool.AllStopped` | utils/utils.py:252-271 | when no call raises and a thread was asked for, every process is stopped once, every worker has taken exactly one quit message, and the queue is empty |
| `WorkerPool.PoolSize` | utils/utils.py:252-260 | as many workers as threads asked for, but no more than processes, and none for a number that is not positive |
| `WorkerPool.QueueBounded` | utils/utils.py:257-266 | the queue never holds more messages than there are processes |
| `AllowedFailures.EnclIsExact` | provisioning/miniprov/hare_mp/cdf.py:207-240 | for every spread with no more units on a node than necessary, losing any n nodes loses at most the parity, if and only if n is at most the number computed or there is only parity |
| `AllowedFailures.CtrlIff` | provisioning/miniprov/hare_mp/cdf.py:231-233 | for every spread with no more units on a node or a controller than necessary, the number of controllers computed may be lost if and only if losing that many, evenly over the nodes, loses no more than the parity, or there is only parity |
| `AllowedFailures.SurvivesControllersIff` | provisioning/miniprov/hare_mp/cdf.py:207-240 | losing any n controllers is survived by every such spread if and only if the even loss is: no choice of controllers is worse, and some spread reaches it |
| `AllowedFailures.CtrlWhenEven` | provisioning/miniprov/hare_mp/cdf.py:231-233 | that is so when the units of a node divide evenly among its controllers |
| `AllowedFailures.CtrlTooMany` | provisioning/miniprov/hare_mp/cdf.py:231-233 | 6 + 3 units on three nodes of two controllers: two controllers may fail by the formula, and can hold four units |
| `AllowedFailures.CtrlRightThough` | provisioning/miniprov/hare_mp/cdf.py:231-233 | 2 + 7 units on the same nodes: the four controllers of the formula may indeed fail |
| `AllowedFailures.DiskIsExact` | provisioning/miniprov/hare_mp/cdf.py:234-239 | with one unit to a disk, n disks may be lost if and only if n is at most the parity or there is only parity |
| `AllowedFailures.CalculateIff` | provisioning/miniprov/hare_mp/cdf.py:216-227 | there is a result if and only if there is a data node and a unit to place |
| `AllowedFailures.Ordered` | provisioning/miniprov/hare_mp/cdf.py:207-240 | nodes, controllers and disks tolerated grow in this order, and that of controllers is the controllers of the nodes tolerated unless the parity is less |

## Left out

- The C layer and the foreign calls into Motr (hax.c, ffi.py): which message ids a broadcast returns is arbitrary here.
- The HTTP server apart from the queue callback, Kafka, the simulator, provisioning apart from the failure formula, logging and configuration text.
- JSON, regular expressions and base64: entries of the KV store are typed maps and sequences, and device states are one of the eight strings the code writes or reads, without regard to case.
- Consul itself: a linearizable store with modify indices, whose calls may fail before or after their effect where that matters.
- Real time: the clock of the herald never goes back and is read once per grooming; condition variables wake nondeterministically, and the timeout of a wait is one of the ways to wake.
- Python's choice of the thread a notification wakes: waking is waking all sleepers, as `notify_all` does.
- A message object submitted twice to the planner: objects have distinct identities, and add steps with a used identity are not runs.
- `check_if_delivered_locked`: a variant of `_verify_delivered` that never raises.
- Promises that share ids: the run theorems of the herald take promises with disjoint ids, as message ids returned by Motr are.
- wait_for_all on an empty promise leaves its entry among the waiting clients; the model does so too, and the theorems hold with it.
- Concurrent runs of the queue callback: `process_bq_update` runs in a thread pool without a lock, and the theorems are about one callback at a time.
- A missing epoch key, which makes `publish` fail with a type error.
- Cached functions that write, and arguments that print alike although they differ.
- The value of the fid lock: the code puts a fid into `json.dumps`, which cannot serialise it; the owner is modelled as a number.
- FidAllocation.Step: the waiting loops around a put and a delete are steps that may be taken any number of times, and there is no class for this protocol, which lives in the KV store.
- The map from base fid to full fid that `alloc_next_obj_fid` also writes, and the disabled call of the allocation (hax/hax/motr/__init__.py:200-202).
- WorkerPool.Step: the threads and the queue are modelled on values, as their interleaving is the point.
- ha_nvec_set_process, the node branch of `broadcast_ha_states`, and byte counts: they would only add easy members.
- Writers of process statuses other than the handler, between two of its attempts.
- Rounding of the two divisions in `_calculate_allowed_failure`, which the code does in floating point.
- InvocationCaches.Execute: requires the given events, which say which writes fail and where the cache answers, to be an execution.
- FailureHandlers.ProcessGroup.Lock: requires the bucket not to be held, as one thread at a time is modelled there; waiting for another thread to release it is in `BucketLocks`.
- DeliveryHeralds.DeliveryHerald.WaitForAny: like WaitForAll, has no other client beginning or ending a wait during the call.
- DeliveryHeralds.DeliveryHerald.WaitForAll: other clients do not begin or end waits during the call; they do in the runs of `HeraldRuns`.
- DriveStates.NoteAfterProcessEvent: takes an event as one step; what other writers can do before a note is read is in `DriveRaces.NoteUnlessPut`.
- Allocators that restart under the same fid after a crash.
