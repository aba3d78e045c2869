# AURA-AIOSCPU kernel model

A Dafny model of the in-process kernel of AURA-AIOSCPU: the queues that decide what runs
next, the loop that drives them, the service registry, the overlay file store, the
authority chain from permission tiers to host escalation, and the supervision and
integrity layer.  `dafny verify dfyconfig.toml` checks everything.

How the parts are written:

- Objects whose methods change fields are classes (`EventBus.EventBus`,
  `Scheduler.Scheduler`, `JobQueue.JobQueue`, `KernelLoop.KernelLoop`,
  `ServiceRegistry.ServiceRegistry`, `Storage.StorageService`,
  `Permissions.PermissionModel`, `Override.CommandOverrideLayer`,
  `Privilege.AURAPrivilege`, `HealthMonitor.HealthMonitor`, `Watchdog.KernelWatchdog`).
  Each method is proved against a step function or a table, and what holds over whole
  runs is proved about those as lemmas.
- `Work` is what running code asks of the scheduler; `KernelLoop` carries it, and the
  events that tasks and jobs publish, from one object to the other.
- `BinaryHeap` is one heap with push, pop-min and heapify, used by all three queues with
  the orders the entries define; `Table` says that a list holds a keyed table.
- The job queue is the state machine of `JobLifecycle`, with theorems over all its runs
  in `JobTheorems`; `JobQueue` is the heap, dictionary and history that refine it.  A
  drain is two steps, so submits, cancels and other drains may fall in between.
- `GrantRuns` is grants, revocations and mode switches over any set of capabilities;
  `Permissions` supplies the tiers.
- `Manifest` walks the tree, `ManifestCheck` builds and verifies.

Callbacks, jobs and services appear as what they do to the kernel: what they publish,
schedule or submit, and whether they raise.  Clock readings are parameters and never go
back.

Properties that are false of the code, with the exact condition under which they hold:

- A written file can be read back, unless the write was a plain one to a writable
  partition and an overlay copy with other content hides it (`Storage.ReadAfterWrite`,
  `Storage.ShadowedWriteIsLost`).
- Every dependency is placed before its dependents exactly when the graph has no cycle
  (`LoadOrder.DependenciesFirstIffAcyclic`, `LoadOrder.MutualDependency`).
- A failure run that reaches the threshold queues a repair exactly when no repair was made
  since the last healthy check (`HealthMonitor.OpensUnlessRepaired`,
  `HealthMonitor.EveryLongRunRepairedIff`; `HealthMonitor.LateRepairSilencesARun` is a run
  where one is missing).
- A tree verifies against its own fresh manifest exactly when every tracked file is
  readable (`ManifestCheck.OwnManifest`, `ManifestCheck.UnreadableIsNew`).
- A scheduler tick runs exactly the due jobs as long as no two entries tie on time and
  interval, for then Python would compare the callables and raise.  A tick goes through no
  tie exactly when the due entries have different intervals, none of them lands on a waiting
  entry, and what the jobs add ties with nothing (`Scheduler.LoopTies`,
  `Scheduler.FieldsDecide`, `Scheduler.TwoJobsTie`).

Where the code and its own documentation disagree the model follows the code:

- Priority in the job queue only breaks ties in time (services/job_queue.py:61-66), and
  `max_retries` bounds all attempts (services/job_queue.py:234).
- A queued job has no status: `status` looks among running and past jobs
  (services/job_queue.py:168-175).
- The watchdog's back-off is constant (kernel/watchdog.py:53-59).
- An escalation with an empty reason is accepted, because the reason is prefixed before
  the override layer tests it (kernel/privilege.py:256-261).
- Only three of the seven escalation-eligible capabilities can pass the override layer's
  allowlist (kernel/override.py:110-120, kernel/privilege.py:78-86;
  `Privilege.EscalatableCapabilities`).

## Model

| member | source | states |
|---|---|---|
| BinaryHeap.Push | services/job_queue.py:149-150 | pushing keeps heap order and adds exactly the one element to the bag |
| BinaryHeap.PopMin | services/job_queue.py:210-213 | the popped element is the head, no element is less, exactly it leaves the bag, heap order is kept |
| BinaryHeap.Heapify | services/job_queue.py:193-194 | any list becomes a heap over the same bag |
| JobLifecycle.StepKeepsInv | services/job_queue.py:127-256 | every submit, cancel, start and end keeps each job in one place with the matching state and attempt count |
| JobLifecycle.RunKeepsInv | services/job_queue.py:127-256 | the same over any interleaving of steps |
| JobTheorems.JobConservation | services/job_queue.py:141-155 | after any run each submitted job is in exactly one of pending, active, history and trimmed-away, with matching state, and nothing else is anywhere |
| JobTheorems.JobStates | services/job_queue.py:141-155 | pending jobs are queued before their first attempt and retrying after it, active ones running, ended ones done, failed or cancelled short of the limit |
| JobTheorems.HistoryOrTrimmed | services/job_queue.py:257-259 | an ended job is in history or trimmed away, never both |
| JobTheorems.KeptIsNewest | services/job_queue.py:257-259 | history is the newest ended jobs, at most the maximum, all of them when the maximum is zero, and nothing is dropped before there are more |
| JobQueue.JobQueue.FieldsHold | services/job_queue.py:97-100 | at any time the list is a heap of exactly the pending jobs and history is a tail of the ended ones within the maximum |
| JobTheorems.EndedIsAppendOnly | services/job_queue.py:253-259 | ended jobs are only ever appended, so history is the most recent ones in the order they ended |
| JobTheorems.EndedNeverRuns | services/job_queue.py:205-255 | over any run a job that came to an end is never started again |
| JobTheorems.CancelledNeverRuns | services/job_queue.py:188-199 | after a successful cancel the job is never started, whatever happens |
| JobQueue.TrimIsKept | services/job_queue.py:257-259 | trimming after every append keeps the same window as trimming the full list once |
| JobTheorems.AttemptsCountStarts | services/job_queue.py:215-217 | a job's attempt counter is the number of times it was started |
| JobTheorems.AttemptsAreBounded | services/job_queue.py:229-251 | starts never exceed the limit max(1, max_retries) the job carries, and one that failed had exactly that many |
| JobTheorems.SubmitFixesLimit | services/job_queue.py:127-148 | wherever a job is it has the priority and limit it was submitted with, and its starts are bounded by that limit, exactly when failed |
| JobTheorems.FailedAttempt | services/job_queue.py:229-251 | the n-th attempt failing below the submitted limit leaves the job waiting exactly 2^n seconds, at the limit it ends as failed |
| JobTheorems.JobExecutionsBounded | services/job_queue.py:215-235 | a waiting job is started at most as often as its limit less its attempts so far, whatever is submitted meanwhile |
| JobTheorems.StepUsesAttempt | services/job_queue.py:205-256 | each execution uses up one of the attempts left; only a submit adds any |
| JobTheorems.ExecutionsAreBounded | services/job_queue.py:205-256 | with no new submits the executions to come are bounded by the attempts left in the queue |
| JobTheorems.AttemptsBackOff | services/job_queue.py:141-148 | attempt n of a job starts no earlier than submit time plus delay plus 2^n - 2 seconds |
| JobTheorems.NobodyGetsAhead | services/job_queue.py:61-66 | while a job is due, no submit, retry or cancel of another job is ordered ahead of it, and every live drain removes one job from ahead |
| JobTheorems.NoOvertaking | services/job_queue.py:205-245 | a due job starts within the number of jobs ahead plus one drains of a running queue, whatever the interleaving, unless it is cancelled |
| JobQueue.JobQueue.SubmitJob | services/job_queue.py:127-155 | the heap, table and history after a submit stand for the state machine's submit step |
| JobQueue.JobQueue.CancelJob | services/job_queue.py:188-199 | deletion in the middle and re-heapify remove exactly that job if it is pending, report whether it was, and leave it among the ended ones |
| JobQueue.JobQueue.BeginDrain | services/job_queue.py:205-217 | a drain starts the job that is earliest, then of lowest priority number, then first submitted, if it is due and the queue runs, else nothing changes |
| JobQueue.JobQueue.FinishDrain | services/job_queue.py:220-256 | success and failure at the limit append the job to the ended ones; a failure below it makes the same job wait 2^attempts seconds and changes nothing else in it |
| JobQueue.JobQueue.DrainOne | services/job_queue.py:205-256 | a drain runs a job if and only if the queue is running and some pending job is due; the job's own calls on the queue fall between its start and its end |
| JobQueue.JobQueue.Status | services/job_queue.py:168-175 | finds exactly the running and remembered jobs; a queued job is unknown |
| JobQueue.JobQueue.TrimHistory | services/job_queue.py:257-259 | the slice leaves the last max_history entries, or all when the maximum is zero |
| EventBus.EventBus.Subscribe | kernel/event_bus.py:73-75 | the callback is appended for its event type and no other type changes |
| EventBus.EventBus.Publish | kernel/event_bus.py:77-79 | exactly the event is added to the pending bag |
| EventBus.EventBus.DeliverNext | kernel/event_bus.py:90-99 | delivers the pending event of lowest priority number, of those the oldest, to each of its subscribers in order, whether or not they raise; what they publish becomes pending |
| EventBus.EventBus.Drain | kernel/event_bus.py:81-100 | when publishing is well-founded the drain ends with nothing pending, its deliveries are a legal drain, each calls exactly its event's subscribers, and the count is their number |
| EventBus.LegalDrainExtends | kernel/event_bus.py:90-99 | one more least delivery extends a legal drain |
| EventBus.DrainConserves | kernel/event_bus.py:90-100 | what was pending or published meanwhile is delivered or still pending, exactly as often |
| EventBus.DeliveredWasPending | kernel/event_bus.py:90-99 | a delivered event was pending at the start or published by an earlier delivery |
| EventBus.InversionMeansPublishedLater | kernel/event_bus.py:55-59 | an event delivered after a greater one was published after that one was popped |
| EventBus.QuietDrainSorts | kernel/event_bus.py:81-100 | if nobody publishes, the pending events are delivered by priority number and then age |
| EventBus.DeliveryLightens | kernel/event_bus.py:90-99 | with well-founded publishing each delivery lowers the total weight of what is pending; weights may fall as deliveries go on |
| EventBus.LimitedPublishing | kernel/event_bus.py:90-99 | publishing that stops after some number of deliveries is well-founded |
| EventBus.AllAskedNext | kernel/event_bus.py:90-99 | what subscribers ask of the scheduler over a drain is what each delivery's subscribers ask, in order |
| Scheduler.Scheduler.SubmitTask | kernel/scheduler.py:57-64 | exactly one task, with the next sequence number, joins the queue |
| Scheduler.Scheduler.ScheduleJob | kernel/scheduler.py:82-93 | an interval below one millisecond is refused without effect; otherwise one entry is added whose time is interval thousandths of a second from now |
| Scheduler.Scheduler.RunTask | kernel/scheduler.py:101-109 | the task of lowest priority number, of those the first submitted, leaves the queue and runs once; all it submits and schedules is there afterwards |
| Scheduler.Scheduler.RunDue | kernel/scheduler.py:111-124 | the loop ends; the due entries ran once each in heap order and are due again interval thousandths of a second after now; the tables it went through are those LoopTies speaks of |
| Scheduler.Scheduler.Tick | kernel/scheduler.py:99-124 | one task and exactly the due jobs run; no task and no entry is lost; the result counts those that did not raise |
| Scheduler.DueRanMeans | kernel/scheduler.py:111-123 | in plain terms: exactly the entries due at now ran, by time and interval, all are due later than now afterwards, the others stayed as they were, and just what the jobs scheduled is new |
| Scheduler.ScheduledFromCalls | kernel/scheduler.py:82-93 | each accepted call made by running work gives one entry, due interval thousandths of a second after the call |
| Scheduler.QueuedMeans | kernel/scheduler.py:57-64 | tasks submitted by running work join the queue with their priorities and consecutive numbers |
| Scheduler.JobsPublishCounts | kernel/event_bus.py:77-79 | an event is published as often as the jobs that ran published it, all together |
| Scheduler.RunLeast | kernel/scheduler.py:113-123 | running the least due entry and putting it back beyond now keeps the loop's account of who ran and who is left |
| Scheduler.ScheduledIsNew | kernel/scheduler.py:91-93 | entries scheduled by running work are new and not due in this tick |
| Scheduler.LoopDone | kernel/scheduler.py:113-123 | when nothing is due any more, exactly the entries due at the start have run |
| Scheduler.ExecutionsAreSpaced | kernel/scheduler.py:111-123 | over any run of ticks two executions of an entry are at least its interval in thousandths of a second apart, and a late tick brings no burst |
| Scheduler.ExecutionRate | kernel/scheduler.py:91-93 | executions times interval never exceed the thousandths of a second since scheduling |
| Scheduler.FieldsDecide | kernel/scheduler.py:93 | in a heap of entries without ties time and interval decide every comparison, so the callables are never compared |
| Scheduler.LoopTies | kernel/scheduler.py:111-123 | from a table without ties, no table the loop goes through has one if and only if the due entries have different intervals, none lands on a waiting entry, and what jobs add ties with nothing |
| Scheduler.DifferentIntervals | kernel/scheduler.py:111-123 | pairwise different intervals, in the table and in what jobs add, keep every table of the loop free of ties |
| Scheduler.TwoJobsTie | kernel/scheduler.py:121-123 | two jobs of one interval that fall due together tie after the tick |
| KernelLoop.CapCommutes | kernel/loop.py:66-71 | capping before or after a further multiplication gives the same interval |
| KernelLoop.IntervalNext | kernel/loop.py:66-71 | the closed form obeys the step of an idle tick |
| KernelLoop.IntervalBounds | kernel/loop.py:41-47 | the interval stays between base and maximum and never shrinks while idle |
| KernelLoop.NotAdaptiveIsConstant | kernel/loop.py:87-90 | a loop that does not adapt keeps the base interval |
| KernelLoop.IdleReachesMax | kernel/loop.py:41-47 | an idle loop reaches the maximum and keeps it |
| KernelLoop.AdaptiveTick.MarkBusy | kernel/loop.py:62-64 | back to base with no idle ticks counted |
| KernelLoop.AdaptiveTick.MarkIdle | kernel/loop.py:66-71 | one more idle tick; past three the interval is multiplied and capped |
| KernelLoop.KernelLoop.Advance | kernel/loop.py:127 | what subscribers asked for is there before the scheduler advances; the least task and exactly the due jobs run |
| KernelLoop.KernelLoop.Tick | kernel/loop.py:124-135 | the drain is legal, the least of the tasks queued or submitted meanwhile and exactly the due jobs run, and the bus then holds each event as often as the task and the jobs published it; after any run of ticks the interval depends on the idle ticks since the last busy one only, a tick being busy exactly when an event was pending or work ran without raising |
| LoadOrder.Visit | services/registry.py:247-255 | the search places whatever a name depends on before it, except what is on the recursion stack, and ends on any graph |
| LoadOrder.ComputeLoadOrder | services/registry.py:242-259 | no duplicates, exactly the registered names and those they depend on, and a dependency not placed before its dependent depends on it in turn |
| LoadOrder.PlaceKeepsSearch | services/registry.py:250-255 | placing a name keeps the invariant of the search |
| LoadOrder.PathsGoBack | services/registry.py:242-259 | in an order that puts dependencies first, dependency paths never lead forward |
| LoadOrder.DependenciesFirstIffAcyclic | services/registry.py:242-259 | every dependency precedes its dependents if and only if the graph has no cycle |
| LoadOrder.MutualDependency | services/registry.py:242-259 | of two services that depend on each other no order puts both dependencies first |
| ServiceRegistry.ServiceRegistry.Add | services/registry.py:98-108 | a descriptor replaces one of the same name and keeps its position |
| ServiceRegistry.ServiceRegistry.ComputeOrder | services/registry.py:242-259 | the stored load order lists exactly the registered names and those they depend on, each once, in an order for the current dependency graph |
| ServiceRegistry.ServiceRegistry.StartService | services/registry.py:191-214 | state, instance and failure count after a start that succeeds, fails, or has no module; nothing else changes |
| ServiceRegistry.ServiceRegistry.Stop | services/registry.py:134-147 | stops only a service with an instance, and leaves it alone when the instance raises |
| ServiceRegistry.ServiceRegistry.StartAllAutostart | services/registry.py:117-125 | exactly the registered autostart services are tried, the started ones are running, the others failed once more, and no other service changes |
| ServiceRegistry.PassTriesEach | services/registry.py:117-125 | a pass tries each eligible service once, failures or not, and touches no other |
| ServiceRegistry.StartedInOrder | services/registry.py:117-125 | services are reported started in load order |
| ServiceRegistry.DependenciesStartFirst | services/registry.py:117-125 | of two started services the dependency was started earlier, unless it depends on the other in turn |
| ServiceRegistry.InstanceFollowsCalls | services/registry.py:134-147 | over any run of calls there is an instance exactly while a successful start stands, RUNNING implies one, and failures are counted one by one |
| Storage.ReadAfterWrite | services/storage_service.py:150-170 | a write can be read back if and only if no differing overlay copy hides it |
| Storage.ReadOnlyPartitions | services/storage_service.py:43-56 | a path is read-only exactly in boot, system, etc and bin |
| Storage.ShadowedWriteIsLost | services/storage_service.py:162-170 | a concrete run in which a write cannot be read back |
| Storage.OtherPathsUnchanged | services/storage_service.py:128-170 | a write outside the overlay changes no other path |
| Storage.EveryDiskStandsForAMap | services/storage_service.py:150-160 | what can be read from any disk is a map from paths to bytes |
| Storage.WriteRefines | services/storage_service.py:162-170 | a write on the two layers is an update of the plain map |
| Storage.BootRefines | services/storage_service.py:240-251 | emptying tmp and writing the layout is the same on the two layers and on the map |
| Storage.PlainBoot | services/storage_service.py:240-271 | on the map a boot removes what is below tmp, sets layout.json and changes nothing else |
| Storage.RunNext | services/storage_service.py:150-170 | a run on the disk is its operations one after the other, and each read returns what the disk holds then |
| Storage.OverlayRefinesPlainStore | services/storage_service.py:128-170 | over any run of proper operations all reads agree with a plain map, and the disk stands for that map at the end |
| Storage.ReadOnlyBaseNeverChanges | services/storage_service.py:43-56 | no run of writes, forced or not, changes a base file in boot, system, etc or bin |
| Storage.StorageService.Start | services/storage_service.py:98-114 | the first start removes exactly what is below tmp, writes layout.json and leaves every other file; a second does nothing |
| Storage.StorageService.WriteFile | services/storage_service.py:162-170 | the write goes to the overlay copy if forced or in boot, system, etc or bin, else to the path, and nothing else changes |
| Storage.StorageService.ReadFile | services/storage_service.py:150-160 | overlay copy first, then base copy, else not found |
| GrantRuns.RunIsTrace | kernel/permissions.py:167-200 | mode, granted and revoked after any run, read off the run; granted and revoked stay disjoint |
| GrantRuns.RevokeStandsNext | kernel/permissions.py:191-195 | a revocation stands until a valid grant of that capability or a reset |
| GrantRuns.GrantStandsNext | kernel/permissions.py:180-189 | a grant stands until a revocation, a reset or a switch to a lower mode |
| Permissions.ModeSetByTier | kernel/permissions.py:86-106 | a mode's set is the capabilities of its tier and the tiers below |
| Permissions.ModeSets | kernel/permissions.py:86-96 | the three modes allow the first, second and third tier, in that order |
| Permissions.AllowedByTrace | kernel/permissions.py:206-251 | a capability is allowed after a run if and only if no revocation of it stands and it is in the mode's tier or a grant of it stands |
| Permissions.PermissionModel.SwitchMode | kernel/permissions.py:167-174 | a name that is no mode changes nothing; a lower mode drops all grants; revocations stay |
| Permissions.PermissionModel.GrantCap | kernel/permissions.py:180-189 | an unknown capability changes nothing; a known one is granted and no longer revoked |
| Permissions.PermissionModel.RevokeCap | kernel/permissions.py:191-195 | the capability is revoked and no longer granted |
| Permissions.PermissionModel.ResetGrants | kernel/permissions.py:197-200 | no grant and no revocation is left |
| Permissions.PermissionModel.Check | kernel/permissions.py:206-234 | succeeds exactly on the allowed set; a tier denial names the least mode whose tier holds the capability |
| Permissions.RequiredMode | kernel/permissions.py:225-232 | the first listed mode with a high enough tier is the least such mode |
| Override.ProtectedMeans | kernel/override.py:151-159 | a target is protected exactly when, leading slashes aside, it is boot or system or lies below one |
| Override.ObjectionMeans | kernel/override.py:126-165 | which denial is named: the first of action, bridge, path and reason, then the operator's, then a failed execution |
| Override.OverridesAreInternal | kernel/override.py:110-120 | only capabilities that internal mode adds can be overridden |
| Override.AuditTrail | kernel/override.py:302-365 | in any log each execution follows the logged approval of the same request, and only approvable requests are approved |
| Override.EntriesPerRequest | kernel/override.py:302-365 | each request has one entry, or two when its function was executed |
| Override.OverrideLog.Record | kernel/override.py:184-201 | a snapshot is appended and earlier entries stay |
| Override.OverrideLog.GetEntries | kernel/override.py:203-204 | the most recent entries, all of them for a limit of zero |
| Override.CommandOverrideLayer.RequestOverride | kernel/override.py:270-365 | one entry is logged for the decision and one more when the function ran, with its outcome; the function runs only on approval; the caller's result is the last entry although it is changed after logging |
| Privilege.PrefixedReasonNotBlank | kernel/privilege.py:256-261 | the reason that reaches the override layer is never blank |
| Privilege.VirtualRootIsSeparate | kernel/privilege.py:50-97 | nothing virtual root may do is escalation-eligible or forbidden |
| Privilege.EscalatesThroughOverride | kernel/privilege.py:256-264 | the override layer's approval is the agreement of operator and both bridges on an escalatable capability |
| Privilege.ObstacleMeans | kernel/privilege.py:217-284 | there is no obstacle exactly when the escalation is approved |
| Privilege.ObstacleNames | kernel/privilege.py:217-282 | which obstacle is named: the first of the forbidden set, the eligible set, the bridge, a missing override layer, and that layer's denial |
| Privilege.AURAPrivilege.ExecuteAsVirtualRoot | kernel/privilege.py:165-190 | audited before and after; a capability outside the set leaves no trace |
| Privilege.AURAPrivilege.RequestHostEscalation | kernel/privilege.py:196-284 | approved exactly when every party agrees; then the capability is allowed and an approved entry is logged; otherwise permissions are as before; one audit record names the obstacle; the recorded escalations are the approved requests of the run |
| ServiceLifecycle.WorkerKeepsInv | services/__init__.py:129-153 | each step of a worker keeps the invariant |
| ServiceLifecycle.ControllerKeepsInv | services/__init__.py:116-176 | each step of a start or stop call keeps the invariant |
| ServiceLifecycle.RunKeepsInv | services/__init__.py:116-176 | the invariant holds after every interleaving of controller and worker steps |
| ServiceLifecycle.OneWriter | services/__init__.py:116-176 | under every interleaving at most one worker will still write the state, and none while it reads STOPPED or REGISTERED |
| ServiceLifecycle.EventsPerStart | services/__init__.py:129-176 | each accepted start has at most one SERVICE_STARTED, exactly one once its worker is finished, with one or two SERVICE_STOPPED |
| ServiceLifecycle.StopCompletes | services/__init__.py:159-176 | a waiting stop is never stuck and leaves STOPPED with the worker finished |
| ServiceLifecycle.StopCallReportsTwice | services/__init__.py:171-175 | every accepted stop ends with two SERVICE_STOPPED for its start |
| ServiceLifecycle.CallDecisions | services/__init__.py:121-124 | a start is accepted exactly for a registered or stopped service, a stop exactly for a running one, and a refused call changes nothing |
| ServiceLifecycle.StartRuns | services/__init__.py:116-157 | from any reachable state a registered or stopped service can be started, again too, and its new worker gets to the entrypoint after SERVICE_STARTED |
| ServiceLifecycle.WorkerEnds | services/__init__.py:148-153 | a worker that comes to its end leaves STOPPED and publishes SERVICE_STOPPED |
| ServiceLifecycle.StopReturns | services/__init__.py:168-175 | once the worker is finished a waiting stop returns with STOPPED and reports it |
| HealthMonitor.CircuitBounds | services/health_monitor.py:54-69 | the counter is the current failure run; closed implies below the threshold, open implies at or above it |
| HealthMonitor.TotalsCountChecks | services/health_monitor.py:54-69 | the totals count the checks of the run |
| HealthMonitor.OpensAtThreshold | services/health_monitor.py:65-69 | a circuit opens exactly when a failure run reaches the threshold and it was closed |
| HealthMonitor.RepairsBounded | services/health_monitor.py:186-189 | repairs queued never exceed the long failure runs |
| HealthMonitor.OneRepairPerLongRun | services/health_monitor.py:186-189 | one repair per long failure run when no repair lands on a closed circuit |
| HealthMonitor.OpensUnlessRepaired | services/health_monitor.py:65-69 | a failure run that reaches the threshold queues a repair if and only if none was made since the last healthy check |
| HealthMonitor.EveryLongRunRepairedIff | services/health_monitor.py:186-189 | every long failure run gets its repair if and only if none reaches the threshold after such a repair |
| HealthMonitor.LateRepairSilencesARun | services/health_monitor.py:227-239 | a concrete run: the repair of one failure run lands after recovery and the next failure run queues none |
| HealthMonitor.OpeningsAreSeparated | services/health_monitor.py:54-69 | between two openings there is a healthy check |
| HealthMonitor.StaysOpen | services/health_monitor.py:54-69 | a circuit that is not closed stays so until a healthy check |
| HealthMonitor.PassRecordsEach | services/health_monitor.py:175-193 | a pass records each service once and leaves the others alone |
| HealthMonitor.ReportPartitions | services/health_monitor.py:166-205 | the three lists of a report partition the names checked |
| HealthMonitor.ReportClassifies | services/health_monitor.py:182-193 | healthy are those running, failed those whose circuit this check opened |
| HealthMonitor.ServiceHealth.RecordHealthy | services/health_monitor.py:54-57 | no failures counted, circuit closed, one more check |
| HealthMonitor.ServiceHealth.RecordFailure | services/health_monitor.py:59-69 | one more failure and check; the circuit opens exactly if it was closed and the failures have reached the threshold |
| HealthMonitor.HealthMonitor.CheckOne | services/health_monitor.py:175-193 | one turn of the check loop on separate records, with a repair queued just when the circuit opens |
| HealthMonitor.HealthMonitor.CheckAll | services/health_monitor.py:161-208 | a pass is the specified pass, and the repairs queued are exactly the failed list |
| HealthMonitor.HealthMonitor.RepairService | services/health_monitor.py:227-243 | half-opens the circuit only when stop and start both succeed and leaves the counters alone |
| Watchdog.SupervisionBounds | kernel/watchdog.py:43-59 | failures never exceed max(1, max_failures), disabled means exactly that many, and failures are at least the back-off apart |
| Watchdog.DisabledIsPermanent | kernel/watchdog.py:43-59 | once disabled no attempt changes anything |
| Watchdog.RestartsWhenAllowed | kernel/watchdog.py:170-190 | until then a stopped service is restarted whenever the back-off has passed |
| Watchdog.AttemptsTouchEach | kernel/watchdog.py:161-163 | a round of attempts touches each degraded service once and no other |
| Watchdog.ServiceHealth.RecordFailure | kernel/watchdog.py:43-51 | the record after a failed restart |
| Watchdog.ServiceHealth.IsRestartable | kernel/watchdog.py:53-59 | not disabled, and never failed or failed at least the back-off ago |
| Watchdog.ServiceHealth.AttemptRestart | kernel/watchdog.py:170-190 | a restart is tried only when not disabled, past the back-off and stopped or registered; it counts as a restart or, when it raises, as a failure |
| Watchdog.KernelWatchdog.OnServiceRegistered | kernel/watchdog.py:192-195 | a new service gets a new record, a known one keeps its own |
| Watchdog.KernelWatchdog.FindDegraded | kernel/watchdog.py:144-149 | exactly the monitored services that are stopped, stopping or unknown and not disabled, each once |
| Watchdog.KernelWatchdog.CheckCycle | kernel/watchdog.py:142-163 | one attempt on each degraded service, none when the watchdog only observes; every stopped service past its back-off whose start does not raise is restarted once |
| Manifest.PathsBelow | tools/manifest.py:89-101 | a file found below a directory has the directory's path and one of its entry names |
| Manifest.FilesAreAt | tools/manifest.py:89-101 | the files of a tree are exactly those its paths lead to, directory by directory |
| Manifest.TreePathsDistinct | tools/manifest.py:89-101 | the files of a tree have pairwise different paths |
| Manifest.TrackedMeans | tools/manifest.py:48-56 | tracked is a path whose top directory is not tmp, overlay or mnt and whose base name is none of the excluded ones |
| Manifest.PrunedIsUntracked | tools/manifest.py:90-95 | nothing below an excluded top directory is tracked, so pruning loses nothing |
| Manifest.VisitDir | tools/manifest.py:89-101 | visiting a directory accounts for its own tracked files and leaves its sub-directories to do |
| Manifest.PrunedWalk | tools/manifest.py:89-101 | the walk collects exactly the files whose top directory and base name are not excluded, each once |
| ManifestCheck.BuildManifest | tools/manifest.py:76-119 | the manifest lists exactly the tracked readable files with their digests |
| ManifestCheck.ManifestMeans | tools/manifest.py:97-107 | in terms of paths: listed is what is tracked, there and readable, with the digest of what is there |
| ManifestCheck.FindNew | tools/manifest.py:178-191 | exactly the tracked files the manifest does not list, each once |
| ManifestCheck.VerifyManifest | tools/manifest.py:150-193 | each missing, modified or new file is reported exactly once and nothing else is; an unreadable expected file raises |
| ManifestCheck.DiffersMeans | tools/manifest.py:165-191 | in terms of paths: listed and gone, listed and of another digest, tracked and there but not listed |
| ManifestCheck.CleanIffAgrees | tools/manifest.py:150-193 | verifying one tree against the manifest of another is clean if and only if they agree at every tracked path |
| ManifestCheck.OwnManifest | tools/manifest.py:76-193 | a tree verifies against its own manifest if and only if every tracked file is readable |
| ManifestCheck.UnreadableIsNew | tools/manifest.py:102-107 | one unreadable file: its tree's own manifest is empty and reports the file as new |
| ManifestCheck.DiffMeaning | tools/manifest.py:162-191 | for readable files missing, modified and new mean absent, changed and added |

## Left out

Queues and loop:

- Jobs, events, tasks and job entries are values, so it is not captured that the job object in history is the one that was queued.
- Job ids are the submission numbers; the eight random hex digits are taken to be distinct. Clocks are real numbers and never go back.
- Job name, error text, elapsed time, the published job events, `list_pending` and `list_history`.
- The instant inside a step at which a popped job is in no table, or a retried one in two.
- JobTheorems.NoOvertaking: reading the clock and pushing or popping are one step; the source reads it outside `_lock` (services/job_queue.py:146, 209, 236), so between threads another step could come in between.
- JobQueue.JobQueue.DrainOne: the job it runs may start, stop, submit and cancel but not drain; nested or concurrent drains are BeginDrain and FinishDrain as separate steps.
- Registration of the drain job with the scheduler, and the job callables themselves.
- Event numbers are given with the event, so building events late or out of order is covered, but not the counter; payloads and sources.
- Subscribing from inside a callback, and races on the unlocked bus.
- EventBus.EventBus.Drain: termination needs well-founded publishing, with weights that may depend on the number of deliveries; a bus whose subscribers publish for ever does not drain, and the lemmas on legal drains speak of its finite prefixes.
- Scheduler.Scheduler.Tick: entries that tie on time and interval are told apart by identity, where Python would compare two callables and raise; LoopTies says exactly when no tie arises, and what a raising comparison leaves behind is not modelled.
- KernelLoop.KernelLoop.Tick: what subscribers ask of the scheduler is handed over when the drain is done, and what tasks and jobs publish when the scheduler is done; neither object looks at the other in between.
- Arguments that are not callable, the scheduler's service table and PRIORITY_HINT.
- Floating-point rounding of times.
- `AURA.pulse`, the system-state dictionary, sleeping, and a negative maximum interval or factor.

Registry and storage:

- Python's recursion limit in the load order; parsing of service files; `restart` and the unknown-name case of `start`, which compose the operations here.
- Leading slashes, `..`, empty components, and paths that are a file in one layer and a directory in another.
- SD-card detection and mounting, directory listing, disk errors, and a read-only disk at start.
- Storage.OverlayRefinesPlainStore: holds for paths outside overlay/ and forced writes to read-only partitions only, and from a disk without overlay copies of writable files; ReadAfterWrite gives the exact condition otherwise.

Authority:

- Override requests made from inside an executed function; the interactive prompt is a boolean.
- Fingerprints, the JSON lines file, time stamps, request extras, published events, and negative limits of `get_entries`.
- Bridge lookups that raise count as not supported. The logging service and the event behind each audit record; CAPABILITY_GRANTED.
- Attaching other services to the privilege manager after construction.

Supervision and integrity:

- ServiceLifecycle.RunKeepsInv: the lifecycle is on values, because interleavings cut through the bodies of `start`, `stop` and `_run`; calls to start and stop come one after the other, and join does not time out.
- Registering a service again makes a new record while an old worker may still run; unit-file keys and the entrypoint process.
- HealthMonitor.HealthMonitor.RepairService: takes a manager whose stop and start return booleans; the manager in services/__init__.py returns None, so with it no circuit is ever half-opened.
- A health monitor without a job queue or manager; time stamps, events and the thread.
- A watchdog whose status query or publishing raises; integrity checks; the thread.
- A manifest written inside the tree it lists, which then reports itself. SHA-256 is an injective function.
- Sizes, commit, environment, symbolic links, and files that change during a walk.
