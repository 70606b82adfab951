# NodePilot: jobs, locks, agent calls and allocators, modelled and proved

NodePilot is a control plane for KVM hosts. This project models, in Dafny, the parts of it that have
to be right over long and interleaved runs, and proves what they are for.

| file | what it models |
|---|---|
| `Jobs.dfy`, `TaskRuns.dfy` | the job row and its transition table; a task working on a stale copy of its job while users cancel |
| `Provisioning.dfy` | the provisioning saga with failures at any step and its compensation |
| `AgentRpc.dfy` | remote calls as a distributed protocol: fresh request ids, late, lost and repeated deliveries, response keys that expire |
| `Locks.dfy` | Redis locks with tokens, expiry and a clock |
| `Ipam.dfy`, `IpamTransactions.dfy` | the lazily filled address table; allocator transactions under row locks and the unique constraint |
| `Quota.dfy`, `Scheduler.dfy`, `Sizes.dfy`, `Nodes.dfy` | quota admission, node choice, GiB arithmetic, effective node status |
| `NodeHealth.dfy` | heartbeats, sweeps and NODE_OFFLINE events |
| `Metrics.dfy` | the bounded metrics store |
| `ImageUpload.dfy` | chunked upload, server and client |
| `Snapshots.dfy` | snapshot status under requests, tasks and failures |
| `VlanNames.dfy`, `Decimal.dfy` | VLAN device names |
| `Xml.dfy`, `XmlTrees.dfy`, `XmlTemplates.dfy`, `DomainReader.dfy`, `DomainXml.dfy`, `DomainText.dfy`, `DomainFrame.dfy` | escaping, a writer and a reader for the XML the agent uses, and the domain document; f-strings are templates, fixed markup around values that are escaped or go in verbatim as in the source |
| `Strings.dfy`, `Wrappers.dfy` | small shared definitions |

`dafny verify dfyconfig.toml` checks everything.

## How to read it

Interleavings are either runs of events over a pure `Step` function, with the result stated for every
sequence of events, or methods that let others act between any two database accesses (`Interfere`,
`Others`). Classes are the rows and servers the source updates in place; each of their methods is tied
to a pure function of the state before, and what the source promises is then proved about runs of those
functions. An exception becomes a result value. Clocks, replies, failures and hash functions are
parameters or arbitrary choices; `calm` rules the failures and cancellations out, to say what then must succeed.

Where the code does not do what its comments or a first reading promise, the code is modelled as it is,
with the input that shows it and the statement of exactly when it happens:

| what happens | the input | exactly when |
|---|---|---|
| A machine that fails after READY was set (the save, or the release of its lock) loses its disks and keeps its domain, and no cleanup problem is reported; a volume whose row was not saved, or whose reply was lost, stays behind | `Provisioning.ReadyMachineLosesItsDisk`, `Provisioning.UnsavedVolumeStaysBehind` | `Provisioning.CleanupIsCompleteExactly`, `Provisioning.ProvisionVm` |
| A cancellation that is observed ends the job FAILED, not CANCELED: the check in `job_run` stands before its `try` | any | always: `TaskRuns.RunTask` | backend/apps/virtual_machines/tasks.py:182-213 | however a task ends and whenever cancels arrive, the job is SUCCESS or FAILED afterwards, no guarded transition was rejected, and a job cancelled before it started, or whose cancellation was observed between two blocks, is FAILED |
| An IPv6 pool that starts below 2^32 hands out IPv4 addresses | any such pool | `Ipam.RangeKeepsItsVersion` |
| `Ipam.RangeHolds` | backend/apps/networks/models.py:85-89 | the i-th address of a pool is its start plus i |
| `Ipam.FirstFreeIsLowest` | backend/apps/networks/services.py:41-50 | what is found is the lowest free number of the first pool that has one, and nothing iff no pool has one |
| The Redis lock around `allocate_ip` can be gone before the transaction commits; the unique constraint is what prevents a double allocation | `IpamTransactions.BothSeeTheAddressFree` | never twice, by the constraint: `IpamTransactions.NoAddressIsAllocatedTwice` |
| Whole-GiB rounding lets storage exceed its quota by one GiB | `Quota.StorageExceedsExactly` | backend/apps/organizations/services.py:63-104 | in every run, a commit takes its project's GiB figure over the limit iff the figures before add up to the limit and the remainders to a GiB or more |
| `Quota.StorageCanExceedByOne` | backend/apps/organizations/services.py:63-69 | a run in which the extra GiB occurs |
| Two `create_vm` under different quota rows can choose the same node before either commits and fill it twice over | `Scheduler.OverlappingPlacementsOvercommit` | `Scheduler.CommitFitsExactly` |
| The chunk view takes its lock after reading the session, so a late retry can still write a chunk twice, contrary to the comment there | `ImageUpload.LateRetryWritesTwice` | `ImageUpload.ChunkIsSafeIffTheCopyIsCurrent` |
| A failed rollback does not restore ERROR | `Snapshots.RollbackCanStartFromError` | `Snapshots.FailedAttemptRestores` |
| Python's `$` lets one trailing newline through the bridge validator; only the stripping of request fields keeps it out | `VlanNames.NewlineSlipsThroughTheValidators` | `VlanNames.ValidatedNamesAreSafe` |
| An untagged network may be put on a bridge that carries another network's dedicated VLAN name | `VlanNames.AnUntaggedBridgeCanTakeADedicatedName` | `VlanNames.SharedBridgeExactly` |
| A rate limit is converted to kB/s, although the comment speaks of KiB/s | any limit | `DomainXml.RateIsNotInKib` |

## Model

| member | source | states |
|---|---|---|
| `Jobs.Job.Transition` | backend/apps/jobs/services.py:68-88 | accepts exactly the table's moves and repeats of the current status; the whole new row |
| `Jobs.Job.SetProgress` | backend/apps/jobs/services.py:91-97 | clamps progress and writes the caller's message, touching no status |
| `Jobs.Job.AppendLog` | backend/apps/jobs/services.py:100-101 | the written log extends the list that was read, which may be older than the row |
| `Jobs.Job.RequestCancel` | backend/apps/jobs/services.py:104-113 | accepted exactly if the copy looks cancellable and the row permits CANCELING |
| `Jobs.OneWrite` | backend/apps/jobs/services.py:68-113 | every service keeps the timestamps tied to the status and moves strictly down the table or not at all |
| `Jobs.TransitionExactly` | backend/apps/jobs/services.py:68-88 | which fields a permitted transition writes and with what, and that a refused one writes nothing |
| `Jobs.OtherWritesExactly` | backend/apps/jobs/services.py:91-113 | what progress, log, cancel and guarded failure write, field by field |
| `Jobs.TableExactly` | backend/apps/jobs/models.py:49-56 | the table, entry by entry |
| `Jobs.ProgressIsAPercentage` | backend/apps/jobs/services.py:84-97 | in every run progress lies between 0 and 100, and becomes 100 with SUCCESS |
| `Jobs.RunStaysAfter` | backend/apps/jobs/services.py:68-113 | along every run from any consistent row, what was terminal or started stays so, and the number of changes is bounded by the table's height |
| `Jobs.JobHistory` | backend/apps/jobs/models.py:47-56 | over every interleaving of all services with stale copies: a path in the table up to stuttering, terminal statuses never left, finished_at set iff terminal, started_at written once, at most three changes |
| `Jobs.JobHistoryIsTight` | backend/apps/jobs/models.py:49-56 | three changes do occur, and SUCCESS without a start is possible in the table |
| `TaskRuns.Interfere` | backend/apps/jobs/services.py:104-113 | any number of cancel requests with any stale status can only have moved an open job to CANCELING |
| `TaskRuns.EnterJobRun` | backend/apps/jobs/services.py:121-136 | entering a block either leaves the job under way and started, or raises with the job still open, and CANCELING unless the database failed; a job already CANCELING never enters; with nothing wrong outside, any other job enters as RUNNING with the step as its message and one log line more |
| `TaskRuns.LeaveJobRunFailed` | backend/apps/jobs/services.py:142-144 | the FAILED transition of a failed block is never rejected |
| `TaskRuns.FailUnlessTerminal` | backend/apps/jobs/tasks.py:29-39 | the guarded FAILED transition is never rejected, closes an open job and leaves a closed one alone, whether the guard reads the row or the copy |
| `TaskRuns.TryBody` | backend/apps/virtual_machines/tasks.py:201-208 | however the body ends, no transition on its way is rejected and only a returned body's job can be SUCCESS unless its epilogue raised |
| `TaskRuns.RunTask` | backend/apps/virtual_machines/tasks.py:182-213 | however a task ends and whenever cancels arrive, the job is SUCCESS or FAILED afterwards, no guarded transition was rejected, and a job cancelled before it started, or whose cancellation was observed between two blocks, is FAILED; with nothing wrong outside it is SUCCESS at 100 |
| `Provisioning.CreateOneDisk` | backend/apps/virtual_machines/tasks.py:111-146 | after the call and the save of the row, either of which may fail, the agent has the others' volumes, the recorded ones and at most this one unrecorded |
| `Provisioning.CreateDisks` | backend/apps/virtual_machines/tasks.py:110-147 | the loop keeps the agent's volumes accounted for, and success records one for every disk |
| `Provisioning.CleanupPartialVm` | backend/apps/virtual_machines/tasks.py:76-96 | in any phase: whatever was recorded and is still there is named in a problem, other machines' volumes are untouched, confirmed requests leave exactly what cannot be undone, and without failing calls there are no problems; the domain of a READY machine is kept as it was and never named |
| `Provisioning.CleanupIsCompleteExactly` | backend/apps/virtual_machines/tasks.py:81-93 | a confirmed cleanup leaves no volume and no domain iff nothing was created unrecorded and READY had not been set |
| `Provisioning.ReadyMachineLosesItsDisk` | backend/apps/virtual_machines/tasks.py:81-90 | a READY machine with one disk: the disk goes, the domain stays |
| `Provisioning.UnsavedVolumeStaysBehind` | backend/apps/virtual_machines/tasks.py:86-92 | a disk whose row was not saved: its volume stays |
| `Provisioning.AttachSeed` | backend/apps/virtual_machines/tasks.py:158-165 | the seed is there afterwards iff cloud-init was asked for, and never otherwise |
| `Provisioning.FinishDomain` | backend/apps/virtual_machines/tasks.py:166-177 | whether or not its saves succeed, READY means a status and a running state that follow autostart, and any other phase is one in which cleanup deletes the domain |
| `Provisioning.CompletedExactly` | backend/apps/virtual_machines/tasks.py:110-177 | a completed plan has exactly one recorded volume per disk and nothing else new |
| `Provisioning.OneVolumePerDisk` | backend/apps/virtual_machines/tasks.py:110-135 | distinct disks have distinct volumes, counted |
| `Provisioning.RollBack` | backend/apps/virtual_machines/tasks.py:186-194 | entered in any phase, also READY: the job is FAILED, leftovers are reported, the row says ERROR if the handler could save it, and the cloud-init seed stays |
| `Provisioning.ProvisionVm` | backend/apps/virtual_machines/tasks.py:100-194 | for any disks, cloud-init and autostart choice, and any failing call, lost reply, failing save or lock release, and cancellation: success means one volume per disk, one domain, a seed iff cloud-init, RUNNING iff autostart, and the row saved; a rollback with confirmed requests leaves no volume and no domain iff nothing was created unrecorded and the failure came before READY, and after READY the domain stays as it was; with nothing wrong outside a queued job provisions |
| `AgentRpc.StepGrows` | backend/apps/nodes/agent_client.py:33-74 | no event forgets a command or an execution or touches another task |
| `AgentRpc.ReplyBelongsToRequest` | backend/apps/nodes/consumers.py:60-81 | what lies under a pending request's key is the response its own agent gave to that request |
| `AgentRpc.ActKeepsTask` | backend/apps/nodes/agent_client.py:56-74 | every action keeps calls and answers lined up and backed by executions |
| `AgentRpc.StepKeepsInv` | agent/nodepilot_agent/transport.py:52-86 | every step of callers, relays, agents and the clock keeps the protocol invariant |
| `AgentRpc.SuccessMeansEverythingWasDone` | backend/apps/virtual_machines/tasks.py:197-213 | over every interleaving a job is SUCCESS only if every operation its task issued was executed by that node's agent and answered success under its own request id |
| `AgentRpc.NoCallerTakesAnothersReply` | backend/apps/nodes/agent_client.py:53-74 | no caller ever consumes another request's reply, and no two calls share an id |
| `AgentRpc.AnsweredTaskSucceeds` | backend/apps/virtual_machines/tasks.py:201-208 | a task whose call is carried out and answered in time closes its job as SUCCESS |
| `AgentRpc.ReplyLivesAMinute` | backend/apps/nodes/consumers.py:78-81 | in every run, a response that arrives for a pending request is found by a poll iff it comes less than 60 seconds later, whatever the others do |
| `AgentRpc.System.SendOperation` | backend/apps/nodes/agent_client.py:33-74 | whatever the others do between polls, and also if they cancel the caller's job: it gives up iff no poll before the deadline finds an unexpired response, and otherwise returns or raises the message of the first poll that does, which is the executed request's own |
| `Locks.StepKeepsValid` | backend/apps/common/locks.py:21-36 | a lease that has not run out is what the server has on record, across every command and tick |
| `Locks.MutualExclusion` | backend/apps/common/locks.py:46-95 | at most one client per key is inside an unexpired lease at any moment of any run |
| `Locks.GrantedExactly` | backend/apps/common/locks.py:70-78 | in every run a key without a running lease is granted to whoever asks, for the time asked, and a key with one to nobody |
| `Locks.HolderReleasesAndExtends` | backend/apps/common/locks.py:80-87 | a holder's release frees the key for the next one, and its extension gives it the time asked |
| `Locks.StepKeepsLeased` | backend/apps/common/locks.py:21-36 | a live entry is somebody's lease up to the same time, across every command and tick |
| `Locks.LapsedHolderIsHarmless` | backend/apps/common/locks.py:80-87 | an extension by a client outside its lease changes nothing at all, and its release changes no key and no other client's lease |
| `Locks.LeaseStands` | backend/apps/common/locks.py:70-87 | nothing other clients do shortens a lease |
| `Locks.BodiesDoNotOverlap` | backend/apps/common/locks.py:46-95 | after a grant that was neither released nor extended, the next grant of the key comes no sooner than the TTL |
| `Locks.RedisLock.Acquire` | backend/apps/common/locks.py:70-78 | success means a full lease from now; failure means an unexpired entry is there and, when blocking, that the timeout has passed |
| `Locks.RedisLock.Extend` | backend/apps/common/locks.py:80-83 | works exactly for the owner, with zero taken as the default TTL; otherwise changes nothing |
| `Locks.RedisLock.Release` | backend/apps/common/locks.py:85-87 | deletes the key exactly if the caller still owns it |
| `Ipam.RangeKeepsItsVersion` | backend/apps/networks/models.py:85-89 | the range is complete and without repeats; it keeps its IP version iff it is IPv4 or starts at 2^32 or above |
| `Ipam.Subnet.AllocateIp` | backend/apps/networks/services.py:34-51 | hands out the lowest free number of the first pool, or of the given pool, and marks only it with the note; fails iff there is none |
| `Ipam.Subnet.FindFreeIp` | backend/apps/networks/services.py:81-87 | names the lowest free number of the first pool that has one, which the next allocation without a pool hands out |
| `Ipam.Subnet.ReserveIp` | backend/apps/networks/services.py:60-78 | reserves a parsable address of the subnet unless it is allocated |
| `Ipam.Subnet.ReleaseIp` | backend/apps/networks/services.py:54-57 | makes the address available and touches no other |
| `Ipam.FirstFreeIsFirst` | backend/apps/networks/services.py:38-50 | found iff some candidate is free, and none before it is |
| `Ipam.LazyTableRefinesTotalMap` | backend/apps/networks/services.py:34-87 | after any run the lazily filled table takes exactly the step of a total map in which absent means available |
| `Ipam.AllocationTakesAnAvailableAddress` | backend/apps/networks/services.py:34-51 | RESERVED, BLOCKED and ALLOCATED addresses are never handed out, nor is the same one by the next operation |
| `Ipam.AllocatedUntilReleased` | backend/apps/networks/services.py:34-78 | an address that was handed out stays allocated and is handed out to nobody over every continuation without its release |
| `Ipam.Subnet.Search` | backend/apps/networks/services.py:41-50 | the nested loops find the first free address of the pools in order |
| `IpamTransactions.StepKeepsInv` | backend/apps/networks/services.py:34-51 | row locks and pending inserts stay exclusive and the log of commits agrees with the table |
| `IpamTransactions.NoAddressIsAllocatedTwice` | backend/apps/networks/models.py:105-107 | over every interleaving of transactions, with no help from the Redis lock, two committed allocations of an address have a release between them |
| `IpamTransactions.LoneTransactionAllocates` | backend/apps/networks/services.py:41-57 | a transaction that runs alone gets an absent or available address, and a release frees it |
| `IpamTransactions.BothSeeTheAddressFree` | backend/apps/networks/services.py:30-51 | two transactions can find the same address absent; the constraint makes the second wait and fail |
| `Quota.CurrentUsage` | backend/apps/organizations/services.py:43-69 | the loop computes, over the project's machines not being deleted, their number and the sums of vCPUs, memory, disk bytes floored once to GiB, and snapshots |
| `Quota.UsageIsTheSum` | backend/apps/organizations/services.py:43-69 | the usage all other results are about is those sums, figure by figure |
| `Quota.AdmittedExactly` | backend/apps/organizations/services.py:72-111 | a create, attach or snapshot is admitted iff no quota row applies or all five sums stay within the project's row, or else the organisation's |
| `Quota.FiguresAdded` | backend/apps/virtual_machines/services.py:61-126 | what each write adds to each sum |
| `Quota.GrowthFits` | backend/apps/organizations/services.py:72-104 | usage that grows by no more than an admitted demand is within the limits, storage within one GiB, whole-GiB disks exactly |
| `Quota.RequestAdds` | backend/apps/virtual_machines/services.py:61-126 | an admitted create, attach or snapshot leaves its project within its limits |
| `Quota.RequestIsLocal` | backend/apps/organizations/services.py:43-49 | a request leaves every other project's usage alone |
| `Quota.DeletionLowersUsage` | backend/apps/organizations/services.py:47-49 | deletions only lower usage |
| `Quota.DeletionExactly` | backend/apps/organizations/services.py:47-60 | what each deletion changes, and nothing else |
| `Quota.StepKeepsInv` | backend/apps/organizations/services.py:27-40 | checks and commits interleaved under the locked quota row keep every project within its limits |
| `Quota.QuotaHolds` | backend/apps/organizations/services.py:27-111 | in every run the number of machines and the sums of vCPUs, memory and snapshots never exceed the effective quota, storage by at most one GiB, and not at all if all disks are whole GiB |
| `Quota.StorageExceedsExactly` | backend/apps/organizations/services.py:63-104 | in every run, a commit takes its project's GiB figure over the limit iff the figures before add up to the limit and the remainders to a GiB or more |
| `Quota.StorageCanExceedByOne` | backend/apps/organizations/services.py:63-69 | a run in which the extra GiB occurs |
| `Nodes.StatusExactly` | backend/apps/nodes/models.py:74-98 | each status as a condition on admin state, age of the last heartbeat and agent |
| `Scheduler.FeasibleExactly` | backend/apps/virtual_machines/scheduler.py:56-72 | the four refusals as conditions on the node's own fields and rows |
| `Scheduler.ScoreExactly` | backend/apps/virtual_machines/scheduler.py:74-77 | the score as 40, 40 and 20 parts of what is left of vCPUs, memory and storage |
| `Scheduler.RoundingErrorIsSmall` | backend/apps/virtual_machines/scheduler.py:77 | rounding to cents moves a score by at most half a cent |
| `Scheduler.RoundsToCents` | backend/apps/virtual_machines/scheduler.py:77 | a rounded score has two decimals, even ones on ties |
| `Scheduler.SortIsStable` | backend/apps/virtual_machines/scheduler.py:83 | the sort by descending score permutes its input, orders it and keeps the order of equal scores |
| `Scheduler.SelectNode` | backend/apps/virtual_machines/scheduler.py:51-84 | fails iff no node is feasible; the choice is feasible, within 0.01 of the best exact score, and the earliest among equal rounded scores |
| `Scheduler.PlacementFits` | backend/apps/virtual_machines/scheduler.py:70-72 | pending bytes rounded up and new ones rounded down leave less than one GiB too much |
| `Scheduler.DeletionExactly` | backend/apps/virtual_machines/scheduler.py:109 | a deletion takes exactly the machine's disks along |
| `Scheduler.StorageIsNotOvercommitted` | backend/apps/virtual_machines/scheduler.py:95-110 | for every sequence of choices, commits and deletions between heartbeats in which no overtaken choice commits, bytes placed stay under one GiB above the reported free space, and within it for whole-GiB disks |
| `Scheduler.CommitFitsExactly` | backend/apps/virtual_machines/scheduler.py:70-72 | any commit, overtaken or not: whole-GiB disks fit iff the check would still pass, other sizes iff the GiB figures and remainders do |
| `Scheduler.OverlappingPlacementsOvercommit` | backend/apps/virtual_machines/services.py:70-86 | two choices before either commit fill any node twice over |
| `Sizes.SumSizes` | backend/apps/organizations/services.py:60 | the loop computes the sum |
| `NodeHealth.GapIsFromLastBeat` | backend/apps/nodes/services.py:104-108 | the query for an event since the last heartbeat finds one iff the current gap has one |
| `NodeHealth.StepKeepsInv` | backend/apps/nodes/services.py:32-63 | heartbeats, sweeps on stale copies and admin changes keep events spaced by heartbeats |
| `NodeHealth.HeartbeatExactly` | backend/apps/nodes/services.py:33-93 | what an accepted heartbeat changes, and when it reports the node online |
| `NodeHealth.SweepExactly` | backend/apps/nodes/services.py:96-121 | when a sweep reports the node offline, on the fields of the row it read |
| `NodeHealth.AtMostOneOfflinePerGap` | backend/apps/nodes/services.py:96-121 | between two NODE_OFFLINE events there is a heartbeat, over every schedule |
| `NodeHealth.ExactlyOneOfflineOnceSeen` | backend/apps/nodes/services.py:96-121 | a sweep that saw the active node past the threshold leaves exactly one event in the gap |
| `NodeHealth.OneOfflineUntilTheNextBeat` | backend/apps/nodes/services.py:96-121 | it stays exactly one over every continuation up to the next accepted heartbeat |
| `NodeHealth.Registry.RecordHeartbeat` | backend/apps/nodes/services.py:33-93 | the row and events after a heartbeat; an unsupported agent version changes nothing |
| `NodeHealth.Registry.MarkOfflineIfStale` | backend/apps/nodes/services.py:96-121 | emits exactly if offline and not yet notified in the gap |
| `Metrics.RedisMetricsStore.Record` | backend/apps/metrics/store.py:35-45 | add, trim by score, trim by rank, set the expiry |
| `Metrics.RedisMetricsStore.Query` | backend/apps/metrics/store.py:47-52 | exactly the samples of the window, in order; zero or no window means all |
| `Metrics.SelectExactly` | backend/apps/metrics/store.py:47-52 | what is selected is exactly what lies in the window, both ends included |
| `Metrics.SelectRises` | backend/apps/metrics/store.py:51 | rising times stay rising |
| `Metrics.WriteKeeps` | backend/apps/metrics/store.py:41-45 | one write turns the one-shot trim of n samples into that of n + 1, also when the key had expired |
| `Metrics.StoreIsTrimmed` | backend/apps/metrics/store.py:35-45 | after every write the key is what one trim of the whole history so far leaves, expiry included |
| `Metrics.IncrementalEqualsOneShot` | backend/apps/metrics/store.py:35-45 | for every history with rising times the store holds the last min(max_points, k) of the k samples newer than the last time minus the retention |
| `Metrics.QuerySeesTheWindow` | backend/apps/metrics/store.py:47-52 | a query sees its window of those until the key expires, then nothing |
| `ImageUpload.Controller.WriteChunk` | backend/apps/images/storage_backend.py:65-80 | refuses a wrong index without a change; otherwise the block loop appends the whole body and saves the copy's counters moved on |
| `ImageUpload.Controller.PutChunk` | backend/apps/images/views.py:134-159 | the refusals in the view's order, decided on the copy read before the lock |
| `ImageUpload.Controller.Digest` | backend/apps/images/storage_backend.py:96-103 | the streaming digest is the digest of the file |
| `ImageUpload.Controller.FinalizeUpload` | backend/apps/images/views.py:165-197 | the checks in order, FAILED on any, and on success the file moved and the image READY |
| `ImageUpload.Controller.AbortUpload` | backend/apps/images/views.py:203-210 | the file is gone, the session ABORTED and the image FAILED |
| `ImageUpload.PutExactly` | backend/apps/images/views.py:134-159 | when a chunk is taken, and everything it changes |
| `ImageUpload.WrongIndexIsRefused` | backend/apps/images/storage_backend.py:65-67 | in every run, a chunk whose index is not the number of chunks taken so far changes nothing |
| `ImageUpload.FinalizeExactly` | backend/apps/images/storage_backend.py:83-109 | in every run, an active upload completes iff some chunk was taken and size and declared checksum agree |
| `ImageUpload.AbortExactly` | backend/apps/images/views.py:203-210 | what an abort leaves, and that no chunk is taken after it |
| `ImageUpload.ChunkIsSafeIffTheCopyIsCurrent` | backend/apps/images/views.py:145-157 | a write keeps counters and file together iff the copy's counters are still the row's |
| `ImageUpload.LateRetryWritesTwice` | backend/apps/images/views.py:134-157 | a retry with a stale copy duplicates its chunk and can still be finalized |
| `ImageUpload.UploadInvariant` | backend/apps/images/storage_backend.py:65-109 | in every run of non-overlapping requests, received_bytes is the file's length, next_chunk_index the number of accepted chunks, the file their concatenation, and a completed upload stored exactly that, of the declared size and checksum |
| `ImageUpload.FinalizeIsIdempotent` | backend/apps/images/views.py:167-176 | finalizing again changes nothing and repeats the success |
| `ImageUpload.UploadImage` | frontend/src/lib/upload.ts:19-38 | for every non-empty file and chunk size the client's loop ends with exactly the file's bytes stored and their digest and size recorded; an empty file is refused at the start |
| `Snapshots.Table.CreateTask` | backend/apps/snapshots/tasks.py:15-37 | READY only if everything, the event included, succeeded; otherwise ERROR |
| `Snapshots.Table.DeleteTask` | backend/apps/snapshots/tasks.py:41-68 | the row is gone once the agent answered; otherwise its status is as before |
| `Snapshots.Table.RollbackTask` | backend/apps/snapshots/tasks.py:72-106 | READY, however it ends |
| `Snapshots.StepKeepsInv` | backend/apps/snapshots/tasks.py:15-106 | the row's status always fits the running attempt's phase |
| `Snapshots.SnapshotsNeverGetStuck` | backend/apps/snapshots/services.py:39-49 | with no task running and the create attempt over, a snapshot is READY, ERROR or gone, and a delete is permitted |
| `Snapshots.RequestsExactly` | backend/apps/snapshots/services.py:39-57 | which requests are queued in which status |
| `Snapshots.SuccessfulAttempt` | backend/apps/snapshots/tasks.py:15-92 | what a running attempt shows, and what one that succeeds leaves |
| `Snapshots.FailedAttemptRestores` | backend/apps/snapshots/tasks.py:57-106 | a failed delete restores the status it started from unless the row is already gone; a failed rollback does so iff it did not start from ERROR |
| `Snapshots.RollbackCanStartFromError` | backend/apps/snapshots/tasks.py:30-36 | a run in which a queued rollback starts from ERROR and fails into READY |
| `Snapshots.StepsMakeTheAttempt` | backend/apps/snapshots/tasks.py:15-106 | the tasks as methods and as interleavable steps leave the same row |
| `Decimal.ValueOfDigits` | agent/nodepilot_agent/network.py:58-59 | reading the printed digits gives the number back |
| `VlanNames.AgentAcceptsExactly` | agent/nodepilot_agent/network.py:11-21 | the agent takes a derived name iff the parent is made of name characters and the suffix fits, for every string and number |
| `VlanNames.ValidatedNamesAreSafe` | backend/apps/networks/serializers.py:11-54 | of the pairs the validators pass, the agent refuses exactly those whose bridge ends in a newline |
| `VlanNames.NewlineSlipsThroughTheValidators` | backend/apps/networks/serializers.py:11-12 | such a pair |
| `VlanNames.AcceptedNamesAreSafe` | agent/nodepilot_agent/network.py:58-92 | every pair the API accepts yields an uplink and a bridge name the agent accepts |
| `VlanNames.GoodNamesAreAccepted` | backend/apps/networks/serializers.py:11-54 | no good bridge name or VLAN id is refused, and none out of range is accepted |
| `VlanNames.DistinctPairsDistinctNames` | agent/nodepilot_agent/network.py:85-92 | names are equal iff the pairs are, by the last dot and injective printing |
| `VlanNames.UplinkIsNeverADedicatedBridge` | agent/nodepilot_agent/network.py:85-92 | no uplink of any pair is the dedicated bridge of any pair |
| `VlanNames.NicBridgeExactly` | agent/nodepilot_agent/domain_xml.py:26-36 | which bridge a NIC is on, and when it is refused |
| `VlanNames.SharedBridgeExactly` | agent/nodepilot_agent/domain_xml.py:26-36 | guests of two networks share a bridge iff the pairs are equal or one is untagged on the other's dedicated name |
| `VlanNames.AnUntaggedBridgeCanTakeADedicatedName` | backend/apps/networks/serializers.py:39-54 | the API accepts such a pair of networks |
| `Xml.EscapeIsOnePass` | agent/nodepilot_agent/domain_xml.py:60-71 | the five replace passes equal one map over the characters |
| `Xml.UnescapeInvertsEscape` | agent/nodepilot_agent/domain_xml.py:60-71 | unescaping inverts escaping on every string |
| `XmlTrees.TreeReadsBack` | agent/nodepilot_agent/domain_xml.py:141-165 | reading a written element, whatever follows it, gives the element and the rest |
| `XmlTemplates.TemplateReadsBack` | agent/nodepilot_agent/domain_xml.py:141-165 | text built from escaped and verbatim values reads back as those values whenever the verbatim ones are plain |
| `DomainText.DiskSpelledOut` | agent/nodepilot_agent/domain_xml.py:94-108 | a disk's template writes exactly the characters of the f-string, options, source and escaping included |
| `DomainText.NicSpelledOut` | agent/nodepilot_agent/domain_xml.py:110-123 | a NIC's template writes exactly the characters of the f-string, bandwidth included |
| `DomainFrame.BusTable` | agent/nodepilot_agent/domain_xml.py:8-9 | bus names and device prefixes, value by value |
| `DomainFrame.StorageTable` | agent/nodepilot_agent/domain_xml.py:23 | the block-backed storage types |
| `DomainFrame.BootTable` | agent/nodepilot_agent/domain_xml.py:14 | boot devices, value by value |
| `DomainFrame.FormatTable` | agent/nodepilot_agent/domain_xml.py:52-54 | the driver format and its defaults |
| `DomainFrame.DeviceNameExactly` | agent/nodepilot_agent/domain_xml.py:74-76 | the device name given, or the letter of the disk's place |
| `DomainFrame.DocumentSpelledOut` | agent/nodepilot_agent/domain_xml.py:79-165 | the whole document is the source's text, with its units, policies, console and listen address |
| `DomainXml.RateIsNotInKib` | agent/nodepilot_agent/domain_xml.py:39-46 | the written figure is the KiB/s of the limit iff there is no limit, and too high otherwise |
| `DomainXml.DiskMeaning` | agent/nodepilot_agent/domain_xml.py:49-57 | a disk element says file or block, volume id, format, device, bus and options of its disk |
| `DomainXml.NicMeaning` | agent/nodepilot_agent/domain_xml.py:110-124 | a NIC element says bridge, address, model and both rate limits of its NIC |
| `DomainXml.DocumentSaysThePayload` | agent/nodepilot_agent/domain_xml.py:79-165 | reading the document gives back the payload: name, uuid, memory, vCPUs, machine, firmware, boot order, ballooning, I/O threads, and exactly its disks and NICs in order |
| `DomainXml.BuildDomainXml` | agent/nodepilot_agent/domain_xml.py:79-165 | built iff every disk has a device name and every NIC a bridge the agent accepts, as the document of exactly those disks and NICs; with plain unescaped fields it reads back as the payload |
| `DomainXml.DiskElementSaysTheDisk` | agent/nodepilot_agent/domain_xml.py:168-176 | a hot-plugged disk reads back for any path and device name and any plain format |
| `DomainXml.NicElementSaysTheNic` | agent/nodepilot_agent/domain_xml.py:190-198 | a hot-plugged NIC reads back for any bridge, address and model |

## Left out

- Django and DRF plumbing: migrations, admin, urls, permissions, throttling, audit log and the other serializers; tables are maps or sequences with row locks.
- libvirt, qemu-img, LVM, ZFS, `ip`, S3 and cloud-init ISO effects: each agent operation is an abstract success, failure, or success whose reply is lost.
- Agreement of the VM status with the real domain: a graceful shutdown is asynchronous and tasks do not look again.
- Agent operations that fail half-way: each is all-or-nothing.
- Failures of the writes that close the job row as FAILED and of the handler's own reads, and a worker process that dies.
- `create_vm`'s idempotent replay, celery task ids and revocation.
- Quota runs in which a delete fails after DELETING, and clone and resize, whose check commits before their write; the bound is not promised for them. An organisation-wide quota row is applied to each project on its own, as in the code.
- Reserving or releasing an address while an allocation of it is uncommitted: both are single steps.
- Floating-point error: scores are exact reals rounded to cents. The two clock readings of `effective_status` in one scheduling decision are one instant.
- Metrics samples with equal times; scores are not negative, so the lower bound of the score trim is not modelled.
- Attribute-value normalisation of tabs and newlines (section 3.3.3 of XML 1.0), character references, comments and mixed content; lower-casing beyond ASCII; keys missing from a NIC payload.
- DomainXml.BuildDomainXml: gives no device name where the letter would be a surrogate, U+D800 to U+DFFF, because such a string is not text; Python's `chr` makes one and fails when it is encoded.
- SHA-256 itself: any function of the bytes. Uploads whose finalize overlaps a chunk, other than the late retry.
- Two tasks on one snapshot at the same time.
- The remaining VM tasks differ from the modelled skeleton only in the operations they send.
- Console relay, heartbeat loop, reconnect backoff, CLI, webhooks, health endpoints and the rest of the frontend.
