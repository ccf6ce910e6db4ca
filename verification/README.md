# Compute Horde, modelled in Dafny

Compute Horde lets validators run jobs on executors rented out by miners. This project models the parts of it
where correctness is least visible from the code, and proves what they are for.

**Organic jobs.** A validator opens a job with a miner, awaits six milestones on six one-shot futures, extends one
deadline stage by stage, and pays with receipts. An executor walks through the same stages under its own deadline
and reports failures. Each side is modelled twice: as a timed state machine over all its possible steps
(`Validator.dfy`, `Executor.dfy`), on which the whole-run theorems are proved, and in the source's own imperative
form (`Client.dfy`, `OrganicJob.dfy`, `JobDriver.dfy`, `Deadlines.dfy`), each method of which is proved to be a run
of the machine. Alone, the validator faces an adversary; `System.dfy` joins both through a first-in first-out relay,
`Punctuality.dfy` settles who times out first, and `Margins.dfy` under exactly which margins. Time is an integer
clock that moves only while something waits; `asyncio.wait_for` cancels the future it gives up on. A message that
arrives at the very instant of a deadline may go either way.

**Receipts.** The miner's paged, archived and evicted files (`ReceiptStore.dfy`, over whole runs `ReceiptRuns.dfy`),
the validator's checkpointed range fetches and batched inserts (`Transfer.dfy`), and both together over every
interleaving (`Incremental.dfy`).

**Downloads.** The resumable `download_get` loop (`Download.dfy`).

**Scheduling.** Epochs, cycles, testing days and validator slots over exact rationals (`Calendar.dfy`), the locked
dispatch of synthetic batches (`Planner.dfy`) and the packing of prompts into workloads (`Packer.dfy`).

**Signed jobs.** The fields the SDK signs, followed through the facilitator to the validator (`SignedPayload.dfy`).

Some properties one would expect do not hold of the code as it is. For each, the exact condition is proved:

- A relay that is exactly as fast as it was for ExecutorReady is not enough for the executor to time out first.
  The margin counts from when the executor's budget starts, shortly after it sent ExecutorReady, and must be strictly
  positive (`Margins.VolumesMarginExact`). For a streaming start the executor is allowed more time than the
  validator waits; the validator can give up first exactly if the margin is at most that excess, and small enough
  for the run to get that far (`Margins.StreamingMarginExact`).
- A batch can be both started and marked missed exactly when rows may be selected on a head that is one block old,
  which the code does not prevent (`Planner.ContradictionExactlyWhenStale`).
- An archive can differ from its page exactly when receipts may be written more than a page time after their page
  was chosen (`ReceiptRuns.ArchivesDifferExactlyWhenLate`); for one call, exactly when a page was archived in between
  (`ReceiptStore.LocalFilesystemPagedReceiptStore.Store`).
- `download_get` calls a resource that fits too large exactly when its last request started from the beginning and
  was answered by an error page that announced too much; for a server that answers such requests alike, exactly
  when its first answer is one (`Download.TooLargeExactly`, with a run in `Download.ErrorPageTripsTheCap`).
- An empty streaming certificate is taken for no streaming, and only then is the signature lost
  (`SignedPayload.SignatureSurvives`).

The main theorems are `Punctuality.ValidatorNeverGivesUpFirst`, `System.OutcomeIsFirstTerminal`,
`Validator.ExactlyOneFinishedReceipt`, `Executor.TraceIsScriptThenAtMostOneFailure`,
`Incremental.IncrementalRefinesFull`, `Transfer.Database.Transfer`, `Download.DownloadGet`,
`ReceiptRuns.ArchivesDifferExactlyWhenLate`, `Margins.StreamingMarginExact`, `Slots.SlotsDistinct`,
`Calendar.PeakCycleOfTestingDay`, `Planner.ContradictionExactlyWhenStale`, `Packer.CreateSampleWorkloads` and
`SignedPayload.SignatureSurvives`.

`dafny verify dfyconfig.toml` checks the whole project.

## Model

| member | source | states |
|---|---|---|
| `Punctuality.ValidatorNeverGivesUpFirst` | executor/app/src/compute_horde_executor/executor/job_driver.py:82-132 | for every run of validator, relay and executor and every milestone from VolumesReady on: if each later message is relayed faster than ExecutorReady was, by more than the milestone's excess, counted after the lag between ExecutorReady leaving and the executor's budget starting, the validator never times out on it - the executor does first, in fine-grained and in single-timeout mode (validator side: organic.py lines 600-711) |
| `Margins.VolumesMarginExact` | compute_horde/compute_horde/miner_client/organic.py:625-641 | for every job with nonnegative limits and every margin: the validator can time out on the volumes in some run if and only if the margin, counted after the executor's lag, is not strictly positive: with a margin of 0 both deadlines fall on one instant |
| `Margins.GivesUpOnVolumes` | compute_horde/compute_horde/miner_client/organic.py:625-641 | a concrete run in which, without a margin, the validator gives up while the executor may still answer |
| `Margins.StreamingMarginExact` | executor/app/src/compute_horde_executor/executor/job_driver.py:112-122 | for every job with nonnegative limits and every margin: the validator can time out on StreamingReady first if and only if the job streams, there is time for the download, and the margin is at most the excess of the executor's allowance (the execution limit in fine-grained mode, 0 in single-timeout mode), the download budget, and the reservation and readiness limits together (validator side: organic.py lines 645-661) |
| `Margins.GainIsBounded` | executor/app/src/compute_horde_executor/executor/job_driver.py:92-111 | once VolumesReady was sent the margin is at most the download budget, which is positive, and at most the reservation and readiness limits together, because the job request is sent only after ExecutorReady arrived |
| `Margins.VolumesWereSeen` | compute_horde/compute_horde/miner_client/organic.py:645-661 | a validator that gave up on streaming has a streaming job whose executor announced its volumes |
| `Margins.AlwaysTimelineOk` | compute_horde/compute_horde/miner_client/organic.py:600-637 | in every run VolumesReady leaves after the validator's deadline started and only if the download has any time, and acceptance comes within the reservation limit |
| `Margins.GivesUpOnStreaming` | compute_horde/compute_horde/miner_client/organic.py:645-661 | a run for every margin that leaves room: container start-up eats into the execution allowance, the validator gives up, the executor is on time |
| `Punctuality.EndsWithExecutorsVerdict` | compute_horde/compute_horde/miner_client/organic.py:565-721 | with a sufficient margin an ended job has the executor's own verdict, unless it was never accepted or the executor never became ready |
| `Punctuality.DeadlineNotReached` | compute_horde/compute_horde/miner_client/organic.py:600-711 | while the validator awaits a milestone under a sufficient margin, its clock is strictly before its deadline |
| `Punctuality.InFlightBound` | executor/app/src/compute_horde_executor/executor/job_driver.py:134-142 | a message sent within the executor's budget and not yet delivered bounds the validator's clock |
| `Punctuality.StillWorkingBound` | executor/app/src/compute_horde_executor/executor/job_driver.py:104-132 | an executor that has not spoken yet is within its own deadline, which bounds the validator's clock |
| `System.OutcomeIsFirstTerminal` | compute_horde/compute_horde/miner_client/organic.py:293-324 | agreement: over a FIFO relay, a validator that ended without a timeout has exactly the outcome announced by the first terminal message on the wire - its output field by field, or its failure - also when a deadline cuts the executor off right after JobFinished and a failure follows (executor side: job_driver.py lines 60-80, 185-189) |
| `System.SettlingFailureIsFirst` | executor/app/src/compute_horde_executor/executor/job_driver.py:60-80 | a failure that settles a milestone the job still needs precedes any JobFinished on the wire |
| `System.FinishedComesLast` | executor/app/src/compute_horde_executor/executor/job_driver.py:165-189 | JobFinished on the wire means the job request was sent and every needed milestone precedes it |
| `System.WireVocabulary` | executor/app/src/compute_horde_executor/executor/miner_client.py:111-151 | everything on the wire names this job, and the executor's failure reports are exactly what the validator takes for failures |
| `System.Reachable` | compute_horde/compute_horde/miner_client/organic.py:565-721 | every reachable state of the composed system satisfies the joint invariant: both machines' own, one clock, wire = executor's messages with one Accept inserted, deliveries in order |
| `Validator.ExactlyOneFinishedReceipt` | compute_horde/compute_horde/miner_client/organic.py:565-721 | for every miner and every timing: no finished receipt while the job runs, exactly one when it has ended, paying value and blocks iff it returned and 0 with no blocks iff it raised |
| `Validator.ResultOnlyAfterEveryMilestone` | compute_horde/compute_horde/miner_client/organic.py:565-711 | against an adversarial miner: a result is returned only if every milestone the job needs was announced for this job_uuid, and it is the first JobFinished's stdout, stderr, artifacts and upload results, absent ones being empty; V0JobRequest goes out only after accept and executor-ready |
| `Validator.RaisedIsFirstFailureOrTimeout` | compute_horde/compute_horde/miner_client/organic.py:300-324 | an awaited failure is the first failure the miner announced, or a timeout |
| `Validator.EndsWithinAcceptedReceipt` | compute_horde/compute_horde/miner_client/organic.py:580-711 | the time from the accepted receipt to the end of any run is within that receipt's TTL, and the deadline of the last stage is TimingDetails.total, less the streaming limit for a job that does not stream |
| `Validator.WaitsInWords` | compute_horde/compute_horde/miner_client/organic.py:538-691 | every wait, every deadline and the accepted receipt's TTL as sums of the job's own limits, stage by stage |
| `Validator.ReservationWait` | compute_horde/compute_horde/miner_client/organic.py:567-573 | until acceptance the validator waits until the reservation limit, counted from the beginning |
| `Validator.ForeignMessagesChangeNothing` | compute_horde/compute_horde/miner_client/organic.py:230-234 | erasing every message for another job_uuid from a run leaves a run that ends in the same state |
| `Validator.EraseExactly` | compute_horde/compute_horde/miner_client/organic.py:230-234 | what is erased are exactly the foreign messages, and the rest keeps its order |
| `Validator.Reachable` | compute_horde/compute_horde/miner_client/organic.py:565-721 | invariant of every run: futures decided by the first message that concerns them, stages in order, what was sent, and every deadline equal to its closed form |
| `Validator.AwaitedNeverCancelled` | compute_horde/compute_horde/miner_client/organic.py:567-575 | the future awaited next is never one an earlier timeout cancelled |
| `Validator.ResumeKeepsWait` | compute_horde/compute_horde/miner_client/organic.py:600-691 | stage by stage, extending the deadline adds up to the milestone's cumulative budget |
| `Validator.ResumeKeepsClock` | compute_horde/compute_horde/miner_client/organic.py:580-691 | with nonnegative limits no stage starts after its own deadline |
| `OrganicJob.OrganicJobRun.Execute` | compute_horde/compute_horde/miner_client/organic.py:565-721 | the coroutine in imperative form ends in a final state of the machine for every script of arrivals and pauses, taking its events one by one and handling exactly the messages among them, with a timeout only if they filled the time allowed or no more came; with exactly one finished receipt, and a returned output is, field by field, that of the JobFinished the client holds |
| `OrganicJob.OrganicJobRun.constructor` | compute_horde/compute_horde/miner_client/organic.py:534-563 | connected, started receipt signed, initial request sent: the machine's initial state |
| `OrganicJob.OrganicJobRun.WaitFor` | compute_horde/compute_horde/miner_client/organic.py:568-573 | wait_for: a settled future resumes without further delay; the future is cancelled only when the pauses and messages of the script filled the time allowed, or no more were to come |
| `OrganicJob.OrganicJobRun.Stage` | compute_horde/compute_horde/miner_client/organic.py:645-691 | extends the deadline when timing is fine-grained and waits on what is left of it, as the machine does |
| `OrganicJob.OrganicJobRun.GiveUp` | compute_horde/compute_horde/miner_client/organic.py:713-721 | a failed stage pays nothing and re-raises the timeout or the miner's failure |
| `OrganicJob.OrganicJobRun.RunStages` | compute_horde/compute_horde/miner_client/organic.py:565-598 | reservation, then the rest of the job: the method ends where the machine does |
| `OrganicJob.OrganicJobRun.RunFromSpinup` | compute_horde/compute_horde/miner_client/organic.py:577-598 | sends the accepted receipt with its TTL and awaits the executor; the method ends where the machine does |
| `OrganicJob.OrganicJobRun.RunExecutor` | compute_horde/compute_horde/miner_client/organic.py:600-643 | starts the deadline, sends the job request, awaits the volumes |
| `OrganicJob.OrganicJobRun.RunToTheEnd` | compute_horde/compute_horde/miner_client/organic.py:645-711 | streaming, execution and upload, then the paying receipt and the output |
| `Client.EveryFutureDecidedByFirst` | compute_horde/compute_horde/miner_client/organic.py:214-324 | after any history of messages, each of the six futures is decided by the first message that concerns it |
| `Client.LockedByFirstFailure` | compute_horde/compute_horde/miner_client/organic.py:300-324 | after the first failure for this job nothing is pending, no later message changes any future, and every failed future carries that first failure |
| `Client.HandleOne` | compute_horde/compute_horde/miner_client/organic.py:214-324 | one message moves a future only from pending and only if it is that milestone's message or a failure, legacy messages included |
| `Client.DecidedStep` | compute_horde/compute_horde/miner_client/organic.py:214-324 | being decided by the first relevant message survives every further message |
| `Client.FailureIsFirst` | compute_horde/compute_horde/miner_client/organic.py:300-324 | a failed future holds the first failure of the history |
| `Client.ForeignMessageIgnored` | compute_horde/compute_horde/miner_client/organic.py:230-234 | a message for another job leaves the client unchanged and settles nothing |
| `Client.FirstManifestLastSpecs` | compute_horde/compute_horde/miner_client/organic.py:205-212 | after any history the manifest kept is the first one sent and the machine specs are the last ones sent for this job |
| `Client.OrganicMinerClient.HandleMessage` | compute_horde/compute_horde/miner_client/organic.py:214-335 | the method's effect on the fields is Handle, whose meaning the lemmas above state |
| `Client.OrganicMinerClient.SetFuture` | compute_horde/compute_horde/miner_client/organic.py:236-241 | set_result / set_exception with InvalidStateError swallowed |
| `Client.OrganicMinerClient.FailEverything` | compute_horde/compute_horde/miner_client/organic.py:313-324 | every pending future gets the exception, the others stay |
| `Deadlines.Timer.SetTimeout` | compute_horde/compute_horde/utils.py:128-130 | restarts the timer with a new timeout |
| `Deadlines.Timer.ExtendTimeout` | compute_horde/compute_horde/utils.py:132-135 | adds to the timeout and keeps the start; fails exactly when there is no timeout |
| `Deadlines.Timer.TimeLeft` | compute_horde/compute_horde/utils.py:140-143 | timeout minus time passed; fails exactly when there is no timeout |
| `Executor.TraceIsScriptThenAtMostOneFailure` | executor/app/src/compute_horde_executor/executor/job_driver.py:60-80 | every trace is a prefix of Ready, VolumesReady, StreamingReady when streaming, ExecutionDone, MachineSpecs when known, JobFinished, plus at most one failure report, always last; a clean end means the whole script |
| `Executor.MessagesLeaveInTime` | executor/app/src/compute_horde_executor/executor/job_driver.py:82-142 | every message after ExecutorReady, failure reports included, leaves within the cumulative budget of its stage |
| `Executor.Reachable` | executor/app/src/compute_horde_executor/executor/job_driver.py:82-189 | invariant of every run: shape of the trace, deadline equal to its closed form, clock within it, nothing claimed before the full payload arrived |
| `Executor.WorkFollowsScript` | executor/app/src/compute_horde_executor/executor/job_driver.py:150-189 | completing a phase says nothing or exactly the script's next message |
| `Executor.WorkKeepsDeadline` | executor/app/src/compute_horde_executor/executor/job_driver.py:92-126 | re-initialising and extending the deadline adds up to the milestone's cumulative budget |
| `Executor.FailKeepsTime` | executor/app/src/compute_horde_executor/executor/job_driver.py:89-130 | a failure report, too, leaves within the budget of its stage |
| `Executor.UncleanEndIsReported` | executor/app/src/compute_horde_executor/executor/job_driver.py:60-80 | in every run that ended uncleanly with a job known, the last message reports the step that ended it: a job error as job failure with its reason and the current stage, a horde error as horde failure of the executor with its reason, a deadline as horde failure during start-up and as job timeout afterwards |
| `Executor.EndingSaysWhy` | executor/app/src/compute_horde_executor/executor/job_driver.py:65-74 | one step that ends the run uncleanly sends exactly that one message, or none when no job is known |
| `Executor.AlwaysInStage` | executor/app/src/compute_horde_executor/executor/job_driver.py:144-189 | the current stage as a function of the phase: start-up, download, execution, upload, each until the next is entered |
| `Executor.DeadlinesInWords` | executor/app/src/compute_horde_executor/executor/job_driver.py:92-132 | the deadline of each phase after start-up as a sum of the request's own limits |
| `Executor.StartupDeadline` | executor/app/src/compute_horde_executor/executor/job_driver.py:82-90 | start-up as a whole has its limit, counted from the beginning |
| `Executor.SentIsScriptOrFailure` | executor/app/src/compute_horde_executor/executor/miner_client.py:111-151 | each message sent is the script's at its position or the one closing failure for this job |
| `Executor.ScriptWords` | executor/app/src/compute_horde_executor/executor/miner_client.py:111-151 | script messages name the job, are no failures, and JobFinished is the last of them |
| `JobDriver.JobDriver.Execute` | executor/app/src/compute_horde_executor/executor/job_driver.py:60-80 | the driver in imperative form always ends; a clean end used up one completion of the script for each of its awaits, an unclean one was caused by the last event or by time running out; what it sent is the script after a clean end, else a prefix and one failure that reports the step that ended the run, or nothing if no job was ever known |
| `JobDriver.JobDriver.Await` | executor/app/src/compute_horde_executor/executor/job_driver.py:86-130 | an await under the deadline ends with the first event that ends it, as that event says, or times out when the pauses before exceed the time left or nothing more comes; requests may arrive meanwhile |
| `JobDriver.JobDriver.TakeEvent` | executor/app/src/compute_horde_executor/executor/job_driver.py:86-130 | exactly what one event does: a request is handled, a pause passes or uses up the time left, a result ends the wait if it may |
| `JobDriver.JobDriver.SendAndAwait` | executor/app/src/compute_horde_executor/executor/job_driver.py:155-189 | one message at most, and only after a completion of the script for the await before; then the next await |
| `JobDriver.JobDriver.RunJob` | executor/app/src/compute_horde_executor/executor/job_driver.py:92-132 | download, execution and upload under the growing deadline end in a final state of the machine |
| `JobDriver.JobDriver.StartupStage` | executor/app/src/compute_horde_executor/executor/job_driver.py:150-163 | specs, checks, initial request, preparation, then ExecutorReady |
| `JobDriver.JobDriver.BeginDownload` | executor/app/src/compute_horde_executor/executor/job_driver.py:92-106 | sets the deadline to leeway plus download, or to the single timeout, or reports missing timing |
| `JobDriver.JobDriver.BeginExecution` | executor/app/src/compute_horde_executor/executor/job_driver.py:112-118 | extends by the execution limit, and by the streaming limit for a streaming job |
| `JobDriver.JobDriver.BeginUpload` | executor/app/src/compute_horde_executor/executor/job_driver.py:124-126 | extends by the upload limit |
| `JobDriver.JobDriver.EnterStage` | executor/app/src/compute_horde_executor/executor/job_driver.py:144-148 | with no time left the stage is not entered; otherwise current_stage is the new stage |
| `JobDriver.JobDriver.DownloadStage` | executor/app/src/compute_horde_executor/executor/job_driver.py:165-172 | awaits the full payload, downloads, then VolumesReady |
| `JobDriver.JobDriver.RunStage` | executor/app/src/compute_horde_executor/executor/job_driver.py:174-183 | container, StreamingReady when streaming, exit check, then ExecutionDone |
| `JobDriver.JobDriver.UploadStage` | executor/app/src/compute_horde_executor/executor/job_driver.py:185-189 | uploads, then MachineSpecs when known, then JobFinished |
| `JobDriver.JobDriver.Report` | executor/app/src/compute_horde_executor/executor/job_driver.py:298-331 | exactly one message more, now: JobFailed with stage and reason, or HordeFailed by the executor with its reason, as the ending step demands; none when no job uuid is known |
| `JobDriver.JobDriver.GiveUp` | executor/app/src/compute_horde_executor/executor/job_driver.py:65-74 | the run ends as the machine's failure step does: with the failure that occurred, or on timeout with a horde failure during start-up and a job timeout naming the stage afterwards; the message sent is spelled out |
| `JobDriver.MinerClient.HandleInitialJobRequest` | executor/app/src/compute_horde_executor/executor/miner_client.py:82-91 | the first initial request fixes request and job_uuid; a duplicate changes nothing but adds one generic error |
| `JobDriver.MinerClient.HandleJobRequest` | executor/app/src/compute_horde_executor/executor/miner_client.py:93-109 | the payload is accepted exactly when an initial request came before and no payload did; otherwise one generic error more |
| `Incremental.IncrementalRefinesFull` | compute_horde/compute_horde/receipts/transfer.py:146-208 | over every interleaving of appends, fetches, failures, lost checkpoints and eviction: bytes received since the last reset are exactly page[..checkpoint], the checkpoint is on a line boundary, each line up to it was parsed once and in order, and the tables are those of inserting every line ever fetched once, one by one: per job the entry there was, or else the first receipt about it on those lines |
| `Incremental.FetchCatchesUp` | compute_horde/compute_horde/receipts/transfer.py:146-208 | whatever happened before, one fetch of a page that is still there makes the tables those of a single whole fetch |
| `Incremental.NothingAfterEviction` | compute_horde/compute_horde/receipts/transfer.py:182-186 | once a page is gone no later fetch changes the tables |
| `Incremental.FetchChangesNothingOrCatchesUp` | compute_horde/compute_horde/receipts/transfer.py:179-208 | a fetch either changes nothing or brings exactly the lines not parsed yet |
| `Incremental.FetchBringsTheRest` | compute_horde/compute_horde/receipts/transfer.py:158-206 | the body of a ranged answer is the unparsed lines and its total the size of the page |
| `Incremental.InsertOverlapping` | compute_horde/compute_horde/receipts/transfer.py:126-139 | inserting lines again after a lost checkpoint leaves the tables of a single pass |
| `Incremental.Reinsert` | compute_horde/compute_horde/receipts/models.py:35-37 | inserting receipts a second time changes nothing, since the first receipt of a job wins |
| `Transfer.SplitJoin` | compute_horde/compute_horde/receipts/store/local.py:154-157 | splitting at newlines undoes joining whole lines (read back at transfer.py line 222) |
| `Transfer.JoinSplit` | compute_horde/compute_horde/receipts/transfer.py:222-222 | joining undoes splitting any bytes |
| `Transfer.SplitIntoPieces` | compute_horde/compute_horde/receipts/transfer.py:222-222 | every line split off but the last is whole, and the last is whole or has no newline |
| `Transfer.JoinConcat` | compute_horde/compute_horde/receipts/store/local.py:154-157 | the bytes of appended lines are the concatenation of the bytes |
| `Transfer.ToValidReceipts` | compute_horde/compute_horde/receipts/transfer.py:213-256 | exactly the accepted lines contribute, each its own receipt, in line order; every line is a receipt or a line error |
| `Transfer.ReceiptsOfLines` | compute_horde/compute_horde/receipts/transfer.py:213-256 | the i-th line, if accepted, contributes its receipt at the position given by the accepted lines before it, and nothing else is contributed |
| `Transfer.ReceiptsTransfer.GetNewReceiptsOnPage` | compute_horde/compute_horde/receipts/transfer.py:146-208 | new checkpoint, exception or receipts, as the answer's status and headers determine |
| `Transfer.Database.Transfer` | compute_horde/compute_horde/receipts/transfer.py:98-141 | for every completion order: batching at 1000 per type leaves the tables of inserting each receipt on arrival - every old entry unchanged, every new one the first receipt about its job to arrive, none else - n_receipts counts every received receipt, successes plus errors equal the tasks, line errors add up, and all bulk inserts but the last three are of exactly 1000 receipts |
| `Transfer.InsertsKeepFirst` | compute_horde/compute_horde/receipts/models.py:35-37 | entry by entry: what was there stays, otherwise the first receipt of the kind and job, otherwise nothing |
| `Transfer.FirstWinsByTask` | compute_horde/compute_horde/receipts/transfer.py:116-139 | the same by task and position: the first task to complete with a receipt about the job provides it |
| `Transfer.ArrivedAndErrorsAddUp` | compute_horde/compute_horde/receipts/transfer.py:116-133 | receipts and line errors add up task by task, failed ones bringing nothing |
| `Transfer.InsertEachByKind` | compute_horde/compute_horde/receipts/models.py:35-37 | the tables of one-by-one inserts are, type by type, one bulk insert that ignores conflicts |
| `Transfer.InsertEachConcat` | compute_horde/compute_horde/receipts/transfer.py:126-139 | inserting a sequence in two portions is inserting it at once |
| `Transfer.BulkCreateConcat` | compute_horde/compute_horde/receipts/transfer.py:126-139 | two bulk inserts in a row are one of the concatenation |
| `Transfer.AppendKeepsPendingKind` | compute_horde/compute_horde/receipts/transfer.py:124-125 | appending to a bucket keeps: flushing it now would give the one-by-one table |
| `Transfer.AllFlushed` | compute_horde/compute_horde/receipts/transfer.py:135-139 | with all buckets flushed the tables are the one-by-one tables |
| `Transfer.Database.Place` | compute_horde/compute_horde/receipts/transfer.py:122-130 | one receipt into its bucket, written out and emptied when full, loses and double-counts nothing |
| `Transfer.Database.Flush` | compute_horde/compute_horde/receipts/transfer.py:126-139 | a flush moves a bucket into its table and into the count |
| `ReceiptStore.LocalFilesystemPagedReceiptStore.Store` | compute_horde/compute_horde/receipts/store/local.py:56-64 | every page keeps its content and gains exactly the receipts stored during it, each once, at the position given by those before it; archives stay equal to their pages if and only if no receipt's page was archived between being chosen and being written, hence whenever those pages are still active when written |
| `ReceiptStore.LocalFilesystemPagedReceiptStore.AppendToPage` | compute_horde/compute_horde/receipts/store/local.py:144-158 | the page is extended; the archives stay right if and only if the page has no archive or nothing is added |
| `ReceiptStore.LocalFilesystemPagedReceiptStore.ArchiveOldPages` | compute_horde/compute_horde/receipts/store/local.py:109-129 | in any store: exactly the inactive pages without an archive get one, equal to the page; existing archives are kept as they are; a consistent store stays consistent as the clock advances |
| `ReceiptStore.LocalFilesystemPagedReceiptStore.Evict` | compute_horde/compute_horde/receipts/store/local.py:94-107 | in any store, also one whose archives differ: pages before the cutoff's page go, with their archives; no receipt stored at or after the cutoff is lost; the rest is untouched |
| `ReceiptStore.LocalFilesystemPagedReceiptStore.GroupByPage` | compute_horde/compute_horde/receipts/store/local.py:60-62 | each page is assigned exactly the receipts stored during it, each once and in order, and each page is listed once |
| `ReceiptStore.AssignedInOrder` | compute_horde/compute_horde/receipts/store/local.py:60-62 | position by position, the receipts a store call assigns to a page |
| `ReceiptStore.PageCovers` | compute_horde/compute_horde/receipts/store/local.py:49-54 | page p covers the instants from 300p to before 300p+300 |
| `ReceiptStore.ConsistentExactlyWhenUntouched` | compute_horde/compute_horde/receipts/store/local.py:109-129 | appending to pages keeps every archive equal to its page exactly if no archived page gains a line |
| `ReceiptStore.WriteAllContent` | compute_horde/compute_horde/receipts/store/local.py:63-64 | writing the groups page by page appends each group to its own page only |
| `ReceiptStore.LateWriteBreaksArchive` | compute_horde/compute_horde/receipts/store/local.py:60-64 | a store call that writes two pages after its page was chosen makes an archive differ from its page |
| `ReceiptRuns.ArchivesDifferExactlyWhenLate` | compute_horde/compute_horde/receipts/store/local.py:56-129 | over every interleaving of writer, archiver and evictor: an archive can come to differ from its page if and only if a write may come more than PAGE_TIME after its page was chosen |
| `ReceiptRuns.NothingLostButByDeletion` | compute_horde/compute_horde/receipts/store/local.py:56-158 | over every interleaving a page that was never deleted holds exactly the receipts stored during it, each once and in order, but for those still to be written |
| `ReceiptRuns.PromptWritesKeepArchives` | compute_horde/compute_horde/receipts/store/local.py:109-129 | with writes within PAGE_TIME every archive equals its page at every point of every run |
| `ReceiptRuns.LateWriteDiffers` | compute_horde/compute_horde/receipts/store/local.py:60-64 | from any starting time, the run that shows it: a receipt chosen in the last second of its page and written one second more than a page time later |
| `Download.DownloadGet` | compute_horde_sdk/src/compute_horde_core/volume/_downloader.py:234-288 | against every range-conforming server: the file is always a prefix of the resource, equals it on return, never exceeds a positive cap; request by request, each starts where the one before had got to, restarts are free, the last answer decides the outcome or uses up the retries; pauses quadruple before jitter |
| `Download.ResumesAfterBreak` | compute_horde_sdk/src/compute_horde_core/volume/_downloader.py:244-274 | when the first answer breaks off and the server delivers the rest as 206, the call ends downloaded with two requests |
| `Download.TooLargeExactly` | compute_horde_sdk/src/compute_horde_core/volume/_downloader.py:262-272 | a resource that fits the cap is called too large if and only if the last request was from the beginning and its answer announced too much; for servers that answer such requests alike, if and only if the first answer did |
| `Download.RequestsBounded` | compute_horde_sdk/src/compute_horde_core/volume/_downloader.py:244-288 | at most 2*max_retries-1 requests are made although restarts are free |
| `Download.FirstAnswerDecides` | compute_horde_sdk/src/compute_horde_core/volume/_downloader.py:249-274 | a whole first answer that fits is accepted at once, an announcement of too much refused at once |
| `Download.HandleResponse` | compute_horde_sdk/src/compute_horde_core/volume/_downloader.py:251-276 | exactly which answers restart (416, or not 206 to a ranged request), are too big, complete the download, or fail, and from where the next request continues |
| `Download.Receive` | compute_horde_sdk/src/compute_horde_core/volume/_downloader.py:269-274 | chunk by chunk the file stays a prefix of the resource, under the cap, and is the resource once the body is complete |
| `Download.OverwriteKeepsPrefix` | compute_horde_sdk/src/compute_horde_core/volume/_downloader.py:253-273 | writing over a longer file after seek(0) keeps a prefix and never shortens it |
| `Download.File.Write` | compute_horde_sdk/src/compute_horde_core/volume/_downloader.py:273-273 | writes at the position, replacing and extending, and advances it |
| `Download.BackoffIsPow4` | compute_horde_sdk/src/compute_horde_core/volume/_downloader.py:281-286 | a doubling factor times 2^n is 4^n |
| `Download.ErrorPageTripsTheCap` | compute_horde_sdk/src/compute_horde_core/volume/_downloader.py:262-268 | the announced length is checked before the status: a long error page makes a small resource too large |
| `Calendar.EpochClosedForm` | compute_horde/compute_horde/subtensor.py:6-28 | the epoch of any block starts at block - (block+netuid+2) mod (tempo+1) and has tempo+1 blocks |
| `Calendar.EpochsPartition` | compute_horde/compute_horde/subtensor.py:6-28 | an epoch holds its block, and holds another block iff that block has the same epoch |
| `Calendar.CycleClosedForm` | compute_horde/compute_horde/subtensor.py:31-52 | cycles are the grid of double width through the first epoch's start |
| `Calendar.CyclesPartition` | compute_horde/compute_horde/subtensor.py:31-52 | a cycle holds its block, and holds another block iff that block has the same cycle |
| `Calendar.PeakCycleOfTestingDay` | compute_horde/compute_horde/subtensor.py:55-62 | the peak cycle is the first cycle of the ten-cycle testing day that holds the block, and equal for two blocks iff they share a day |
| `Calendar.ReferenceInPeakCycle` | compute_horde/compute_horde/subtensor.py:1-2 | the peak cycle for block 1000 contains block 1000 |
| `Calendar.PeakCyclesRepeat` | compute_horde/compute_horde/subtensor.py:55-62 | peak cycles come back every 20*(tempo+1) blocks |
| `Calendar.EpochDistance` | compute_horde/compute_horde/subtensor.py:37-40 | epochs start a whole number of epochs after the first, so the parity test is exact |
| `Slots.SlotGap` | validator/app/src/compute_horde_validator/validator/tasks.py:145-156 | consecutive slots are floor or ceiling of L/total apart |
| `Slots.SlotsSpread` | validator/app/src/compute_horde_validator/validator/tasks.py:145-156 | start blocks never decrease, and k slots are at least k*floor(L/total) apart |
| `Slots.SlotInCycle` | validator/app/src/compute_horde_validator/validator/tasks.py:145-156 | every start block lies in [cycle.start+offset, cycle.stop) |
| `Slots.SlotsDistinct` | validator/app/src/compute_horde_validator/validator/tasks.py:145-156 | all validators get different blocks if and only if L >= total |
| `Slots.Collision` | validator/app/src/compute_horde_validator/validator/tasks.py:145-156 | with fewer blocks than validators two neighbours collide |
| `Slots.ValidatorsKeepApart` | validator/app/src/compute_horde_validator/validator/tasks.py:114-135 | under any common shuffle two validators get different blocks inside the cycle when it has room for all |
| `Slots.OrderDecides` | validator/app/src/compute_horde_validator/validator/tasks.py:128-135 | the validator drawn first starts right after the offset, and one earlier in the order never starts later - earlier, when there is room for all |
| `Planner.DispatchedOnceAndNotEarly` | validator/app/src/compute_horde_validator/validator/tasks.py:196-307 | over every interleaving of any number of workers: no batch is dispatched twice or before its block, and only started ones are |
| `Planner.StartedWasEarliest` | validator/app/src/compute_horde_validator/validator/tasks.py:213-238 | every started batch was, when picked, due no later than any other batch that was free, unstarted and inside the window |
| `Planner.MissedWasOverslept` | validator/app/src/compute_horde_validator/validator/tasks.py:319-338 | only batches overslept by more than the setting are ever marked missed |
| `Planner.NeverBothStartedAndMissed` | validator/app/src/compute_horde_validator/validator/tasks.py:213-223 | if rows are selected on the current head no batch is both started and marked missed |
| `Planner.ContradictionExactlyWhenStale` | validator/app/src/compute_horde_validator/validator/tasks.py:196-223 | for all settings: a batch can end up both started and missed if and only if batches can be selected at all and selection may use a head outdated by as little as one block |
| `Planner.StaleSelection` | validator/app/src/compute_horde_validator/validator/tasks.py:316-338 | the run that shows it: head read, one block later the batch is overslept and marked missed, then selected on the old head and started |
| `Planner.Reachable` | validator/app/src/compute_horde_validator/validator/tasks.py:196-338 | invariant of every run: rows are held once and unstarted, a started batch is pending or dispatched but not both |
| `Packer.CreateSampleWorkloads` | validator/app/src/compute_horde_validator/validator/tasks.py:765-851 | every persisted workload has exactly q = ceil(P/s) samples, all its own, and q*s prompts, which are those sampled from its samples' series and lines of it, and no series is used twice; the count is that of successful uploads, at most ceil(needed/q), equal to it when usable series suffice; otherwise every usable series is used up |
| `Packer.Pack` | validator/app/src/compute_horde_validator/validator/tasks.py:793-850 | the loop computes Packed series by series, is left early only when the need is covered, and at every point draws each prompt from the series of its sample and uses no series twice |
| `Packer.PackedAddsUp` | validator/app/src/compute_horde_validator/validator/tasks.py:793-851 | what Packed adds up to when the loop is left: well-packed workloads, successful uploads, the bound on the count, and every usable series used unless the need is covered |
| `Packer.InitialisedAsNeeded` | validator/app/src/compute_horde_validator/validator/tasks.py:776-850 | a workload is initialised at the start and after each attempt that leaves more to do, and never else |
| `Packer.AbsorbKeepsGood` | validator/app/src/compute_horde_validator/validator/tasks.py:812-850 | one usable series adds one sample, a workload is full exactly at q samples, and the books stay right |
| `Packer.ConsideredKeepsDraw` | validator/app/src/compute_horde_validator/validator/tasks.py:793-817 | considering one more series keeps prompts with their series and series unique |
| `Packer.AllPromptsAreLines` | validator/app/src/compute_horde_validator/validator/tasks.py:812-817 | every prompt of every persisted workload is a line of the series of one of its samples |
| `Packer.ConcludeKeepsBooks` | validator/app/src/compute_horde_validator/validator/tasks.py:819-850 | a full workload is uploaded, counted and persisted or dropped, and the next one started if more is needed |
| `Packer.EnoughSeries` | validator/app/src/compute_horde_validator/validator/tasks.py:838-841 | stopping at the first multiple of q that covers the need gives ceil(needed/q) |
| `Packer.UsableCountIsCardinality` | validator/app/src/compute_horde_validator/validator/tasks.py:795-810 | the usable series are exactly those downloaded with more lines than are sampled |
| `Packer.SuccessesIsCardinality` | validator/app/src/compute_horde_validator/validator/tasks.py:821-836 | the workloads counted are those whose upload succeeded |
| `Packer.FullExactlyAtCeiling` | validator/app/src/compute_horde_validator/validator/tasks.py:819-819 | c samples fill a workload iff c >= ceil(P/s) |
| `SignedPayload.SignatureSurvives` | facilitator/app/src/project/core/models.py:284-308 | every SDK job is stored, and its signed fields survive SDK body, stored row and V2JobRequest if and only if it is not a streaming job with an empty certificate (SDK side: sdk.py lines 523-556) |
| `SignedPayload.JobArrives` | compute_horde_sdk/src/compute_horde_sdk/_internal/sdk.py:523-556 | the request the validator sees has the uuid, namespace, class, image, arguments, environment, limits, flags, artifacts directory, certificate, volumes and uploads the SDK job was described with |
| `SignedPayload.SignaturePinsJob` | compute_horde/compute_horde/fv_protocol/facilitator_requests.py:79-115 | two requests have equal signed fields if and only if they agree on every covered field, up to one versus list of one, none versus empty, and system_output |
| `SignedPayload.VolumesRoundTrip` | compute_horde_sdk/src/compute_horde_sdk/_internal/sdk.py:544-548 | the volumes the SDK dumps are read back unchanged (parsed per api.py line 104) |
| `SignedPayload.UploadsRoundTrip` | compute_horde_sdk/src/compute_horde_sdk/_internal/sdk.py:549-553 | the single-file uploads the SDK dumps are read back unchanged |
| `SignedPayload.VolumeRoundTrip` | compute_horde/compute_horde/fv_protocol/facilitator_requests.py:45-46 | parsing a volume's dump gives the volume |
| `SignedPayload.UploadRoundTrip` | compute_horde/compute_horde/fv_protocol/facilitator_requests.py:45-46 | parsing an upload's dump gives the upload if it is a single-file one and is refused otherwise |
| `SignedPayload.VolumeDumpsInjective` | compute_horde/compute_horde/fv_protocol/facilitator_requests.py:80-86 | different volume lists have different dumps |
| `SignedPayload.UploadDumpsInjective` | compute_horde/compute_horde/fv_protocol/facilitator_requests.py:88-97 | different upload lists have different dumps |

## Left out

- Websocket connections and reconnects, HTTP clients, Docker, nginx, gzip, S3 and the job runner: given as oracles, scripts of events or a reliable channel.
- Cryptography, JSON text and hashing: lines are judged by an oracle, signed payloads compared as records of fields.
- The miner's own logic, scoring, allowances and routing: the miner is an adversary or a relay.
- Cancellation from outside and process crashes, in particular a crash after a checkpoint was saved and before its receipts were inserted.
- Notification hooks that raise: they are taken to return, as are the database writes beside the receipts; a receipt that cannot be sent counts as issued, since the code swallows the error.
- Latency of the validator's own sends: they take no time. On the executor's side the time between a message leaving and the send call returning is modelled.
- Slow clean-up of a cancelled stage on the executor: a failure report leaves at the instant the stage ended.
- Generic-error replies of the executor's client: counted, not placed on the wire.
- Messages of a kind the source's parsers refuse, and the free-text and context parts of failures.
- Concurrent writers to one receipt page, failing deletions, and failing or partial file writes.
- The miner named inside a TransferException: the source's closure reads the loop variable late, so only the number of errors is modelled.
- A page that comes back after its eviction, and a page server that answers with anything but the page as it is at that moment.
- Download.DownloadGet: a server that answers 416 to a request without Range keeps the source's loop running for ever, so the premise on servers excludes it.
- Download jitter, redirects and the archive and Hugging Face downloaders.
- The uploader, whose response cap counts chunks rather than bytes.
- Floating-point rounding in start blocks and in the cycle parity test: exact rationals.
- The debug branch that runs batches at once, the bound on the number of polls (a planner may give up at any time), and the system events.
- Planner rows are values in a step machine rather than objects; the missed check's locks are left out, which only adds runs, and its bulk update is one step per row.
- Packer.CreateSampleWorkloads: prompt counts are taken to be positive, as configured; persist_workload swallows its own errors and is taken to succeed; a need of zero or less still yields up to one workload; if a new workload cannot be initialised the old one is filled again, so workloads are distinct only when every initialisation succeeds.
- Serializer details of the facilitator other than volumes, uploads, blank artifacts directory and streaming certificate.
- Admin pages, settings, migrations, metrics, email, health probes and eviction queries: only easy members.
