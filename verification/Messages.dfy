/** The protocol vocabulary: what a miner may send a validator, and the reasons that travel
    inside failures (compute_horde/compute_horde/protocol_messages.py and protocol_consts.py). */
module Messages {

  datatype Option<+T> = None | Some(value: T)

  datatype Participant = Miner | Executor

  datatype HordeReason =
    | UnknownHorde | Generic | UnhandledException | UnhandledTimeout | StreamingFailed
    | MinerConnectionFailed | InitialResponseTimedOut | ExecutorReadinessTimedOut
    | VolumesTimedOut | StreamingReadyTimedOut | ExecutionTimedOut | FinalResponseTimedOut
    | ExecutorSpinupFailed | ExecutorDisconnected | SecurityCheckFailed

  datatype JobReason = UnknownJob | JobTimeout | NonzeroReturnCode | DownloadFailed | UploadFailed

  datatype JobStage =
    UnknownStage | ExecutorStartup | VolumeDownload | StreamingStartup | ExecutionStage | ResultUpload

  datatype JobOutput = JobOutput(
    stdout: string, stderr: string,
    artifacts: Option<map<string, string>>, uploadResults: Option<map<string, string>>)

  datatype Message =
    | GenericError(details: string)
    | Unauthorized(code: string)
    | Manifest(executors: nat)
    | MainHotkey(hotkey: string)
    | Decline(uuid: string, why: string)
    | Accept(uuid: string)
    | ExecutorFailed(uuid: string)        // legacy
    | StreamingNotReady(uuid: string)     // legacy
    | ExecutorReady(uuid: string)
    | StreamingReady(uuid: string, certificate: string)
    | VolumesReady(uuid: string)
    | ExecutionDone(uuid: string)
    | JobFinished(uuid: string, output: JobOutput)
    | JobFailed(uuid: string, stage: JobStage, jobReason: JobReason)
    | HordeFailed(uuid: string, reportedBy: Participant, hordeReason: HordeReason)
    | MachineSpecs(uuid: string, specs: string)
  {
    predicate HasUuid() {
      !GenericError? && !Unauthorized? && !Manifest? && !MainHotkey?
    }
  }

  /** A message together with the instant at which it was handled or sent. */
  datatype Stamped = Stamped(msg: Message, at: int)

  /** What the validator awaits, in the order of the job's life. */
  datatype Milestone = Accepted | Ready | Volumes | Streaming | Execution | Finished

  /** `OrganicJobDetails.TimingDetails`. */
  datatype Timing = Timing(
    leeway: int, download: int, execution: int, upload: int, streamingStart: int)
  {
    function Total(): int {
      leeway + download + execution + upload + streamingStart
    }

    predicate NonNegative() {
      0 <= leeway && 0 <= download && 0 <= execution && 0 <= upload && 0 <= streamingStart
    }
  }

  /** The job as both ends know it: `timing` absent means single-timeout mode. */
  datatype Job = Job(
    uuid: string, timing: Option<Timing>, totalTimeout: int, streaming: bool,
    value: int, blocks: seq<int>,
    reservationLimit: int, spinupLimit: int, startupLimit: int)
  {
    function ReadinessLimit(): int {
      spinupLimit + startupLimit
    }

    predicate NonNegative() {
      && (timing.Some? ==> timing.value.NonNegative()) && 0 <= totalTimeout
      && 0 <= reservationLimit && 0 <= ReadinessLimit()
    }

    function Budget(m: Milestone): int {
      CumulativeBudget(timing, totalTimeout, streaming, m)
    }
  }

  /** The cumulative budget, counted from the start of the deadline, within which a milestone must be
      met. Both ends extend their deadline stage by stage; this is the closed form those extensions
      must add up to. */
  function CumulativeBudget(timing: Option<Timing>, total: int, streaming: bool, m: Milestone): int {
    match timing
    case None => total
    case Some(t) =>
      t.leeway + t.download
      + (if m == Streaming || (streaming && (m == Execution || m == Finished)) then t.streamingStart else 0)
      + (if m == Execution || m == Finished then t.execution else 0)
      + (if m == Finished then t.upload else 0)
  }
}
