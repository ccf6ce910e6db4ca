/** `JobDriver` and the executor's `MinerClient` as a timed state machine
    (executor/app/src/compute_horde_executor/executor/job_driver.py and miner_client.py).
    Every await is a phase of its own: it may take any time, fail, or be cut off by the deadline -
    including the time between a message leaving and the send call returning. */
module Executor {
  import opened Messages
  import opened Deadlines

  datatype Request =
    | InitialJob(uuid: string, timing: Option<Timing>, timeoutSeconds: Option<int>, streaming: bool)
    | FullJob(uuid: string)
  {
    predicate NonNegative()
      requires InitialJob?
    {
      (timing.Some? ==> timing.value.NonNegative()) && (timeoutSeconds.Some? ==> 0 <= timeoutSeconds.value)
    }

    function Budget(m: Milestone): int
      requires InitialJob?
    {
      CumulativeBudget(timing, if timeoutSeconds.Some? then timeoutSeconds.value else 0, streaming, m)
    }
  }

  /** What the outside world will hand the executor in this run. */
  datatype World = World(startupLimit: int, specs: Option<string>, certificate: string, output: JobOutput)

  datatype Phase =
    | ReadingSpecs | SecurityChecks | AwaitingInitial | PreparingInitial | ReadySent
    | EnteringDownload | AwaitingPayload | Downloading | VolumesSent
    | EnteringExecution | Starting | StreamingSent | Running | ExecutionSent
    | EnteringUpload | Uploading | SpecsSent | FinishedSent
    | Ended(clean: bool)
  {
    predicate Startup() {
      ReadingSpecs? || SecurityChecks? || AwaitingInitial? || PreparingInitial? || ReadySent?
    }

    predicate Entering() {
      EnteringDownload? || EnteringExecution? || EnteringUpload?
    }
  }

  datatype WorkResult = Done | JobErr(jobReason: JobReason) | HordeErr(hordeReason: HordeReason)

  datatype Step = Receive(req: Request) | Elapse(d: nat) | Work(result: WorkResult) | Expire

  /** `readyAt` and `budgetFrom` record when ExecutorReady left and when start-up was over. */
  datatype State = State(
    phase: Phase, clock: int, deadline: Deadline, stage: JobStage,
    initial: Option<Request>, payload: bool, genericErrors: nat,
    readyAt: Option<int>, budgetFrom: Option<int>, sent: seq<Stamped>)
  {
    function Until(): int {
      deadline.start + deadline.timeout
    }
  }

  predicate Coherent(s: State) {
    && (s.initial.Some? ==> s.initial.value.InitialJob?)
    && (!(s.phase.ReadingSpecs? || s.phase.SecurityChecks? || s.phase.AwaitingInitial? || s.phase.Ended?) ==> s.initial.Some?)
  }

  function Init(w: World, now: int): State {
    State(ReadingSpecs, now, Deadline(now, w.startupLimit), UnknownStage, None, false, 0, None, None, [])
  }

  predicate Enabled(s: State, step: Step) {
    match step
    case Receive(_) => !s.phase.Ended?
    case Elapse(d) => s.phase.Ended? || (!s.phase.Entering() && s.clock + d <= s.Until())
    case Work(r) =>
      && !s.phase.Ended?
      && (s.phase.AwaitingInitial? ==> r.Done? && s.initial.Some?)
      && (s.phase.AwaitingPayload? ==> r.Done? && s.payload)
      && (s.phase.Entering() ==> r.Done? && s.clock < s.Until())
    case Expire => !s.phase.Ended? && s.Until() <= s.clock
  }

  function Send(s: State, msg: Message): State {
    s.(sent := s.sent + [Stamped(msg, s.clock)])
  }

  /** The `except` clauses of `execute`. Before an initial request is known there is no job to name,
      and the failure is not reported. */
  function Fail(s: State, r: WorkResult): State
    requires !r.Done?
  {
    var t := s.(phase := Ended(false), budgetFrom := if s.phase.ReadySent? then Some(s.clock) else s.budgetFrom);
    if s.initial.None? then t
    else if r.JobErr? then Send(t, JobFailed(s.initial.value.uuid, s.stage, r.jobReason))
    else Send(t, HordeFailed(s.initial.value.uuid, Executor, r.hordeReason))
  }

  /** `handle_initial_job_request` and `handle_job_request`: each is honoured once, in order. */
  function Receiving(s: State, req: Request): State {
    match req
    case InitialJob(_, _, _, _) =>
      if s.initial.Some? then s.(genericErrors := s.genericErrors + 1) else s.(initial := Some(req))
    case FullJob(_) =>
      if s.initial.None? || s.payload then s.(genericErrors := s.genericErrors + 1) else s.(payload := true)
  }

  function StartBudget(s: State): State
    requires Coherent(s) && s.initial.Some? && s.phase.ReadySent?
  {
    var req := s.initial.value;
    var t := s.(phase := EnteringDownload, budgetFrom := Some(s.clock));
    if req.timing.Some? then
      t.(deadline := Deadline(s.clock, req.timing.value.leeway).Extend(req.timing.value.download))
    else if req.timeoutSeconds.Some? then
      t.(deadline := Deadline(s.clock, req.timeoutSeconds.value))
    else Fail(s, HordeErr(Generic))
  }

  function StartExecution(s: State): State
    requires Coherent(s) && s.initial.Some?
  {
    var req := s.initial.value;
    s.(phase := EnteringExecution,
       deadline := if req.timing.None? then s.deadline
                   else if req.streaming
                   then s.deadline.Extend(req.timing.value.execution).Extend(req.timing.value.streamingStart)
                   else s.deadline.Extend(req.timing.value.execution))
  }

  function StartUpload(s: State): State
    requires Coherent(s) && s.initial.Some?
  {
    var req := s.initial.value;
    s.(phase := EnteringUpload,
       deadline := if req.timing.None? then s.deadline else s.deadline.Extend(req.timing.value.upload))
  }

  function SendFinished(w: World, s: State): State
    requires Coherent(s) && s.initial.Some?
  {
    Send(s.(phase := FinishedSent), JobFinished(s.initial.value.uuid, w.output))
  }

  function Worked(w: World, s: State): State
    requires Coherent(s) && Enabled(s, Work(Done))
  {
    match s.phase
    case ReadingSpecs => s.(phase := SecurityChecks, stage := ExecutorStartup)
    case SecurityChecks => s.(phase := AwaitingInitial)
    case AwaitingInitial => s.(phase := PreparingInitial)
    case PreparingInitial =>
      Send(s.(phase := ReadySent, readyAt := Some(s.clock)), ExecutorReady(s.initial.value.uuid))
    case ReadySent => StartBudget(s)
    case EnteringDownload => s.(phase := AwaitingPayload, stage := VolumeDownload)
    case AwaitingPayload => s.(phase := Downloading)
    case Downloading => Send(s.(phase := VolumesSent), VolumesReady(s.initial.value.uuid))
    case VolumesSent => StartExecution(s)
    case EnteringExecution => s.(phase := Starting, stage := ExecutionStage)
    case Starting =>
      if s.initial.value.streaming
      then Send(s.(phase := StreamingSent), StreamingReady(s.initial.value.uuid, w.certificate))
      else s.(phase := Running)
    case StreamingSent => s.(phase := Running)
    case Running => Send(s.(phase := ExecutionSent), ExecutionDone(s.initial.value.uuid))
    case ExecutionSent => StartUpload(s)
    case EnteringUpload => s.(phase := Uploading, stage := ResultUpload)
    case Uploading =>
      if w.specs.Some? then Send(s.(phase := SpecsSent), MachineSpecs(s.initial.value.uuid, w.specs.value))
      else SendFinished(w, s)
    case SpecsSent => SendFinished(w, s)
    case FinishedSent => s.(phase := Ended(true))
    case Ended(_) => s
  }

  function Next(w: World, s: State, step: Step): (t: State)
    requires Coherent(s) && Enabled(s, step)
    ensures Coherent(t)
  {
    match step
    case Receive(req) => Receiving(s, req)
    case Elapse(d) => s.(clock := s.clock + d)
    case Work(r) => if r.Done? then Worked(w, s) else Fail(s, r)
    case Expire => Fail(s, if s.phase.Startup() then HordeErr(Generic) else JobErr(JobTimeout))
  }

  function After(w: World, now: int, steps: seq<Step>): (r: Option<State>)
    ensures r.Some? ==> Coherent(r.value)
  {
    if steps == [] then Some(Init(w, now))
    else
      var before := After(w, now, steps[..|steps| - 1]);
      var step := steps[|steps| - 1];
      if before.Some? && Enabled(before.value, step) then Some(Next(w, before.value, step)) else None
  }

  // ----- what goes out, and when

  /** What a fully successful executor says, position by position: Ready, VolumesReady, StreamingReady
      when streaming, ExecutionDone, MachineSpecs when known, JobFinished. */
  function ScriptAt(w: World, req: Request, n: nat): Message
    requires req.InitialJob?
  {
    var done := if req.streaming then 3 else 2;
    if n == 0 then ExecutorReady(req.uuid)
    else if n == 1 then VolumesReady(req.uuid)
    else if n < done then StreamingReady(req.uuid, w.certificate)
    else if n == done then ExecutionDone(req.uuid)
    else if n == done + 1 && w.specs.Some? then MachineSpecs(req.uuid, w.specs.value)
    else JobFinished(req.uuid, w.output)
  }

  function ScriptLength(w: World, req: Request): nat
    requires req.InitialJob?
  {
    4 + (if req.streaming then 1 else 0) + (if w.specs.Some? then 1 else 0)
  }

  ghost predicate Follows(w: World, req: Request, sent: seq<Stamped>, n: nat)
    requires req.InitialJob?
  {
    n <= |sent| && n <= ScriptLength(w, req)
    && forall i :: 0 <= i < n ==> sent[i].msg == ScriptAt(w, req, i)
  }

  /** How much of the script has been said on reaching a phase. */
  function Said(p: Phase, streaming: bool, specs: bool): nat {
    var extra := if streaming then 1 else 0;
    match p
    case ReadingSpecs => 0 case SecurityChecks => 0 case AwaitingInitial => 0 case PreparingInitial => 0
    case ReadySent => 1 case EnteringDownload => 1 case AwaitingPayload => 1 case Downloading => 1
    case VolumesSent => 2 case EnteringExecution => 2 case Starting => 2
    case StreamingSent => 3
    case Running => 2 + extra
    case ExecutionSent => 3 + extra case EnteringUpload => 3 + extra case Uploading => 3 + extra
    case SpecsSent => 4 + extra
    case FinishedSent => 4 + extra + (if specs then 1 else 0)
    case Ended(_) => 4 + extra + (if specs then 1 else 0)
  }

  predicate IsFailure(m: Message) {
    m.JobFailed? || m.HordeFailed?
  }

  /** A prefix of the script and one failure report, naming the job. */
  ghost predicate ClosedByFailure(w: World, req: Request, sent: seq<Stamped>)
    requires req.InitialJob?
  {
    && |sent| > 0 && Follows(w, req, sent, |sent| - 1)
    && IsFailure(sent[|sent| - 1].msg) && sent[|sent| - 1].msg.uuid == req.uuid
  }

  ghost predicate ShapeOk(w: World, s: State)
    requires Coherent(s)
  {
    && (s.initial.None? ==> s.sent == [])
    && (s.initial.Some? ==>
         if s.phase.Ended? && !s.phase.clean then ClosedByFailure(w, s.initial.value, s.sent)
         else
           && |s.sent| == Said(s.phase, s.initial.value.streaming, w.specs.Some?)
           && Follows(w, s.initial.value, s.sent, |s.sent|))
    && (s.phase.StreamingSent? ==> s.initial.Some? && s.initial.value.streaming)
    && (s.phase.SpecsSent? ==> w.specs.Some?)
    && (s.phase.Ended? && s.phase.clean ==> s.initial.Some?)
  }

  lemma WorkKeepsBearings(w: World, s: State)
    requires Coherent(s) && Enabled(s, Work(Done)) && s.initial.Some?
    requires s.phase.StreamingSent? ==> s.initial.value.streaming
    requires s.phase.SpecsSent? ==> w.specs.Some?
    requires s.phase.ReadySent? ==> s.initial.value.timing.Some? || s.initial.value.timeoutSeconds.Some?
    ensures
      var t := Worked(w, s);
      && t.initial == s.initial && (t.phase.Ended? ==> t.phase.clean)
      && (t.phase.StreamingSent? ==> s.initial.value.streaming) && (t.phase.SpecsSent? ==> w.specs.Some?)
      && Said(t.phase, s.initial.value.streaming, w.specs.Some?) <= ScriptLength(w, s.initial.value)
  {
  }

  /** One step of the script: nothing new was said, or exactly the next message was. */
  predicate SpeaksScript(w: World, s: State, t: State)
    requires s.initial.Some? && s.initial.value.InitialJob?
  {
    var req := s.initial.value;
    var n, n' := Said(s.phase, req.streaming, w.specs.Some?), Said(t.phase, req.streaming, w.specs.Some?);
    n <= n' <= n + 1 && t.sent == s.sent + if n' == n then [] else [Stamped(ScriptAt(w, req, n), s.clock)]
  }

  predicate Early(p: Phase) {
    p.Startup() || p.EnteringDownload? || p.AwaitingPayload? || p.Downloading? || p.VolumesSent?
  }

  lemma EarlyWorkFollowsScript(w: World, s: State)
    requires Coherent(s) && Enabled(s, Work(Done)) && s.initial.Some?
    requires Early(s.phase)
    requires s.phase.ReadySent? ==> s.initial.value.timing.Some? || s.initial.value.timeoutSeconds.Some?
    ensures SpeaksScript(w, s, Worked(w, s))
  {
  }

  /** Progress through the phases is progress through the script, one message at a time. */
  lemma WorkFollowsScript(w: World, s: State)
    requires Coherent(s) && Enabled(s, Work(Done)) && s.initial.Some?
    requires s.phase.StreamingSent? ==> s.initial.value.streaming
    requires s.phase.SpecsSent? ==> w.specs.Some?
    requires s.phase.ReadySent? ==> s.initial.value.timing.Some? || s.initial.value.timeoutSeconds.Some?
    ensures SpeaksScript(w, s, Worked(w, s))
  {
    if Early(s.phase) {
      EarlyWorkFollowsScript(w, s);
    }
  }

  lemma WorkKeepsShape(w: World, s: State)
    requires Coherent(s) && ShapeOk(w, s) && Enabled(s, Work(Done))
    ensures ShapeOk(w, Next(w, s, Work(Done)))
  {
    if s.initial.Some? {
      if s.phase.ReadySent? && s.initial.value.timing.None? && s.initial.value.timeoutSeconds.None? {
        FailKeepsShape(w, s, HordeErr(Generic));
      } else {
        WorkKeepsBearings(w, s);
        WorkFollowsScript(w, s);
      }
    }
  }

  lemma FailKeepsShape(w: World, s: State, r: WorkResult)
    requires Coherent(s) && !s.phase.Ended? && !r.Done? && ShapeOk(w, s)
    ensures ShapeOk(w, Fail(s, r))
  {
    if s.initial.Some? {
      var t := Fail(s, r);
      assert t.sent[..|s.sent|] == s.sent;
      assert Follows(w, s.initial.value, t.sent, |s.sent|);
    }
  }

  /** Each message is the script's at its position, or the one failure report at the end. */
  lemma SentIsScriptOrFailure(w: World, s: State, i: nat)
    requires Coherent(s) && ShapeOk(w, s) && i < |s.sent|
    ensures s.initial.Some?
    ensures (i < ScriptLength(w, s.initial.value) && s.sent[i].msg == ScriptAt(w, s.initial.value, i))
      || (i == |s.sent| - 1 && IsFailure(s.sent[i].msg) && s.sent[i].msg.uuid == s.initial.value.uuid)
  {
  }

  lemma ScriptWords(w: World, req: Request, n: nat)
    requires req.InitialJob?
    ensures var msg := ScriptAt(w, req, n);
      && msg.HasUuid() && msg.uuid == req.uuid && !IsFailure(msg) && !msg.Accept? && !msg.Decline?
      && !msg.ExecutorFailed? && !msg.StreamingNotReady?
      && (msg.JobFinished? && n < ScriptLength(w, req) ==> n == ScriptLength(w, req) - 1)
  {
  }

  // ----- deadlines

  /** The milestone whose cumulative budget bounds a phase, once start-up is over. */
  function Bounding(p: Phase): Milestone {
    match p
    case EnteringExecution => Execution case Starting => Execution case StreamingSent => Execution
    case Running => Execution case ExecutionSent => Execution
    case EnteringUpload => Finished case Uploading => Finished case SpecsSent => Finished case FinishedSent => Finished
    case Ended(_) => Finished
    case _ => Volumes
  }

  /** The budget within which the i-th message, script or failure, must have left. */
  function Due(req: Request, i: nat): int
    requires req.InitialJob?
  {
    if i <= 1 then req.Budget(Volumes)
    else if i <= 2 + (if req.streaming then 1 else 0) then req.Budget(Execution)
    else req.Budget(Finished)
  }

  predicate OriginOk(s: State) {
    && (s.readyAt.Some? ==> |s.sent| > 0 && s.sent[0].msg.ExecutorReady?)
    && (s.readyAt.Some? ==> s.sent[0].at == s.readyAt.value <= s.clock)
    && (s.readyAt.None? ==> |s.sent| <= 1 && s.budgetFrom.None? && (|s.sent| == 1 ==> IsFailure(s.sent[0].msg)))
    && (s.budgetFrom.Some? ==> s.readyAt.Some? && s.readyAt.value <= s.budgetFrom.value <= s.clock)
    && (!s.phase.Ended? ==> (s.readyAt.Some? <==> (s.phase.ReadySent? || !s.phase.Startup())))
    && (!s.phase.Ended? ==> (s.budgetFrom.Some? <==> !s.phase.Startup()))
    && (s.phase.Ended? && s.readyAt.Some? ==> s.budgetFrom.Some?)
  }

  predicate DeadlineOk(s: State)
    requires Coherent(s)
  {
    s.initial.Some? && s.budgetFrom.Some? && !s.phase.Ended? ==>
      && s.deadline == Deadline(s.budgetFrom.value, s.initial.value.Budget(Bounding(s.phase)))
      && (s.initial.value.NonNegative() ==> s.clock <= s.Until())
  }

  /** The i-th message left within its cumulative budget. */
  predicate Punctual(s: State, i: nat)
    requires Coherent(s) && i < |s.sent|
  {
    && s.budgetFrom.Some? && s.initial.Some?
    && (s.initial.value.NonNegative() ==> s.sent[i].at <= s.budgetFrom.value + Due(s.initial.value, i))
  }

  ghost predicate PunctualOk(s: State)
    requires Coherent(s)
  {
    && (forall i :: 0 <= i < |s.sent| ==> s.sent[i].at <= s.clock)
    && (forall i :: 1 <= i < |s.sent| ==> Punctual(s, i))
  }

  /** Nothing beyond readiness is claimed before the full job request has arrived. */
  predicate PayloadOk(s: State) {
    && (!s.phase.Startup() && !s.phase.EnteringDownload? && !s.phase.AwaitingPayload? && !s.phase.Ended? ==> s.payload)
    && (|s.sent| >= 2 && !IsFailure(s.sent[1].msg) ==> s.payload)
  }

  ghost predicate Inv(w: World, s: State) {
    Coherent(s) && PayloadOk(s) && ShapeOk(w, s) && OriginOk(s) && DeadlineOk(s) && PunctualOk(s)
  }

  lemma InitInv(w: World, now: int)
    ensures Inv(w, Init(w, now))
  {
  }

  lemma WorkKeepsOrigin(w: World, s: State)
    requires Coherent(s) && OriginOk(s) && Enabled(s, Work(Done))
    requires s.phase.PreparingInitial? ==> s.sent == []
    requires s.phase.ReadySent? || s.phase.EnteringDownload? || s.phase.AwaitingPayload? ==> |s.sent| == 1
    requires PayloadOk(s)
    ensures OriginOk(Worked(w, s)) && PayloadOk(Worked(w, s))
  {
  }

  lemma WorkWithinStage(w: World, s: State)
    requires Coherent(s) && Enabled(s, Work(Done))
    requires !s.phase.ReadySent? && !s.phase.VolumesSent? && !s.phase.ExecutionSent?
    ensures var t := Worked(w, s);
      && t.deadline == s.deadline && t.clock == s.clock && t.initial == s.initial && t.budgetFrom == s.budgetFrom
      && (t.phase.Ended? || Bounding(t.phase) == Bounding(s.phase))
  {
  }

  lemma WorkKeepsDeadline(w: World, s: State)
    requires Coherent(s) && OriginOk(s) && DeadlineOk(s) && Enabled(s, Work(Done))
    ensures DeadlineOk(Worked(w, s))
  {
    if s.phase.ReadySent? {
    } else if s.phase.VolumesSent? {
    } else if s.phase.ExecutionSent? {
    } else {
      WorkWithinStage(w, s);
    }
  }

  lemma OldMessagesStayPunctual(s: State, t: State)
    requires Coherent(s) && Coherent(t) && PunctualOk(s) && s.sent <= t.sent
    requires t.initial == s.initial && (t.budgetFrom == s.budgetFrom || |s.sent| <= 1)
    ensures forall i :: 1 <= i < |s.sent| ==> Punctual(t, i)
  {
    forall i | 1 <= i < |s.sent|
      ensures Punctual(t, i)
    {
      assert Punctual(s, i);
    }
  }

  lemma FailKeepsTime(w: World, s: State, r: WorkResult)
    requires Inv(w, s) && !s.phase.Ended? && !r.Done?
    ensures OriginOk(Fail(s, r)) && DeadlineOk(Fail(s, r)) && PunctualOk(Fail(s, r)) && PayloadOk(Fail(s, r))
  {
    var t := Fail(s, r);
    OldMessagesStayPunctual(s, t);
    if |t.sent| > |s.sent| > 0 {
      if s.initial.value.NonNegative() {
        BudgetsGrow(s.initial.value);
        if !s.phase.ReadySent? { PhaseWithinDue(s.initial.value, s.phase, w.specs.Some?); }
      }
      assert Punctual(t, |s.sent|);
    }
  }

  lemma BudgetsGrow(req: Request)
    requires req.InitialJob? && req.NonNegative()
    ensures 0 <= req.Budget(Volumes) <= req.Budget(Execution) <= req.Budget(Finished)
  {
  }

  lemma PhaseWithinDue(req: Request, p: Phase, specs: bool)
    requires req.InitialJob? && req.NonNegative() && !p.Startup() && !p.Ended?
    ensures req.Budget(Bounding(p)) <= Due(req, Said(p, req.streaming, specs))
  {
    BudgetsGrow(req);
  }

  lemma WorkKeepsPunctual(w: World, s: State)
    requires Inv(w, s) && Enabled(s, Work(Done)) && s.initial.Some?
    requires s.phase.ReadySent? ==> s.initial.value.timing.Some? || s.initial.value.timeoutSeconds.Some?
    ensures PunctualOk(Worked(w, s))
  {
    var t := Worked(w, s);
    WorkFollowsScript(w, s);
    WorkKeepsFacts(w, s);
    if |t.sent| > |s.sent| > 0 {
      assert forall i :: 0 <= i < |s.sent| ==> t.sent[i] == s.sent[i];
      if s.initial.value.NonNegative() { PhaseWithinDue(s.initial.value, s.phase, w.specs.Some?); }
      assert Punctual(t, |s.sent|);
    }
    OldMessagesStayPunctual(s, t);
  }

  lemma WorkKeepsFacts(w: World, s: State)
    requires Coherent(s) && Enabled(s, Work(Done)) && s.initial.Some?
    requires s.phase.ReadySent? ==> s.initial.value.timing.Some? || s.initial.value.timeoutSeconds.Some?
    ensures var t := Worked(w, s);
      && t.initial == s.initial && t.clock == s.clock
      && (!s.phase.ReadySent? ==> t.budgetFrom == s.budgetFrom)
  {
  }

  lemma WorkKeepsInv(w: World, s: State)
    requires Inv(w, s) && Enabled(s, Work(Done))
    ensures Inv(w, Next(w, s, Work(Done)))
  {
    WorkKeepsShape(w, s);
    WorkKeepsOrigin(w, s);
    WorkKeepsDeadline(w, s);
    if s.initial.Some? {
      if s.phase.ReadySent? && s.initial.value.timing.None? && s.initial.value.timeoutSeconds.None? {
        FailKeepsTime(w, s, HordeErr(Generic));
      } else {
        WorkKeepsPunctual(w, s);
      }
    }
  }

  lemma StepKeepsInv(w: World, s: State, step: Step)
    requires Inv(w, s) && Enabled(s, step)
    ensures Inv(w, Next(w, s, step))
  {
    match step
    case Receive(req) => if s.initial.Some? { OldMessagesStayPunctual(s, Next(w, s, step)); }
    case Elapse(d) => OldMessagesStayPunctual(s, Next(w, s, step));
    case Work(r) =>
      if r.Done? {
        WorkKeepsInv(w, s);
      } else {
        FailKeepsShape(w, s, r);
        FailKeepsTime(w, s, r);
      }
    case Expire =>
      var r := if s.phase.Startup() then HordeErr(Generic) else JobErr(JobTimeout);
      FailKeepsShape(w, s, r);
      FailKeepsTime(w, s, r);
  }

  lemma {:induction false} Reachable(w: World, now: int, steps: seq<Step>)
    requires After(w, now, steps).Some?
    ensures Inv(w, After(w, now, steps).value)
  {
    if steps == [] {
      InitInv(w, now);
    } else {
      Reachable(w, now, steps[..|steps| - 1]);
      StepKeepsInv(w, After(w, now, steps[..|steps| - 1]).value, steps[|steps| - 1]);
    }
  }

  /** Every trace is a prefix of the script, plus at most one failure report, which is last and names
      the job; a clean end means the whole script was said. Without an initial request nothing was. */
  lemma TraceIsScriptThenAtMostOneFailure(w: World, now: int, steps: seq<Step>)
    requires After(w, now, steps).Some?
    ensures
      var s := After(w, now, steps).value;
      && (s.initial.None? ==> s.sent == [])
      && (s.initial.Some? && s.phase == Ended(false) ==> ClosedByFailure(w, s.initial.value, s.sent))
      && (s.initial.Some? && s.phase != Ended(false) ==> Follows(w, s.initial.value, s.sent, |s.sent|))
      && (s.phase == Ended(true) ==> s.initial.Some?)
      && (s.phase == Ended(true) ==> |s.sent| == ScriptLength(w, s.initial.value))
  {
    Reachable(w, now, steps);
  }

  /** The executor never speaks past its own cumulative deadline. */
  lemma MessagesLeaveInTime(w: World, now: int, steps: seq<Step>)
    requires After(w, now, steps).Some?
    ensures
      var s := After(w, now, steps).value;
      forall i :: 1 <= i < |s.sent| ==> Punctual(s, i)
  {
    Reachable(w, now, steps);
  }

  predicate UpToExecution(p: Phase) {
    p.EnteringExecution? || p.Starting? || p.StreamingSent? || p.Running? || p.ExecutionSent?
  }

  /** Start-up as a whole has its own limit, from the beginning. */
  lemma {:induction false} StartupDeadline(w: World, now: int, steps: seq<Step>)
    requires After(w, now, steps).Some?
    ensures var s := After(w, now, steps).value;
      s.phase.Startup() ==> s.deadline == Deadline(now, w.startupLimit) && s.Until() == now + w.startupLimit
  {
    if steps != [] && After(w, now, steps).value.phase.Startup() {
      StartupDeadline(w, now, steps[..|steps| - 1]);
      StartupKeepsDeadline(w, After(w, now, steps[..|steps| - 1]).value, steps[|steps| - 1]);
    }
  }

  lemma StartupKeepsDeadline(w: World, s: State, step: Step)
    requires Coherent(s) && Enabled(s, step) && Next(w, s, step).phase.Startup()
    ensures s.phase.Startup() && Next(w, s, step).deadline == s.deadline
  {
  }

  /** The deadline of each phase after start-up, in terms of the request's own limits. */
  lemma DeadlinesInWords(w: World, now: int, steps: seq<Step>)
    requires After(w, now, steps).Some?
    ensures
      var s := After(w, now, steps).value;
      !s.phase.Ended? && !s.phase.Startup() ==>
        && s.initial.Some? && s.budgetFrom.Some? && s.deadline.start == s.budgetFrom.value
        && match s.initial.value.timing
           case None =>
             var timeout := s.initial.value.timeoutSeconds;
             timeout.Some? ==> s.deadline.timeout == timeout.value
           case Some(t) =>
             var begun := t.leeway + t.download;
             var executed := begun + t.execution + if s.initial.value.streaming then t.streamingStart else 0;
             s.deadline.timeout ==
               if Early(s.phase) then begun
               else if UpToExecution(s.phase) then executed
               else executed + t.upload
  {
    Reachable(w, now, steps);
  }

  // ----- which failure is reported

  /** A stage is current from its first await until the next stage is entered. */
  predicate InStage(p: Phase, stage: JobStage) {
    && (p.ReadingSpecs? ==> stage == UnknownStage)
    && ((p.Startup() && !p.ReadingSpecs?) || p.EnteringDownload? ==> stage == ExecutorStartup)
    && (p.AwaitingPayload? || p.Downloading? || p.VolumesSent? || p.EnteringExecution? ==> stage == VolumeDownload)
    && (p.Starting? || p.StreamingSent? || p.Running? || p.ExecutionSent? || p.EnteringUpload? ==> stage == ExecutionStage)
    && (p.Uploading? || p.SpecsSent? || p.FinishedSent? ==> stage == ResultUpload)
  }

  /** What is reported when phase `p` ends with the given step: errors of the job and of the horde as they are, a
      deadline that passes as a horde failure during start-up and as a timeout of the job afterwards. */
  predicate ReportOf(msg: Message, p: Phase, step: Step, uuid: string) {
    && (step.Work? && step.result.JobErr? ==>
          msg.JobFailed? && msg.uuid == uuid && msg.jobReason == step.result.jobReason && InStage(p, msg.stage))
    && (step.Work? && step.result.HordeErr? ==> msg == HordeFailed(uuid, Executor, step.result.hordeReason))
    && (step.Expire? && p.Startup() ==> msg == HordeFailed(uuid, Executor, Generic))
    && (step.Expire? && !p.Startup() ==>
          msg.JobFailed? && msg.uuid == uuid && msg.jobReason == JobTimeout && InStage(p, msg.stage))
    && (step.Work? && step.result.Done? ==> p.ReadySent? && msg == HordeFailed(uuid, Executor, Generic))
  }

  lemma {:induction false} AlwaysInStage(w: World, now: int, steps: seq<Step>)
    requires After(w, now, steps).Some?
    ensures InStage(After(w, now, steps).value.phase, After(w, now, steps).value.stage)
  {
    if steps != [] {
      AlwaysInStage(w, now, steps[..|steps| - 1]);
      StepKeepsStage(w, After(w, now, steps[..|steps| - 1]).value, steps[|steps| - 1]);
    }
  }

  lemma StepKeepsStage(w: World, s: State, step: Step)
    requires Coherent(s) && Enabled(s, step) && InStage(s.phase, s.stage)
    ensures InStage(Next(w, s, step).phase, Next(w, s, step).stage)
  {
    if step == Work(Done) { WorkKeepsStage(w, s); }
  }

  lemma WorkKeepsStage(w: World, s: State)
    requires Coherent(s) && Enabled(s, Work(Done)) && InStage(s.phase, s.stage)
    ensures InStage(Worked(w, s).phase, Worked(w, s).stage)
  {
  }

  /** A step that ends the run uncleanly says exactly one thing more, and says why it ended; without a known job it
      says nothing. */
  lemma EndingSaysWhy(w: World, s: State, step: Step)
    requires Coherent(s) && Enabled(s, step) && InStage(s.phase, s.stage)
    requires !s.phase.Ended? && Next(w, s, step).phase == Ended(false)
    ensures var t := Next(w, s, step);
      && (s.initial.None? ==> t.sent == s.sent)
      && (s.initial.Some? ==>
            && |t.sent| == |s.sent| + 1 && t.sent == s.sent + [t.sent[|s.sent|]] && t.sent[|s.sent|].at == s.clock
            && ReportOf(t.sent[|s.sent|].msg, s.phase, step, s.initial.value.uuid))
  {
  }

  /** The n-th step ended the run uncleanly, and the last message says why. */
  ghost predicate EndedBecause(w: World, now: int, steps: seq<Step>, n: nat)
    requires After(w, now, steps).Some?
  {
    && n < |steps| && After(w, now, steps[..n]).Some?
    && var before, after := After(w, now, steps[..n]).value, After(w, now, steps).value;
       && !before.phase.Ended? && after.initial == before.initial
       && (before.initial.Some? ==>
             && |after.sent| == |before.sent| + 1 && before.sent <= after.sent
             && ReportOf(after.sent[|before.sent|].msg, before.phase, steps[n], before.initial.value.uuid))
       && (before.initial.None? ==> after.sent == [])
  }

  /** In every run that ended uncleanly, the last message reports the step that ended it. */
  lemma {:induction false} UncleanEndIsReported(w: World, now: int, steps: seq<Step>) returns (n: nat)
    requires After(w, now, steps).Some? && After(w, now, steps).value.phase == Ended(false)
    ensures EndedBecause(w, now, steps, n)
  {
    var init := steps[..|steps| - 1];
    var s, step := After(w, now, init).value, steps[|steps| - 1];
    if s.phase.Ended? {
      n := UncleanEndIsReported(w, now, init);
      assert steps[..n] == init[..n] && steps[n] == init[n];
    } else {
      n := |steps| - 1;
      LastStepEnded(w, now, steps);
    }
  }

  lemma LastStepEnded(w: World, now: int, steps: seq<Step>)
    requires After(w, now, steps).Some? && After(w, now, steps).value.phase == Ended(false)
    requires steps != [] && !After(w, now, steps[..|steps| - 1]).value.phase.Ended?
    ensures EndedBecause(w, now, steps, |steps| - 1)
  {
    var init := steps[..|steps| - 1];
    var s, step := After(w, now, init).value, steps[|steps| - 1];
    AlwaysInStage(w, now, init);
    EndingSaysWhy(w, s, step);
    EndingKeepsInitial(w, s, step);
    Reachable(w, now, init);
  }

  lemma EndingKeepsInitial(w: World, s: State, step: Step)
    requires Coherent(s) && Enabled(s, step) && !s.phase.Ended? && Next(w, s, step).phase.Ended?
    ensures Next(w, s, step).initial == s.initial
  {
  }
}
