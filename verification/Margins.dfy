/** How prompt the relay must be, exactly: the margins of `Punctuality` cannot be lowered, and where no run
    could make the validator give up first, the reason is stated. */
module Margins {
  import opened Messages
  import C = Client
  import V = Validator
  import E = Executor
  import opened System
  import opened Punctuality

  // ----- what must have happened before the validator can wait for streaming

  /** The executor has announced its volumes. */
  predicate SaysVolumes(e: E.State) {
    |e.sent| >= 2 && !E.IsFailure(e.sent[1].msg)
  }

  predicate PastEntry(e: E.State) {
    !e.phase.Startup() && !e.phase.EnteringDownload? && !e.phase.Ended?
  }

  /** When things happened, counted from the beginning: VolumesReady leaves after the validator's deadline started,
      and only if there was any time for the download. */
  predicate TimelineOk(cfg: Config, now: int, s: State) {
    && now <= s.v.clock && (s.e.readyAt.Some? ==> now <= s.e.readyAt.value)
    && (s.v.pc == V.Awaiting(Accepted) ==> s.v.waitUntil == now + cfg.job.reservationLimit)
    && (s.v.acceptedAt.Some? ==> s.v.acceptedAt.value <= now + cfg.job.reservationLimit)
    && (s.v.deadline.Some? ==> s.v.deadline.value.start <= s.v.clock)
    && (PastEntry(s.e) ==> 0 < cfg.job.Budget(Volumes))
    && (SaysVolumes(s.e) ==>
          0 < cfg.job.Budget(Volumes) && s.v.deadline.Some? && s.v.deadline.value.start <= s.e.sent[1].at)
  }

  lemma ValidatorKeepsTimeline(cfg: Config, now: int, s: State, step: Step)
    requires V.Inv(cfg.job, s.v) && E.PayloadOk(s.e) && JointOk(cfg, s) && Coherent(s) && cfg.job.NonNegative()
    requires TimelineOk(cfg, now, s) && Possible(cfg, s, step)
    requires (step.Relay? || step.ValidatorResumes? || step.ValidatorExpires?)
    ensures TimelineOk(cfg, now, Next(cfg, s, step))
  {
    if step.ValidatorResumes? && s.v.pc.m.Ready? {
      assert V.WaitOk(cfg.job, s.v);
      assert !SaysVolumes(s.e);
    }
  }

  lemma EntryKeepsTimeline(cfg: Config, e: E.State)
    requires E.Coherent(e) && E.OriginOk(e) && E.DeadlineOk(e)
    requires (e.initial.Some? ==> e.initial.value == RequestOf(cfg.job))
    requires e.phase.EnteringDownload? && E.Enabled(e, E.Work(E.Done))
    ensures 0 < cfg.job.Budget(Volumes)
  {
  }

  /** The second message leaves on completing the download, and keeps its place. */
  lemma WorkSaysVolumes(w: E.World, e: E.State)
    requires E.Coherent(e) && E.Enabled(e, E.Work(E.Done))
    requires e.initial.None? ==> e.sent == []
    requires e.initial.Some? ==> |e.sent| == E.Said(e.phase, e.initial.value.streaming, w.specs.Some?)
    requires e.phase.StreamingSent? ==> e.initial.Some? && e.initial.value.streaming
    ensures var t := E.Worked(w, e);
      && (|e.sent| >= 2 ==> |t.sent| >= 2 && t.sent[1] == e.sent[1])
      && (|e.sent| < 2 && SaysVolumes(t) ==> e.phase.Downloading? && t.sent[1].at == e.clock)
  {
  }

  lemma WorkKeepsPhase(w: E.World, e: E.State)
    requires E.Coherent(e) && E.Enabled(e, E.Work(E.Done))
    ensures var t := E.Worked(w, e);
      && t.clock == e.clock && (PastEntry(t) ==> PastEntry(e) || e.phase.EnteringDownload?)
      && (t.readyAt == e.readyAt || t.readyAt == Some(e.clock))
  {
  }

  lemma WorkKeepsTimeline(cfg: Config, now: int, s: State)
    requires Inv(cfg, s) && TimelineOk(cfg, now, s) && s.launched && E.Enabled(s.e, E.Work(E.Done))
    ensures TimelineOk(cfg, now, s.(e := E.Worked(cfg.world, s.e)))
  {
    WorkKeepsPhase(cfg.world, s.e);
    if s.e.phase.EnteringDownload? { EntryKeepsTimeline(cfg, s.e); }
    if s.e.initial.Some? { ShapeSays(cfg.world, s.e); }
    WorkSaysVolumes(cfg.world, s.e);
  }

  lemma ShapeSays(w: E.World, e: E.State)
    requires E.Coherent(e) && E.ShapeOk(w, e) && !e.phase.Ended? && e.initial.Some?
    ensures |e.sent| == E.Said(e.phase, e.initial.value.streaming, w.specs.Some?)
    ensures |e.sent| >= 2 ==> SaysVolumes(e)
  {
    if |e.sent| >= 2 { E.ScriptWords(w, e.initial.value, 1); }
  }

  lemma ExecutorKeepsTimeline(cfg: Config, now: int, s: State, step: Step)
    requires Inv(cfg, s) && TimelineOk(cfg, now, s) && Possible(cfg, s, step) && IsExecutorStep(step)
    ensures TimelineOk(cfg, now, Next(cfg, s, step))
  {
    if step == ExecutorWorks(E.Done) {
      WorkKeepsTimeline(cfg, now, s);
    } else {
      OtherStepsSayNothing(cfg.world, s.e, ExecutorStep(cfg, step));
    }
  }

  /** Requests and failures announce nothing. */
  lemma OtherStepsSayNothing(w: E.World, e: E.State, step: E.Step)
    requires E.Coherent(e) && E.Enabled(e, step) && !step.Elapse? && step != E.Work(E.Done)
    ensures var t := E.Next(w, e, step);
      && t.clock == e.clock && t.readyAt == e.readyAt && (PastEntry(t) ==> PastEntry(e))
      && (SaysVolumes(t) ==> SaysVolumes(e) && t.sent[1] == e.sent[1])
  {
  }

  lemma StepKeepsTimeline(cfg: Config, now: int, s: State, step: Step)
    requires Inv(cfg, s) && TimelineOk(cfg, now, s) && Possible(cfg, s, step) && cfg.job.NonNegative()
    ensures TimelineOk(cfg, now, Next(cfg, s, step))
  {
    if IsExecutorStep(step) {
      ExecutorKeepsTimeline(cfg, now, s, step);
    } else if step.Relay? || step.ValidatorResumes? || step.ValidatorExpires? {
      ValidatorKeepsTimeline(cfg, now, s, step);
    }
  }

  lemma {:induction false} AlwaysTimelineOk(cfg: Config, now: int, steps: seq<Step>)
    requires After(cfg, now, steps).Some? && cfg.job.NonNegative()
    ensures TimelineOk(cfg, now, After(cfg, now, steps).value)
  {
    if steps != [] {
      var init := steps[..|steps| - 1];
      Reachable(cfg, now, init);
      AlwaysTimelineOk(cfg, now, init);
      StepKeepsTimeline(cfg, now, After(cfg, now, init).value, steps[|steps| - 1]);
    }
  }

  /** A validator that gave up on streaming has seen VolumesReady, the executor's second message. */
  lemma VolumesWereSeen(cfg: Config, s: State)
    requires Inv(cfg, s) && GaveUpOn(s, Streaming)
    ensures cfg.job.streaming && SaysVolumes(s.e)
  {
    var i := VolumesArrived(cfg.job, s.v);
    WireMessage(cfg, s, i);
    VolumesIsSecond(cfg.world, s.e, Origin(s, i));
  }

  lemma VolumesArrived(job: Job, v: V.State) returns (i: nat)
    requires V.Inv(job, v) && v.pc.Raised? && v.pc.error == V.TimedOut(Streaming)
    ensures job.streaming && i < |v.seen| && v.seen[i].msg.VolumesReady?
  {
    assert V.Needed(job, Volumes) && V.Rank(Volumes) < V.Rank(Streaming);
    assert v.client.Get(Volumes).Result?;
    assert C.Decided(job.uuid, v.seen, Volumes, v.client.Get(Volumes));
    i :| C.FirstSettlingIs(job.uuid, v.seen, Volumes, i) && C.Meets(job.uuid, v.seen[i].msg, Volumes);
  }

  lemma VolumesIsSecond(w: E.World, e: E.State, i: nat)
    requires E.Coherent(e) && E.ShapeOk(w, e) && i < |e.sent| && e.sent[i].msg.VolumesReady?
    ensures SaysVolumes(e)
  {
    E.SentIsScriptOrFailure(w, e, i);
    E.SentIsScriptOrFailure(w, e, 0);
  }

  /** The relay's gain on ExecutorReady is bounded by the time the executor could wait for its job, and by the time
      the validator waits for the executor. */
  lemma GainIsBounded(cfg: Config, now: int, s: State)
    requires Inv(cfg, s) && ReadyOk(s) && PolicyOk(cfg.policy, s) && TimelineOk(cfg, now, s)
    requires cfg.policy.Prompt? && cfg.job.NonNegative() && SaysVolumes(s.e)
    ensures 0 < cfg.job.Budget(Volumes) && cfg.policy.slack <= cfg.job.Budget(Volumes)
    ensures cfg.policy.slack <= cfg.job.reservationLimit + cfg.job.ReadinessLimit()
  {
    assert E.Punctual(s.e, 1);
  }

  // ----- building runs

  ghost predicate Reaches(cfg: Config, now: int, s: State) {
    exists steps :: After(cfg, now, steps) == Some(s)
  }

  lemma Go(cfg: Config, now: int, s: State, step: Step) returns (t: State)
    requires Coherent(s) && Reaches(cfg, now, s) && Enabled(cfg, s, step)
    ensures Coherent(t) && t == Next(cfg, s, step) && Reaches(cfg, now, t)
  {
    var steps :| After(cfg, now, steps) == Some(s);
    assert (steps + [step])[..|steps + [step]| - 1] == steps;
    assert After(cfg, now, steps + [step]) == Some(Next(cfg, s, step));
    t := Next(cfg, s, step);
  }

  /** The executor completes its current phase. */
  lemma GoWork(cfg: Config, now: int, s: State) returns (t: State)
    requires Coherent(s) && Reaches(cfg, now, s) && s.launched && E.Enabled(s.e, E.Work(E.Done))
    requires var e := E.Worked(cfg.world, s.e);
      PolicyOk(cfg.policy, s.(e := e, wire := s.wire + if |e.sent| > |s.e.sent| then e.sent[|s.e.sent|..] else []))
    ensures Coherent(t) && Reaches(cfg, now, t)
    ensures var e := E.Worked(cfg.world, s.e);
      t == s.(e := e, wire := s.wire + if |e.sent| > |s.e.sent| then e.sent[|s.e.sent|..] else [])
  {
    t := Go(cfg, now, s, ExecutorWorks(E.Done));
  }

  /** The job is open, nothing was delivered yet, the miner has accepted and launched an executor. */
  ghost predicate Opening(cfg: Config, now: int, s: State) {
    && Coherent(s) && Reaches(cfg, now, s) && s.readyArrived.None? && s.delivered == 0 && s.launched
    && s.v == V.Init(cfg.job, now) && s.e.clock == now && |s.wire| > 0 && s.wire[0].msg == Accept(cfg.job.uuid)
    && s.e.initial == Some(RequestOf(cfg.job)) && !s.e.payload
  }

  ghost predicate StartingUp(cfg: Config, now: int, s: State, p: E.Phase) {
    && Opening(cfg, now, s) && |s.wire| == 1 && s.e.phase == p
    && s.e.readyAt.None? && s.e.budgetFrom.None? && s.e.sent == []
  }

  lemma ReachLaunched(cfg: Config, now: int) returns (s: State)
    ensures StartingUp(cfg, now, s, E.ReadingSpecs)
  {
    s := Init(cfg, now);
    assert After(cfg, now, []) == Some(s);
    s := Go(cfg, now, s, MinerAccepts);
    s := Go(cfg, now, s, Launch);
    s := Go(cfg, now, s, HandInitial);
  }

  lemma ReachPreparing(cfg: Config, now: int) returns (s: State)
    ensures StartingUp(cfg, now, s, E.PreparingInitial)
  {
    s := ReachLaunched(cfg, now);
    s := GoWork(cfg, now, s);
    s := GoWork(cfg, now, s);
    s := GoWork(cfg, now, s);
  }

  lemma ReachReadySent(cfg: Config, now: int) returns (s: State)
    ensures Opening(cfg, now, s) && s.e.phase == E.ReadySent && s.e.readyAt == Some(now) && |s.e.sent| == 1
    ensures |s.wire| == 2 && s.wire[1] == Stamped(ExecutorReady(cfg.job.uuid), now)
  {
    s := ReachPreparing(cfg, now);
    s := GoWork(cfg, now, s);
  }

  /** ExecutorReady has left, the executor's budget has started, neither took any time. */
  ghost predicate Readied(cfg: Config, now: int, s: State, p: E.Phase) {
    && Coherent(s) && Reaches(cfg, now, s) && s.readyArrived.None? && s.launched && s.v.clock == s.e.clock
    && s.e.phase == p && s.e.initial == Some(RequestOf(cfg.job)) && !s.e.payload
    && s.e.deadline.start == now && s.e.deadline.timeout == cfg.job.Budget(Volumes)
    && s.e.readyAt == s.e.budgetFrom == Some(now) && |s.e.sent| == 1
    && |s.wire| == 2 && s.wire[0].msg == Accept(cfg.job.uuid)
    && s.wire[1] == Stamped(ExecutorReady(cfg.job.uuid), now)
  }

  lemma ReachReadied(cfg: Config, now: int) returns (s: State)
    ensures Readied(cfg, now, s, E.EnteringDownload) && s.delivered == 0 && s.v == V.Init(cfg.job, now)
  {
    s := ReachReadySent(cfg, now);
    s := GoWork(cfg, now, s);
  }

  /** The Accept arrived `reserved` after the beginning; ExecutorReady is still on its way. */
  ghost predicate ReadyInFlight(cfg: Config, now: int, reserved: nat, s: State, p: E.Phase) {
    && Readied(cfg, now, s, p) && s.delivered == 1 && s.v.deadline.None?
    && s.v.pc == V.Awaiting(Ready) && s.v.waitUntil == now + reserved + cfg.job.ReadinessLimit()
    && s.v.client.ready.Pending? && s.v.client.volumes.Pending? && s.v.client.streaming.Pending?
  }

  lemma AcceptArrives(cfg: Config, now: int, reserved: nat, s0: State, p: E.Phase) returns (s: State)
    requires Readied(cfg, now, s0, p) && s0.delivered == 0 && s0.v == V.Init(cfg.job, now).(clock := now + reserved)
    ensures ReadyInFlight(cfg, now, reserved, s, p) && s.v.clock == now + reserved
  {
    s := Go(cfg, now, s0, Relay);
    s := Go(cfg, now, s, ValidatorResumes);
  }

  /** The executor has waited for `waited` since it got ready, and the validator has started its own deadline. */
  ghost predicate BothCounting(cfg: Config, now: int, waited: nat, s: State, p: E.Phase) {
    && Coherent(s) && Reaches(cfg, now, s) && s.launched && s.readyArrived == Some(now + waited)
    && s.v.pc == V.Awaiting(Volumes) && s.v.deadline.Some?
    && s.v.deadline.value.start == now + waited && s.v.deadline.value.timeout == cfg.job.Budget(Volumes)
    && s.v.waitUntil == now + waited + cfg.job.Budget(Volumes)
    && s.v.client.volumes.Pending? && s.v.client.streaming.Pending? && s.v.clock == s.e.clock
    && s.e.phase == p && s.e.initial == Some(RequestOf(cfg.job)) && !s.e.payload
    && s.e.deadline.start == now && s.e.deadline.timeout == cfg.job.Budget(Volumes)
    && s.e.readyAt == s.e.budgetFrom == Some(now) && |s.e.sent| == 1 && |s.wire| == s.delivered == 2
  }

  lemma ReadyArrives(cfg: Config, now: int, reserved: nat, waited: nat, s0: State, p: E.Phase) returns (s: State)
    requires ReadyInFlight(cfg, now, reserved, s0, p) && s0.v.clock == now + waited
    requires cfg.policy.Prompt? && cfg.policy.slack <= waited
    ensures Coherent(s) && Reaches(cfg, now, s) && s.delivered == 2 && s.readyArrived == Some(now + waited)
    ensures s == s0.(v := s.v, delivered := 2, readyArrived := s.readyArrived)
    ensures s.v == s0.v.(client := s.v.client, seen := s.v.seen) && s.v.client.ready.Result?
    ensures s.v.client.volumes.Pending? && s.v.client.streaming.Pending?
  {
    s := Go(cfg, now, s0, Relay);
  }

  lemma ReachBothCounting(cfg: Config, now: int, reserved: nat, waited: nat, s0: State, p: E.Phase) returns (s: State)
    requires ReadyInFlight(cfg, now, reserved, s0, p) && s0.v.clock == now + waited
    requires cfg.policy.Prompt? && cfg.policy.slack <= waited
    ensures BothCounting(cfg, now, waited, s, p) && s.v.clock == now + waited
  {
    s := ReadyArrives(cfg, now, reserved, waited, s0, p);
    s := Go(cfg, now, s, ValidatorResumes);
  }

  // ----- the download

  /** Without a strict margin the validator can give up at the very instant the executor may still answer. */
  lemma GivesUpOnVolumes(cfg: Config, now: int) returns (s: State)
    requires cfg.policy.Prompt? && cfg.policy.slack <= 0 && cfg.job.NonNegative()
    ensures Reaches(cfg, now, s) && GaveUpOn(s, Volumes)
  {
    var p := E.EnteringDownload;
    s := ReachReadied(cfg, now);
    s := AcceptArrives(cfg, now, 0, s, p);
    s := ReachBothCounting(cfg, now, 0, 0, s, p);
    if cfg.job.Budget(Volumes) > 0 {
      s := IdleToTheEnd(cfg, now, s);
      p := E.AwaitingPayload;
    }
    s := VolumesExpire(cfg, now, s, p);
  }

  lemma VolumesExpire(cfg: Config, now: int, s0: State, p: E.Phase) returns (s: State)
    requires BothCounting(cfg, now, 0, s0, p) && s0.v.clock == s0.v.waitUntil
    ensures Reaches(cfg, now, s) && GaveUpOn(s, Volumes)
  {
    s := Go(cfg, now, s0, ValidatorExpires);
  }

  lemma IdleToTheEnd(cfg: Config, now: int, s0: State) returns (s: State)
    requires cfg.policy.Prompt? && cfg.policy.slack <= 0 && cfg.job.Budget(Volumes) > 0
    requires BothCounting(cfg, now, 0, s0, E.EnteringDownload) && s0.v.clock == now
    ensures BothCounting(cfg, now, 0, s, E.AwaitingPayload) && s.v.clock == s.v.waitUntil
  {
    s := GoWork(cfg, now, s0);
    s := Go(cfg, now, s, Elapse(cfg.job.Budget(Volumes)));
  }

  /** Exactly when the executor times out first at the download stage. */
  lemma VolumesMarginExact(cfg: Config, now: int)
    requires cfg.policy.Prompt? && cfg.job.NonNegative()
    ensures (exists s :: Reaches(cfg, now, s) && GaveUpOn(s, Volumes)) <==> cfg.policy.slack <= 0
  {
    if cfg.policy.slack <= 0 {
      var s := GivesUpOnVolumes(cfg, now);
    } else {
      forall s | Reaches(cfg, now, s)
        ensures !GaveUpOn(s, Volumes)
      {
        var steps :| After(cfg, now, steps) == Some(s);
        ValidatorNeverGivesUpFirst(cfg, now, steps, Volumes);
      }
    }
  }

  // ----- the start of streaming

  /** A streaming job for which ExecutorReady may take `waited` to arrive. */
  ghost predicate StreamsWithTime(cfg: Config, waited: nat) {
    && cfg.policy.Prompt? && cfg.policy.slack <= waited && cfg.job.NonNegative() && cfg.job.streaming
    && 0 < cfg.job.Budget(Volumes) && waited <= cfg.job.Budget(Volumes) && waited <= Excess(cfg.job, Streaming)
  }

  lemma ReachAwaitingPayload(cfg: Config, now: int) returns (s: State)
    requires 0 < cfg.job.Budget(Volumes)
    ensures Readied(cfg, now, s, E.AwaitingPayload) && s.delivered == 0 && s.v == V.Init(cfg.job, now)
  {
    s := ReachReadied(cfg, now);
    s := GoWork(cfg, now, s);
  }

  /** First the Accept takes as long as it may, as far as needed, then ExecutorReady takes the rest. */
  lemma ReadyTakes(cfg: Config, now: int, waited: nat) returns (s: State, reserved: nat)
    requires StreamsWithTime(cfg, waited) && waited <= cfg.job.reservationLimit + cfg.job.ReadinessLimit()
    ensures ReadyInFlight(cfg, now, reserved, s, E.AwaitingPayload) && s.v.clock == now + waited
  {
    reserved := if waited <= cfg.job.reservationLimit then waited else cfg.job.reservationLimit;
    s := AcceptTakes(cfg, now, waited, reserved);
    s := AcceptArrives(cfg, now, reserved, s, E.AwaitingPayload);
    s := ReadyIsSlow(cfg, now, reserved, waited, s);
  }

  lemma ReadyIsSlow(cfg: Config, now: int, reserved: nat, waited: nat, s0: State) returns (s: State)
    requires ReadyInFlight(cfg, now, reserved, s0, E.AwaitingPayload) && s0.v.clock == now + reserved
    requires reserved <= waited <= reserved + cfg.job.ReadinessLimit() && waited <= cfg.job.Budget(Volumes)
    ensures ReadyInFlight(cfg, now, reserved, s, E.AwaitingPayload) && s.v.clock == now + waited
  {
    s := Go(cfg, now, s0, Elapse(waited - reserved));
  }

  lemma AcceptTakes(cfg: Config, now: int, waited: nat, reserved: nat) returns (s: State)
    requires StreamsWithTime(cfg, waited) && reserved <= waited && reserved <= cfg.job.reservationLimit
    ensures Readied(cfg, now, s, E.AwaitingPayload) && s.delivered == 0
    ensures s.v == V.Init(cfg.job, now).(clock := now + reserved)
  {
    s := ReachAwaitingPayload(cfg, now);
    s := Go(cfg, now, s, Elapse(reserved));
  }

  /** Nothing is on the wire and both clocks stand where ExecutorReady arrived. */
  ghost predicate Quiet(cfg: Config, now: int, waited: nat, s: State) {
    && Coherent(s) && Reaches(cfg, now, s) && s.launched && s.v.clock == s.e.clock == now + waited
    && s.readyArrived == Some(now + waited) && s.v.deadline.Some? && s.v.client.streaming.Pending?
    && s.v.deadline.value.start == now + waited
    && s.e.initial == Some(RequestOf(cfg.job)) && s.e.deadline.start == now
    && s.e.readyAt == s.e.budgetFrom == Some(now)
  }

  lemma PayloadArrives(cfg: Config, now: int, waited: nat, s0: State) returns (s: State)
    requires StreamsWithTime(cfg, waited) && BothCounting(cfg, now, waited, s0, E.AwaitingPayload)
    requires s0.v.clock == now + waited
    ensures Quiet(cfg, now, waited, s) && s.v.pc == V.Awaiting(Volumes) && s.v.client.volumes.Pending?
    ensures s.v.deadline.value.timeout == s.e.deadline.timeout == cfg.job.Budget(Volumes)
    ensures s.e.phase.Downloading? && |s.wire| == s.delivered
  {
    s := Go(cfg, now, s0, HandPayload);
    s := GoWork(cfg, now, s);
  }

  lemma VolumesLeave(cfg: Config, now: int, waited: nat, s0: State) returns (s: State)
    requires StreamsWithTime(cfg, waited) && Quiet(cfg, now, waited, s0)
    requires s0.e.phase.Downloading? && |s0.wire| == s0.delivered
    ensures Quiet(cfg, now, waited, s) && s.v == s0.v && s.e.phase.VolumesSent? && s.e.deadline == s0.e.deadline
    ensures |s.wire| == s.delivered + 1 && s.wire[s.delivered] == Stamped(VolumesReady(cfg.job.uuid), now + waited)
  {
    s := GoWork(cfg, now, s0);
  }

  lemma VolumesRelayed(cfg: Config, now: int, waited: nat, s0: State) returns (s: State)
    requires StreamsWithTime(cfg, waited) && Quiet(cfg, now, waited, s0)
    requires s0.v.pc == V.Awaiting(Volumes) && s0.v.client.volumes.Pending?
    requires s0.v.deadline.value.timeout == s0.e.deadline.timeout == cfg.job.Budget(Volumes)
    requires s0.e.phase.Downloading? && |s0.wire| == s0.delivered
    ensures Quiet(cfg, now, waited, s) && s.v.pc == V.Awaiting(Volumes) && s.v.client.volumes.Result?
    ensures s.v.deadline.value.timeout == s.e.deadline.timeout == cfg.job.Budget(Volumes)
    ensures s.e.phase.VolumesSent? && |s.wire| == s.delivered
  {
    s := VolumesLeave(cfg, now, waited, s0);
    s := Go(cfg, now, s, Relay);
  }

  lemma StreamingAwaited(cfg: Config, now: int, waited: nat, s0: State) returns (s: State)
    requires StreamsWithTime(cfg, waited) && Quiet(cfg, now, waited, s0) && |s0.wire| == s0.delivered
    requires s0.v.pc == V.Awaiting(Volumes) && s0.v.client.volumes.Result?
    requires s0.v.deadline.value.timeout == cfg.job.Budget(Volumes)
    ensures Quiet(cfg, now, waited, s) && s == s0.(v := s.v)
    ensures s.v.pc == V.Awaiting(Streaming) && s.v.waitUntil == now + waited + cfg.job.Budget(Streaming)
  {
    s := Go(cfg, now, s0, ValidatorResumes);
  }

  /** The container is starting; the validator is where it was. */
  lemma ContainerStarts(cfg: Config, now: int, waited: nat, s0: State) returns (s: State)
    requires StreamsWithTime(cfg, waited) && Quiet(cfg, now, waited, s0)
    requires s0.e.deadline.timeout == cfg.job.Budget(Volumes)
    requires s0.e.phase.VolumesSent? && |s0.wire| == s0.delivered
    ensures Quiet(cfg, now, waited, s) && s.e.phase.Starting? && |s.wire| == s.delivered && s.v == s0.v
    ensures s.e.Until() == now + cfg.job.Budget(Execution)
  {
    s := GoWork(cfg, now, s0);
    s := GoWork(cfg, now, s);
  }

  /** A streaming job whose container takes longer to come up than the validator allows for streaming,
      though less than the executor's joint allowance: both keep their own deadlines, the validator gives up. */
  lemma GivesUpOnStreaming(cfg: Config, now: int, waited: nat) returns (s: State)
    requires StreamsWithTime(cfg, waited) && waited <= cfg.job.reservationLimit + cfg.job.ReadinessLimit()
    ensures Reaches(cfg, now, s) && GaveUpOn(s, Streaming)
  {
    var reserved;
    s, reserved := ReadyTakes(cfg, now, waited);
    s := ReachBothCounting(cfg, now, reserved, waited, s, E.AwaitingPayload);
    s := PayloadArrives(cfg, now, waited, s);
    s := VolumesRelayed(cfg, now, waited, s);
    s := StreamingAwaited(cfg, now, waited, s);
    s := ContainerStarts(cfg, now, waited, s);
    s := StreamingExpires(cfg, now, waited, s);
  }

  lemma StreamingExpires(cfg: Config, now: int, waited: nat, s0: State) returns (s: State)
    requires StreamsWithTime(cfg, waited) && Quiet(cfg, now, waited, s0) && s0.e.phase.Starting?
    requires |s0.wire| == s0.delivered
    requires s0.v.pc == V.Awaiting(Streaming) && s0.v.waitUntil == now + waited + cfg.job.Budget(Streaming)
    requires s0.e.Until() == now + cfg.job.Budget(Execution)
    ensures Reaches(cfg, now, s) && GaveUpOn(s, Streaming)
  {
    s := Go(cfg, now, s0, Elapse(cfg.job.Budget(Streaming)));
    s := Go(cfg, now, s, ValidatorExpires);
  }

  /** The margin leaves room for a run in which the validator gives up on streaming: it does not exceed the excess
      of the executor's allowance, ExecutorReady can be that late, and the executor is still waiting by then. */
  predicate LeavesRoom(job: Job, slack: int) {
    && job.streaming && 0 < job.Budget(Volumes) && slack <= Excess(job, Streaming) && slack <= job.Budget(Volumes)
    && slack <= job.reservationLimit + job.ReadinessLimit()
  }

  /** For every job and every margin: exactly when the validator can give up on streaming first. */
  lemma StreamingMarginExact(cfg: Config, now: int)
    requires cfg.policy.Prompt? && cfg.job.NonNegative()
    ensures (exists s :: Reaches(cfg, now, s) && GaveUpOn(s, Streaming)) <==> LeavesRoom(cfg.job, cfg.policy.slack)
  {
    if LeavesRoom(cfg.job, cfg.policy.slack) {
      var s := GivesUpOnStreaming(cfg, now, if cfg.policy.slack < 0 then 0 else cfg.policy.slack);
    }
    forall s | Reaches(cfg, now, s) && GaveUpOn(s, Streaming)
      ensures LeavesRoom(cfg.job, cfg.policy.slack)
    {
      var steps :| After(cfg, now, steps) == Some(s);
      Reachable(cfg, now, steps);
      AlwaysReadyOk(cfg, now, steps);
      AlwaysTimelineOk(cfg, now, steps);
      VolumesWereSeen(cfg, s);
      GainIsBounded(cfg, now, s);
      if Excess(cfg.job, Streaming) < cfg.policy.slack { ValidatorNeverGivesUpFirst(cfg, now, steps, Streaming); }
    }
  }
}
