/** Who times out first. Both ends run the same cumulative budget, the validator from the arrival of
    ExecutorReady and the executor from shortly after sending it. With a prompt relay the validator
    never gives up on a stage the executor is still allowed to work on. `Margins` shows when exactly. */
module Punctuality {
  import opened Messages
  import C = Client
  import V = Validator
  import E = Executor
  import opened System

  ghost predicate ReadyOk(s: State) {
    && (s.v.client.ready.Result? ==> s.readyArrived.Some?)
    && (s.readyArrived.Some? ==> s.e.readyAt.Some? && s.readyArrived.value <= s.v.clock)
    && (s.v.deadline.Some? ==> s.readyArrived.Some? && s.readyArrived.value <= s.v.deadline.value.start)
  }

  /** By how much the executor's budget for a milestone exceeds the validator's. The executor is granted
      the streaming and the execution allowance together, before it starts the job container, so only
      its StreamingReady may legitimately come later than the validator waits. */
  function Excess(job: Job, k: Milestone): int {
    if k.Streaming? && job.timing.Some? then job.timing.value.execution else 0
  }

  predicate InExecutorsHands(k: Milestone) {
    !k.Accepted? && !k.Ready?
  }

  lemma DueWithinBudget(cfg: Config, k: Milestone)
    requires cfg.job.NonNegative() && InExecutorsHands(k) && V.Needed(cfg.job, k)
    ensures E.Due(RequestOf(cfg.job), ScriptIndex(cfg, k)) <= cfg.job.Budget(k) + Excess(cfg.job, k)
    ensures 0 <= cfg.job.Budget(k) && 0 <= Excess(cfg.job, k) && 1 <= ScriptIndex(cfg, k)
  {
  }

  lemma DueGrows(req: E.Request, i: nat, j: nat)
    requires req.InitialJob? && req.NonNegative() && i <= j
    ensures E.Due(req, i) <= E.Due(req, j)
  {
    E.BudgetsGrow(req);
  }

  /** A settling message that has left but not arrived is still within the relay's allowance. */
  lemma InFlightBound(cfg: Config, s: State, k: Milestone, p: nat)
    requires WireOk(cfg, s) && SeenOk(s) && JointOk(cfg, s) && E.Coherent(s.e) && E.OriginOk(s.e) && E.PunctualOk(s.e)
    requires cfg.job.NonNegative() && InExecutorsHands(k) && V.Needed(cfg.job, k)
    requires cfg.policy.Prompt? && s.readyArrived.Some? && s.e.readyAt.Some? && PolicyOk(cfg.policy, s)
    requires 1 <= p < |s.e.sent| && p <= ScriptIndex(cfg, k) && C.Settles(cfg.job.uuid, s.e.sent[p].msg, k)
    requires C.Unsettled(cfg.job.uuid, s.v.seen, |s.v.seen|, k)
    ensures s.v.clock <= s.readyArrived.value + cfg.job.Budget(k) + Excess(cfg.job, k) - cfg.policy.slack
  {
    assert s.wire[Position(s, p)] == s.e.sent[p];
    if Position(s, p) < s.delivered {
      assert false;
    }
    assert !s.wire[Position(s, p)].msg.Accept?;
    assert E.Punctual(s.e, p);
    DueGrows(RequestOf(cfg.job), p, ScriptIndex(cfg, k));
    DueWithinBudget(cfg, k);
  }

  /** An executor that has not spoken yet is still within its own deadline. */
  lemma StillWorkingBound(cfg: Config, s: State, k: Milestone)
    requires JointOk(cfg, s) && E.Coherent(s.e) && E.ShapeOk(cfg.world, s.e) && E.OriginOk(s.e) && E.DeadlineOk(s.e)
    requires cfg.job.NonNegative() && InExecutorsHands(k) && V.Needed(cfg.job, k)
    requires cfg.policy.Prompt? && s.readyArrived.Some? && s.e.readyAt.Some? && PolicyOk(cfg.policy, s)
    requires !s.e.phase.Ended? && |s.e.sent| <= ScriptIndex(cfg, k)
    ensures s.v.clock <= s.readyArrived.value + cfg.job.Budget(k) + Excess(cfg.job, k) - cfg.policy.slack
  {
    DueWithinBudget(cfg, k);
    if !s.e.phase.Startup() {
      E.PhaseWithinDue(RequestOf(cfg.job), s.e.phase, cfg.world.specs.Some?);
      DueGrows(RequestOf(cfg.job), |s.e.sent|, ScriptIndex(cfg, k));
    }
  }

  /** While the validator awaits a guarded milestone, its deadline has not been reached. */
  lemma DeadlineNotReached(cfg: Config, s: State, k: Milestone)
    requires Inv(cfg, s) && ReadyOk(s) && PolicyOk(cfg.policy, s)
    requires cfg.policy.Prompt? && Excess(cfg.job, k) < cfg.policy.slack && cfg.job.NonNegative()
    requires s.v.pc == V.Awaiting(k) && s.v.client.Get(k).Pending? && InExecutorsHands(k)
    ensures s.v.clock < s.v.waitUntil
  {
    assert C.Decided(cfg.job.uuid, s.v.seen, k, s.v.client.Get(k));
    var n := ScriptIndex(cfg, k);
    DueWithinBudget(cfg, k);
    if s.e.phase.Ended? || n < |s.e.sent| {
      SpokenFor(cfg, s.e, k);
      var p := if n < |s.e.sent| then n else |s.e.sent| - 1;
      InFlightBound(cfg, s, k, p);
    } else {
      StillWorkingBound(cfg, s, k);
    }
  }

  lemma SpokenFor(cfg: Config, e: E.State, k: Milestone)
    requires E.Coherent(e) && E.ShapeOk(cfg.world, e) && E.OriginOk(e) && e.readyAt.Some?
    requires e.initial.Some? ==> e.initial.value == RequestOf(cfg.job)
    requires InExecutorsHands(k) && V.Needed(cfg.job, k) && 1 <= ScriptIndex(cfg, k)
    requires e.phase.Ended? || ScriptIndex(cfg, k) < |e.sent|
    ensures var p := if ScriptIndex(cfg, k) < |e.sent| then ScriptIndex(cfg, k) else |e.sent| - 1;
      1 <= p < |e.sent| && C.Settles(cfg.job.uuid, e.sent[p].msg, k)
  {
    var n := ScriptIndex(cfg, k);
    ScriptMeets(cfg, k);
    E.SentIsScriptOrFailure(cfg.world, e, 0);
    var p := if n < |e.sent| then n else |e.sent| - 1;
    E.SentIsScriptOrFailure(cfg.world, e, p);
  }

  // ----- over whole runs

  lemma RelayKeepsReady(cfg: Config, s: State)
    requires Inv(cfg, s) && ReadyOk(s) && Possible(cfg, s, Relay)
    ensures ReadyOk(Next(cfg, s, Relay))
  {
    var msg := s.wire[s.delivered].msg;
    var t := Next(cfg, s, Relay);
    C.HandleOne(s.v.client, cfg.job.uuid, msg, s.v.clock, Ready);
    assert s.v.client.ready == s.v.client.Get(Ready) && t.v.client.ready == t.v.client.Get(Ready);
    WireMessage(cfg, s, s.delivered);
  }

  lemma ExecutorKeepsReadyAt(w: E.World, e: E.State, step: E.Step)
    requires E.Coherent(e) && E.Enabled(e, step) && e.readyAt.Some? && E.OriginOk(e)
    ensures E.Next(w, e, step).readyAt.Some?
  {
  }

  lemma ResumeKeepsReady(cfg: Config, s: State, expire: bool)
    requires V.Coherent(s.v) && ReadyOk(s) && V.Enabled(s.v, if expire then V.Expire else V.Resume)
    ensures ReadyOk(s.(v := V.Next(cfg.job, s.v, if expire then V.Expire else V.Resume)))
  {
    assert s.v.client.ready == s.v.client.Get(Ready);
  }

  lemma StepKeepsReady(cfg: Config, s: State, step: Step)
    requires Inv(cfg, s) && ReadyOk(s) && Possible(cfg, s, step)
    ensures ReadyOk(Next(cfg, s, step))
  {
    if step.Relay? {
      RelayKeepsReady(cfg, s);
    } else if IsExecutorStep(step) {
      if s.e.readyAt.Some? { ExecutorKeepsReadyAt(cfg.world, s.e, ExecutorStep(cfg, step)); }
    } else if step.ValidatorResumes? || step.ValidatorExpires? {
      ResumeKeepsReady(cfg, s, step.ValidatorExpires?);
    }
  }

  lemma {:induction false} AlwaysReadyOk(cfg: Config, now: int, steps: seq<Step>)
    requires After(cfg, now, steps).Some?
    ensures ReadyOk(After(cfg, now, steps).value) && PolicyOk(cfg.policy, After(cfg, now, steps).value)
  {
    if steps != [] {
      var init := steps[..|steps| - 1];
      Reachable(cfg, now, init);
      AlwaysReadyOk(cfg, now, init);
      StepKeepsReady(cfg, After(cfg, now, init).value, steps[|steps| - 1]);
    }
  }

  predicate GaveUpOn(s: State, k: Milestone) {
    s.v.pc.Raised? && s.v.pc.error == V.TimedOut(k)
  }

  lemma GivesUpOnlyByExpiring(cfg: Config, s: State, step: Step, k: Milestone)
    requires Coherent(s) && Possible(cfg, s, step) && !GaveUpOn(s, k) && GaveUpOn(Next(cfg, s, step), k)
    ensures s.v.pc == V.Awaiting(k) && s.v.client.Get(k).Pending? && s.v.waitUntil <= s.v.clock
  {
  }

  /** The executor always times out first: if every later message is relayed prompter than ExecutorReady
      was, by more than the milestone's excess, no run of the system has the validator give up on it. */
  lemma {:induction false} ValidatorNeverGivesUpFirst(cfg: Config, now: int, steps: seq<Step>, k: Milestone)
    requires After(cfg, now, steps).Some?
    requires cfg.policy.Prompt? && cfg.job.NonNegative() && InExecutorsHands(k)
    requires Excess(cfg.job, k) < cfg.policy.slack
    ensures !GaveUpOn(After(cfg, now, steps).value, k)
  {
    if steps != [] {
      var init, last := steps[..|steps| - 1], steps[|steps| - 1];
      ValidatorNeverGivesUpFirst(cfg, now, init, k);
      var s := After(cfg, now, init).value;
      if GaveUpOn(Next(cfg, s, last), k) {
        GivesUpOnlyByExpiring(cfg, s, last, k);
        Reachable(cfg, now, init);
        AlwaysReadyOk(cfg, now, init);
        DeadlineNotReached(cfg, s, k);
      }
    }
  }

  /** Put together: under a prompt relay a job ends with the executor's own verdict, unless the miner
      never accepted it or the executor never became ready. */
  lemma EndsWithExecutorsVerdict(cfg: Config, now: int, steps: seq<Step>)
    requires After(cfg, now, steps).Some? && cfg.policy.Prompt? && cfg.job.NonNegative()
    requires (if cfg.job.streaming then Excess(cfg.job, Streaming) else 0) < cfg.policy.slack
    ensures
      var s := After(cfg, now, steps).value;
      || s.v.pc.Awaiting?
      || GaveUpOn(s, Accepted) || GaveUpOn(s, Ready)
      || exists i: nat :: FirstTerminalIs(s.wire, i) && i < s.delivered && Verdict(s.wire[i].msg, s.v.pc)
  {
    OutcomeIsFirstTerminal(cfg, now, steps);
    var s := After(cfg, now, steps).value;
    if s.v.pc.Raised? && s.v.pc.error.TimedOut? {
      Reachable(cfg, now, steps);
      var k := s.v.pc.error.m;
      assert V.Needed(cfg.job, k);
      if InExecutorsHands(k) { ValidatorNeverGivesUpFirst(cfg, now, steps, k); }
    }
  }
}
