/** A validator and an executor joined by a miner that only relays: it accepts the job once, hands the
    validator's two requests on, and passes the executor's messages back first in, first out.
    All interleavings, all durations, one clock. */
module System {
  import opened Messages
  import C = Client
  import V = Validator
  import E = Executor

  /** `Prompt(slack)` restricts the relay: after ExecutorReady took `delay` to arrive and the executor
      spent `lag` between sending it and starting its budget, every other message takes at most
      `delay - lag - slack`. */
  datatype Policy = Unrestricted | Prompt(slack: int)

  datatype Config = Config(job: Job, world: E.World, policy: Policy)

  /** `wire` holds everything ever sent to the validator; its first `delivered` messages have arrived.
      `acceptIndex` is where the miner's own Accept sits among the executor's messages. */
  datatype State = State(
    v: V.State, e: E.State, launched: bool, acceptIndex: Option<nat>,
    wire: seq<Stamped>, delivered: nat, readyArrived: Option<int>)

  datatype Step =
    | MinerAccepts | Launch | HandInitial | HandPayload | Relay
    | ExecutorWorks(result: E.WorkResult) | ExecutorExpires
    | ValidatorResumes | ValidatorExpires | Elapse(d: nat)

  function RequestOf(job: Job): E.Request {
    E.InitialJob(job.uuid, job.timing, Some(job.totalTimeout), job.streaming)
  }

  function Init(cfg: Config, now: int): State {
    State(V.Init(cfg.job, now), E.Init(cfg.world, now), false, None, [], 0, None)
  }

  predicate Coherent(s: State) {
    V.Coherent(s.v) && E.Coherent(s.e) && s.delivered <= |s.wire|
  }

  function ExecutorStep(cfg: Config, step: Step): E.Step
    requires step.HandInitial? || step.HandPayload? || step.ExecutorWorks? || step.ExecutorExpires?
  {
    match step
    case HandInitial => E.Receive(RequestOf(cfg.job))
    case HandPayload => E.Receive(E.FullJob(cfg.job.uuid))
    case ExecutorWorks(r) => E.Work(r)
    case _ => E.Expire
  }

  predicate IsExecutorStep(step: Step) {
    step.HandInitial? || step.HandPayload? || step.ExecutorWorks? || step.ExecutorExpires?
  }

  /** Each component's own rules; the miner hands the job over only once the validator sent it. */
  predicate Possible(cfg: Config, s: State, step: Step) {
    match step
    case MinerAccepts => s.acceptIndex.None?
    case Launch => !s.launched
    case Relay => s.delivered < |s.wire|
    case ValidatorResumes => V.Enabled(s.v, V.Resume)
    case ValidatorExpires => V.Enabled(s.v, V.Expire)
    case Elapse(d) => V.Enabled(s.v, V.Elapse(d)) && (s.launched ==> E.Enabled(s.e, E.Elapse(d)))
    case HandInitial => s.launched && E.Enabled(s.e, ExecutorStep(cfg, step))
    case HandPayload => s.launched && s.v.deadline.Some? && E.Enabled(s.e, ExecutorStep(cfg, step))
    case ExecutorWorks(_) => s.launched && E.Enabled(s.e, ExecutorStep(cfg, step))
    case ExecutorExpires => s.launched && E.Enabled(s.e, ExecutorStep(cfg, step))
  }

  function Next(cfg: Config, s: State, step: Step): (t: State)
    requires Coherent(s) && Possible(cfg, s, step)
    ensures E.Coherent(t.e) && t.delivered <= |t.wire|
  {
    match step
    case MinerAccepts =>
      s.(acceptIndex := Some(|s.wire|), wire := s.wire + [Stamped(Accept(cfg.job.uuid), s.v.clock)])
    case Launch => s.(launched := true)
    case Relay =>
      var msg := s.wire[s.delivered].msg;
      s.(v := V.Next(cfg.job, s.v, V.Deliver(msg)), delivered := s.delivered + 1,
         readyArrived := if msg.ExecutorReady? && s.readyArrived.None? then Some(s.v.clock) else s.readyArrived)
    case ValidatorResumes => s.(v := V.Next(cfg.job, s.v, V.Resume))
    case ValidatorExpires => s.(v := V.Next(cfg.job, s.v, V.Expire))
    case Elapse(d) =>
      s.(v := V.Next(cfg.job, s.v, V.Elapse(d)),
         e := if s.launched then E.Next(cfg.world, s.e, E.Elapse(d)) else E.Init(cfg.world, s.v.clock + d))
    case _ =>
      var e := E.Next(cfg.world, s.e, ExecutorStep(cfg, step));
      s.(e := e, wire := s.wire + if |e.sent| > |s.e.sent| then e.sent[|s.e.sent|..] else [])
  }

  /** The time between ExecutorReady leaving and the executor's budget starting. */
  function Lag(s: State): int
    requires s.e.readyAt.Some?
  {
    (if s.e.budgetFrom.Some? then s.e.budgetFrom.value else s.e.clock) - s.e.readyAt.value
  }

  ghost predicate PolicyOk(policy: Policy, s: State) {
    policy.Prompt? && s.readyArrived.Some? && s.e.readyAt.Some? ==>
      var allowance := s.readyArrived.value - s.e.readyAt.value - Lag(s) - policy.slack;
      && 0 <= allowance
      && forall i :: s.delivered <= i < |s.wire| && !s.wire[i].msg.Accept? ==> s.v.clock - s.wire[i].at <= allowance
  }

  ghost predicate Enabled(cfg: Config, s: State, step: Step)
    requires Coherent(s)
  {
    Possible(cfg, s, step) && PolicyOk(cfg.policy, Next(cfg, s, step))
  }

  ghost function After(cfg: Config, now: int, steps: seq<Step>): (r: Option<State>)
    ensures r.Some? ==> Coherent(r.value)
  {
    if steps == [] then Some(Init(cfg, now))
    else
      var before := After(cfg, now, steps[..|steps| - 1]);
      var step := steps[|steps| - 1];
      if before.Some? && Enabled(cfg, before.value, step) then
        StepKeepsCoherent(cfg, before.value, step);
        Some(Next(cfg, before.value, step))
      else None
  }

  lemma StepKeepsCoherent(cfg: Config, s: State, step: Step)
    requires Coherent(s) && Possible(cfg, s, step)
    ensures Coherent(Next(cfg, s, step))
  {
    match step
    case Relay => V.StepKeepsCoherent(cfg.job, s.v, V.Deliver(s.wire[s.delivered].msg));
    case ValidatorResumes => V.StepKeepsCoherent(cfg.job, s.v, V.Resume);
    case ValidatorExpires => V.StepKeepsCoherent(cfg.job, s.v, V.Expire);
    case _ =>
  }

  // ----- the invariant

  /** Where the executor's i-th message sits on the wire. */
  function Position(s: State, i: nat): nat {
    if s.acceptIndex.Some? && i >= s.acceptIndex.value then i + 1 else i
  }

  ghost predicate WireOk(cfg: Config, s: State) {
    && |s.wire| == |s.e.sent| + (if s.acceptIndex.Some? then 1 else 0)
    && (s.acceptIndex.Some? ==>
          s.acceptIndex.value < |s.wire| && s.wire[s.acceptIndex.value].msg == Accept(cfg.job.uuid))
    && (forall i :: 0 <= i < |s.e.sent| ==> s.wire[Position(s, i)] == s.e.sent[i])
  }

  ghost predicate SeenOk(s: State) {
    |s.v.seen| == s.delivered <= |s.wire|
    && forall i :: 0 <= i < s.delivered ==> s.v.seen[i].msg == s.wire[i].msg
  }

  predicate JointOk(cfg: Config, s: State) {
    && s.v.clock == s.e.clock
    && (!s.launched ==> s.e == E.Init(cfg.world, s.v.clock))
    && (s.e.initial.Some? ==> s.e.initial.value == RequestOf(cfg.job))
    && (s.e.payload ==> s.v.deadline.Some?)
  }

  ghost predicate Inv(cfg: Config, s: State) {
    && Coherent(s) && V.Inv(cfg.job, s.v) && E.Inv(cfg.world, s.e)
    && JointOk(cfg, s) && WireOk(cfg, s) && SeenOk(s)
  }

  lemma WireGrows(cfg: Config, s: State, t: State)
    requires WireOk(cfg, s) && t.acceptIndex == s.acceptIndex && s.e.sent <= t.e.sent
    requires t.wire == s.wire + t.e.sent[|s.e.sent|..]
    ensures WireOk(cfg, t)
  {
    forall i | 0 <= i < |t.e.sent|
      ensures t.wire[Position(t, i)] == t.e.sent[i]
    {
      if i < |s.e.sent| { assert s.wire[Position(s, i)] == s.e.sent[i]; }
    }
  }

  lemma ExecutorStepAppends(w: E.World, s: E.State, step: E.Step)
    requires E.Coherent(s) && E.Enabled(s, step) && !step.Elapse?
    ensures var t := E.Next(w, s, step);
      && s.sent <= t.sent && t.clock == s.clock
      && (!step.Receive? ==> t.initial == s.initial && t.payload == s.payload)
      && (step.Receive? && s.initial.Some? ==> t.initial == s.initial)
  {
  }

  lemma ExecutorStepKeepsJoint(cfg: Config, s: State, step: Step)
    requires Coherent(s) && JointOk(cfg, s) && WireOk(cfg, s) && SeenOk(s) && Possible(cfg, s, step)
    requires IsExecutorStep(step)
    ensures var t := Next(cfg, s, step);
      && t == s.(e := t.e, wire := t.wire) && t.e == E.Next(cfg.world, s.e, ExecutorStep(cfg, step))
      && JointOk(cfg, t) && WireOk(cfg, t) && SeenOk(t)
  {
    ExecutorStepAppends(cfg.world, s.e, ExecutorStep(cfg, step));
    WireGrows(cfg, s, Next(cfg, s, step));
  }

  lemma ExecutorStepKeepsInv(cfg: Config, s: State, step: Step)
    requires Inv(cfg, s) && Possible(cfg, s, step) && IsExecutorStep(step)
    ensures Inv(cfg, Next(cfg, s, step))
  {
    E.StepKeepsInv(cfg.world, s.e, ExecutorStep(cfg, step));
    ExecutorStepKeepsJoint(cfg, s, step);
  }

  lemma ValidatorStepFacts(job: Job, s: V.State, step: V.Step)
    requires V.Coherent(s) && V.Enabled(s, step) && !step.Elapse?
    ensures var t := V.Next(job, s, step);
      && t.clock == s.clock && (s.deadline.Some? ==> t.deadline.Some?)
      && t.seen == s.seen + if step.Deliver? then [Stamped(step.msg, s.clock)] else []
  {
  }

  lemma ValidatorStepKeepsJoint(cfg: Config, s: State, vStep: V.Step, delivered: nat, readyArrived: Option<int>)
    requires JointOk(cfg, s) && WireOk(cfg, s) && SeenOk(s) && V.Coherent(s.v) && V.Enabled(s.v, vStep)
    requires !vStep.Elapse?
    requires delivered == s.delivered + if vStep.Deliver? then 1 else 0
    requires vStep.Deliver? ==> s.delivered < |s.wire| && s.wire[s.delivered].msg == vStep.msg
    ensures var t := s.(v := V.Next(cfg.job, s.v, vStep), delivered := delivered, readyArrived := readyArrived);
      JointOk(cfg, t) && WireOk(cfg, t) && SeenOk(t)
  {
    var t := s.(v := V.Next(cfg.job, s.v, vStep), delivered := delivered, readyArrived := readyArrived);
    ValidatorStepFacts(cfg.job, s.v, vStep);
    WireGrows(cfg, s, t);
  }

  lemma ValidatorStepKeepsInv(cfg: Config, s: State, step: Step)
    requires Inv(cfg, s) && Possible(cfg, s, step) && (step.Relay? || step.ValidatorResumes? || step.ValidatorExpires?)
    ensures Inv(cfg, Next(cfg, s, step))
  {
    StepKeepsCoherent(cfg, s, step);
    var t := Next(cfg, s, step);
    var vStep :=
      if step.Relay? then V.Deliver(s.wire[s.delivered].msg)
      else if step.ValidatorResumes? then V.Resume
      else V.Expire;
    V.StepKeepsInv(cfg.job, s.v, vStep);
    ValidatorStepKeepsJoint(cfg, s, vStep, t.delivered, t.readyArrived);
  }

  lemma MinerStepKeepsWire(cfg: Config, s: State, step: Step)
    requires Coherent(s) && WireOk(cfg, s) && SeenOk(s) && Possible(cfg, s, step)
    requires (step.MinerAccepts? || step.Launch?)
    ensures WireOk(cfg, Next(cfg, s, step)) && SeenOk(Next(cfg, s, step))
  {
    var t := Next(cfg, s, step);
    forall i | 0 <= i < |t.e.sent|
      ensures t.wire[Position(t, i)] == t.e.sent[i]
    {
      assert s.wire[Position(s, i)] == s.e.sent[i];
    }
  }

  lemma ElapseKeepsJoint(cfg: Config, s: State, d: nat)
    requires Coherent(s) && JointOk(cfg, s) && WireOk(cfg, s) && SeenOk(s) && Possible(cfg, s, Elapse(d))
    ensures var t := Next(cfg, s, Elapse(d));
      JointOk(cfg, t) && WireOk(cfg, t) && SeenOk(t)
  {
    WireGrows(cfg, s, Next(cfg, s, Elapse(d)));
  }

  lemma ElapseKeepsInv(cfg: Config, s: State, d: nat)
    requires Inv(cfg, s) && Possible(cfg, s, Elapse(d))
    ensures Inv(cfg, Next(cfg, s, Elapse(d)))
  {
    V.StepKeepsInv(cfg.job, s.v, V.Elapse(d));
    if s.launched {
      E.StepKeepsInv(cfg.world, s.e, E.Elapse(d));
    } else {
      E.InitInv(cfg.world, s.v.clock + d);
    }
    ElapseKeepsJoint(cfg, s, d);
  }

  lemma StepKeepsInv(cfg: Config, s: State, step: Step)
    requires Inv(cfg, s) && Possible(cfg, s, step)
    ensures Inv(cfg, Next(cfg, s, step))
  {
    if IsExecutorStep(step) {
      ExecutorStepKeepsInv(cfg, s, step);
    } else if step.Elapse? {
      ElapseKeepsInv(cfg, s, step.d);
    } else if step.MinerAccepts? || step.Launch? {
      MinerStepKeepsWire(cfg, s, step);
    } else {
      ValidatorStepKeepsInv(cfg, s, step);
    }
  }

  lemma {:induction false} Reachable(cfg: Config, now: int, steps: seq<Step>)
    requires After(cfg, now, steps).Some?
    ensures Inv(cfg, After(cfg, now, steps).value)
  {
    if steps == [] {
      V.InitInv(cfg.job, now);
      E.InitInv(cfg.world, now);
    } else {
      Reachable(cfg, now, steps[..|steps| - 1]);
      StepKeepsInv(cfg, After(cfg, now, steps[..|steps| - 1]).value, steps[|steps| - 1]);
    }
  }

  // ----- agreement

  predicate Terminal(msg: Message) {
    msg.JobFinished? || E.IsFailure(msg)
  }

  ghost predicate FirstTerminalIs(wire: seq<Stamped>, i: nat) {
    i < |wire| && Terminal(wire[i].msg) && forall j :: 0 <= j < i ==> !Terminal(wire[j].msg)
  }

  /** What the executor's verdict should make of the job. */
  predicate Verdict(msg: Message, pc: V.Pc) {
    match msg
    case JobFinished(_, o) => pc.Returned? && V.Carries(pc.output, o)
    case JobFailed(_, st, r) => pc.Raised? && pc.error == V.Reported(C.MinerReportedJobFailed(st, r))
    case HordeFailed(_, p, r) => pc.Raised? && pc.error == V.Reported(C.MinerReportedHordeFailed(p, r))
    case _ => false
  }

  /** Where on the executor's side a wire message came from. */
  function Origin(s: State, j: nat): nat {
    if s.acceptIndex.Some? && j > s.acceptIndex.value then j - 1 else j
  }

  lemma WireMessage(cfg: Config, s: State, j: nat)
    requires WireOk(cfg, s) && j < |s.wire|
    ensures s.wire[j].msg == Accept(cfg.job.uuid) ||
      (Origin(s, j) < |s.e.sent| && s.wire[j] == s.e.sent[Origin(s, j)])
  {
    if !(s.acceptIndex.Some? && j == s.acceptIndex.value) {
      assert s.wire[Position(s, Origin(s, j))] == s.e.sent[Origin(s, j)];
    }
  }

  /** Everything on the wire is the Accept, a script message or a failure for this job. */
  lemma WireVocabulary(cfg: Config, s: State, j: nat)
    requires WireOk(cfg, s) && JointOk(cfg, s) && E.Coherent(s.e) && E.ShapeOk(cfg.world, s.e) && j < |s.wire|
    ensures s.wire[j].msg.HasUuid() && s.wire[j].msg.uuid == cfg.job.uuid
    ensures E.IsFailure(s.wire[j].msg) <==> C.FailureIn(cfg.job.uuid, s.wire[j].msg).Some?
  {
    WireMessage(cfg, s, j);
    if !s.wire[j].msg.Accept? {
      E.SentIsScriptOrFailure(cfg.world, s.e, Origin(s, j));
      E.ScriptWords(cfg.world, s.e.initial.value, Origin(s, j));
    }
  }

  function ScriptIndex(cfg: Config, m: Milestone): nat {
    var done := if cfg.job.streaming then 3 else 2;
    match m
    case Accepted => 0
    case Ready => 0
    case Volumes => 1
    case Streaming => 2
    case Execution => done
    case Finished => done + 1 + if cfg.world.specs.Some? then 1 else 0
  }

  lemma ScriptMeets(cfg: Config, m: Milestone)
    requires !m.Accepted? && V.Needed(cfg.job, m)
    ensures ScriptIndex(cfg, m) < E.ScriptLength(cfg.world, RequestOf(cfg.job))
    ensures C.Meets(cfg.job.uuid, E.ScriptAt(cfg.world, RequestOf(cfg.job), ScriptIndex(cfg, m)), m)
  {
  }

  /** JobFinished on the wire means the job was accepted and every other milestone is on the wire before. */
  lemma FinishedComesLast(cfg: Config, s: State, j: nat, m: Milestone) returns (q: nat)
    requires WireOk(cfg, s) && SeenOk(s) && JointOk(cfg, s) && E.Coherent(s.e) && E.ShapeOk(cfg.world, s.e)
    requires E.PayloadOk(s.e)
    requires j < s.delivered && s.wire[j].msg.JobFinished? && V.Needed(cfg.job, m)
    ensures s.v.deadline.Some?
    ensures !m.Accepted? ==> q <= j && C.Meets(cfg.job.uuid, s.v.seen[q].msg, m)
  {
    WireMessage(cfg, s, j);
    var i := Origin(s, j);
    E.SentIsScriptOrFailure(cfg.world, s.e, i);
    E.ScriptWords(cfg.world, s.e.initial.value, i);
    E.SentIsScriptOrFailure(cfg.world, s.e, 1);
    E.ScriptWords(cfg.world, s.e.initial.value, 1);
    q := 0;
    if !m.Accepted? {
      ScriptMeets(cfg, m);
      var n := ScriptIndex(cfg, m);
      E.SentIsScriptOrFailure(cfg.world, s.e, n);
      q := Position(s, n);
      assert s.wire[q] == s.e.sent[n];
    }
  }

  /** Agreement: if the validator ends without timing out, its outcome is the one announced by the first
      terminal message the executor sent - even if a deadline cut the executor off right after its
      JobFinished went out and a failure report followed. */
  lemma OutcomeIsFirstTerminal(cfg: Config, now: int, steps: seq<Step>)
    requires After(cfg, now, steps).Some?
    ensures
      var s := After(cfg, now, steps).value;
      !s.v.pc.Awaiting? && !(s.v.pc.Raised? && s.v.pc.error.TimedOut?) ==>
        exists i: nat :: FirstTerminalIs(s.wire, i) && i < s.delivered && Verdict(s.wire[i].msg, s.v.pc)
  {
    Reachable(cfg, now, steps);
    var s := After(cfg, now, steps).value;
    if s.v.pc.Returned? {
      ReturnedAgrees(cfg, s);
    } else if s.v.pc.Raised? && s.v.pc.error.Reported? {
      RaisedAgrees(cfg, s);
    }
  }

  lemma ReturnedAgrees(cfg: Config, s: State)
    requires Inv(cfg, s) && s.v.pc.Returned?
    ensures exists i: nat :: FirstTerminalIs(s.wire, i) && i < s.delivered && Verdict(s.wire[i].msg, s.v.pc)
  {
    var uuid := cfg.job.uuid;
    assert s.v.client.Get(Finished) == s.v.client.finished && C.Decided(uuid, s.v.seen, Finished, s.v.client.finished);
    var i: nat :| C.FirstSettlingIs(uuid, s.v.seen, Finished, i) && s.v.seen[i].msg == s.v.client.finished.msg;
    forall j | 0 <= j < i
      ensures !Terminal(s.wire[j].msg)
    {
      assert !C.Settles(uuid, s.v.seen[j].msg, Finished);
      WireVocabulary(cfg, s, j);
    }
    assert FirstTerminalIs(s.wire, i);
  }

  /** A failure that settles a needed milestone of an unfinished job precedes any JobFinished. */
  lemma SettlingFailureIsFirst(cfg: Config, s: State, k: Milestone, i: nat)
    requires WireOk(cfg, s) && SeenOk(s) && JointOk(cfg, s) && E.Coherent(s.e) && E.ShapeOk(cfg.world, s.e)
    requires E.PayloadOk(s.e)
    requires V.Needed(cfg.job, k) && (k.Accepted? ==> s.v.deadline.None?)
    requires C.FirstSettlingIs(cfg.job.uuid, s.v.seen, k, i) && C.FailureIn(cfg.job.uuid, s.v.seen[i].msg).Some?
    ensures FirstTerminalIs(s.wire, i)
  {
    WireVocabulary(cfg, s, i);
    forall j | 0 <= j < i
      ensures !Terminal(s.wire[j].msg)
    {
      assert !C.Settles(cfg.job.uuid, s.v.seen[j].msg, k);
      WireVocabulary(cfg, s, j);
      if s.wire[j].msg.JobFinished? {
        var q := FinishedComesLast(cfg, s, j, k);
        assert false;
      }
    }
  }

  lemma RaisedAgrees(cfg: Config, s: State)
    requires Inv(cfg, s) && s.v.pc.Raised? && s.v.pc.error.Reported?
    ensures exists i: nat :: FirstTerminalIs(s.wire, i) && i < s.delivered && Verdict(s.wire[i].msg, s.v.pc)
  {
    var k, i := ReportedFailureArrived(cfg, s);
    SettlingFailureIsFirst(cfg, s, k, i);
    WireVocabulary(cfg, s, i);
  }

  /** A reported failure came in a message that was the first to settle a needed milestone. */
  lemma ReportedFailureArrived(cfg: Config, s: State) returns (k: Milestone, i: nat)
    requires V.Inv(cfg.job, s.v) && s.v.pc.Raised? && s.v.pc.error.Reported?
    ensures V.Needed(cfg.job, k) && s.v.client.Get(k) == C.Exception(s.v.pc.error.failure)
    ensures C.FirstSettlingIs(cfg.job.uuid, s.v.seen, k, i)
    ensures C.FailureIn(cfg.job.uuid, s.v.seen[i].msg) == Some(s.v.pc.error.failure)
  {
    var uuid := cfg.job.uuid;
    k :| V.Needed(cfg.job, k) && s.v.client.Get(k) == C.Exception(s.v.pc.error.failure);
    assert C.Decided(uuid, s.v.seen, k, s.v.client.Get(k));
    i :| C.FirstSettlingIs(uuid, s.v.seen, k, i) && C.FailureIn(uuid, s.v.seen[i].msg) == Some(s.v.pc.error.failure);
  }
}
