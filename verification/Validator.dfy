/** `execute_organic_job_on_miner` as a timed state machine
    (compute_horde/compute_horde/miner_client/organic.py). Between two awaits the coroutine
    runs without interruption, so one `Resume` step covers everything up to the next await.
    Messages may be handled at any point, in any order and number: the miner is an adversary. */
module Validator {
  import opened Messages
  import opened Deadlines
  import C = Client

  /** Return value: absent artifacts and upload results become empty dictionaries. */
  datatype Output = Output(
    stdout: string, stderr: string,
    artifacts: map<string, string>, uploadResults: map<string, string>)

  function Unpack(o: JobOutput): Output {
    Output(o.stdout, o.stderr,
           if o.artifacts.Some? then o.artifacts.value else map[],
           if o.uploadResults.Some? then o.uploadResults.value else map[])
  }

  /** `out` hands on what `o` announced, with nothing for what it left out. */
  predicate Carries(out: Output, o: JobOutput) {
    && out.stdout == o.stdout && out.stderr == o.stderr
    && (o.artifacts.Some? ==> out.artifacts == o.artifacts.value)
    && (o.artifacts.None? ==> out.artifacts == map[])
    && (o.uploadResults.Some? ==> out.uploadResults == o.uploadResults.value)
    && (o.uploadResults.None? ==> out.uploadResults == map[])
  }

  /** `TimedOut(m)` is MinerTimedOut with the reason that belongs to `m`. */
  datatype Error = TimedOut(m: Milestone) | Reported(failure: C.Failure)

  datatype Outgoing =
    | StartedReceipt(ttl: int)
    | InitialRequest
    | AcceptedReceipt(at: int, ttl: int)
    | JobRequest(at: int)
    | FinishedReceipt(at: int, score: int, blocks: seq<int>)

  datatype Pc = Awaiting(m: Milestone) | Returned(output: Output, at: int) | Raised(error: Error, at: int)

  datatype State = State(
    client: C.State, pc: Pc, clock: int, waitUntil: int,
    acceptedAt: Option<int>, deadline: Option<Deadline>,
    sent: seq<Outgoing>, seen: seq<Stamped>)

  /** `Deliver`: the reader task handles a message. `Elapse`: time passes, which it only does while
      the coroutine is blocked. `Resume`: the awaited future is done. `Expire`: `wait_for` gives up. */
  datatype Step = Deliver(msg: Message) | Elapse(d: nat) | Resume | Expire

  /** The state at the first await: connected, receipt signed, initial request out. */
  function Init(job: Job, now: int): State {
    State(C.Fresh, Awaiting(Accepted), now, now + job.reservationLimit, None, None,
          [StartedReceipt(job.reservationLimit), InitialRequest], [])
  }

  predicate Enabled(s: State, step: Step) {
    match step
    case Deliver(_) => true
    case Elapse(d) =>
      s.pc.Awaiting? ==> s.client.Get(s.pc.m).Pending? && s.clock + d <= s.waitUntil
    case Resume =>
      s.pc.Awaiting? && (s.client.Get(s.pc.m).Result? || s.client.Get(s.pc.m).Exception?)
    case Expire =>
      s.pc.Awaiting? && s.client.Get(s.pc.m).Pending? && s.waitUntil <= s.clock
  }

  function AcceptedTtl(job: Job): int {
    job.ReadinessLimit() + if job.timing.Some? then job.timing.value.Total() else job.totalTimeout
  }

  function StageLimit(t: Timing, m: Milestone): int {
    match m
    case Volumes => t.download
    case Streaming => t.streamingStart
    case Execution => t.execution
    case Finished => t.upload
    case Accepted => 0
    case Ready => 0
  }

  /** Start waiting for `m`: with fine-grained timing the deadline is extended first. */
  function Enter(job: Job, s: State, d: Deadline, m: Milestone): State {
    var extended := if job.timing.Some? then d.Extend(StageLimit(job.timing.value, m)) else d;
    s.(pc := Awaiting(m), deadline := Some(extended), waitUntil := s.clock + extended.TimeLeft(s.clock))
  }

  function Raise(s: State, e: Error): State {
    s.(pc := Raised(e, s.clock), sent := s.sent + [FinishedReceipt(s.clock, 0, [])])
  }

  function Advance(job: Job, s: State, msg: Message): State
    requires s.pc.Awaiting? && (s.pc.m.Finished? ==> msg.JobFinished?)
    requires !s.pc.m.Accepted? && !s.pc.m.Ready? ==> s.deadline.Some?
  {
    match s.pc.m
    case Accepted =>
      s.(pc := Awaiting(Ready), acceptedAt := Some(s.clock), waitUntil := s.clock + job.ReadinessLimit(),
         sent := s.sent + [AcceptedReceipt(s.clock, AcceptedTtl(job))])
    case Ready =>
      var d := Deadline(s.clock, if job.timing.Some? then job.timing.value.leeway else job.totalTimeout);
      Enter(job, s.(sent := s.sent + [JobRequest(s.clock)]), d, Volumes)
    case Volumes => Enter(job, s, s.deadline.value, if job.streaming then Streaming else Execution)
    case Streaming => Enter(job, s, s.deadline.value, Execution)
    case Execution => Enter(job, s, s.deadline.value, Finished)
    case Finished =>
      s.(pc := Returned(Unpack(msg.output), s.clock),
         sent := s.sent + [FinishedReceipt(s.clock, job.value, job.blocks)])
  }

  /** What the code relies on from one await to the next. */
  predicate Coherent(s: State) {
    && (s.pc.Awaiting? && !s.pc.m.Accepted? && !s.pc.m.Ready? ==> s.deadline.Some?)
    && (s.client.finished.Result? ==> s.client.finished.msg.JobFinished?)
  }

  function Next(job: Job, s: State, step: Step): State
    requires Coherent(s) && Enabled(s, step)
  {
    match step
    case Deliver(msg) =>
      s.(client := C.Handle(s.client, job.uuid, msg, s.clock), seen := s.seen + [Stamped(msg, s.clock)])
    case Elapse(d) => s.(clock := s.clock + d)
    case Resume =>
      var f := s.client.Get(s.pc.m);
      if f.Result? then Advance(job, s, f.msg) else Raise(s, Reported(f.error))
    case Expire => Raise(s.(client := s.client.Set(s.pc.m, C.Cancelled)), TimedOut(s.pc.m))
  }

  // ----- the invariant

  function Rank(m: Milestone): nat {
    match m
    case Accepted => 0 case Ready => 1 case Volumes => 2 case Streaming => 3 case Execution => 4 case Finished => 5
  }

  predicate Needed(job: Job, m: Milestone) {
    m.Streaming? ==> job.streaming
  }

  ghost predicate MetBefore(job: Job, s: State, k: Milestone) {
    forall m :: Needed(job, m) && Rank(m) < Rank(k) ==> s.client.Get(m).Result?
  }

  /** Every future is decided by the first message that concerns it, except the one a timeout cancelled. */
  ghost predicate FuturesOk(job: Job, s: State) {
    forall m ::
      || C.Decided(job.uuid, s.seen, m, s.client.Get(m))
      || (s.client.Get(m).Cancelled? && s.pc.Raised? && s.pc.error == TimedOut(m))
  }

  ghost predicate ProgressOk(job: Job, s: State) {
    match s.pc
    case Awaiting(k) => Needed(job, k) && MetBefore(job, s, k)
    case Returned(o, _) =>
      && (forall m :: Needed(job, m) ==> s.client.Get(m).Result?)
      && s.client.finished.Result? && s.client.finished.msg.JobFinished? && o == Unpack(s.client.finished.msg.output)
    case Raised(TimedOut(k), _) => Needed(job, k) && MetBefore(job, s, k) && s.client.Get(k).Cancelled?
    case Raised(Reported(e), _) =>
      exists k :: Needed(job, k) && MetBefore(job, s, k) && s.client.Get(k) == C.Exception(e)
  }

  function Closing(job: Job, pc: Pc): seq<Outgoing> {
    match pc
    case Awaiting(_) => []
    case Returned(_, t) => [FinishedReceipt(t, job.value, job.blocks)]
    case Raised(_, t) => [FinishedReceipt(t, 0, [])]
  }

  predicate SentOk(job: Job, s: State) {
    && s.sent == [StartedReceipt(job.reservationLimit), InitialRequest]
       + (if s.acceptedAt.Some? then [AcceptedReceipt(s.acceptedAt.value, AcceptedTtl(job))] else [])
       + (if s.deadline.Some? then [JobRequest(s.deadline.value.start)] else [])
       + Closing(job, s.pc)
    && (s.deadline.Some? ==> s.acceptedAt.Some? && s.client.ready.Result?)
    && (s.acceptedAt.Some? ==> s.client.accepted.Result?)
    && (s.pc.Returned? ==> s.deadline.Some?)
  }

  predicate WaitOk(job: Job, s: State) {
    match s.pc
    case Awaiting(Accepted) => s.acceptedAt.None? && s.deadline.None?
    case Awaiting(Ready) =>
      && s.acceptedAt.Some? && s.deadline.None?
      && s.waitUntil == s.acceptedAt.value + job.ReadinessLimit()
    case Awaiting(k) =>
      && s.acceptedAt.Some? && s.deadline.Some?
      && s.deadline.value.timeout == job.Budget(k)
      && s.waitUntil == s.deadline.value.start + job.Budget(k)
    case Returned(_, _) => s.deadline.Some? && s.deadline.value.timeout == job.Budget(Finished)
    case Raised(_, _) => true
  }

  predicate ClockOk(job: Job, s: State) {
    && (s.acceptedAt.Some? ==> s.acceptedAt.value <= s.clock)
    && (s.deadline.Some? ==>
        s.acceptedAt.Some? && s.acceptedAt.value <= s.deadline.value.start <= s.acceptedAt.value + job.ReadinessLimit())
    && (s.pc.Awaiting? ==> s.clock <= s.waitUntil)
    && (!s.pc.Awaiting? && s.acceptedAt.Some? ==>
        s.pc.at <= s.acceptedAt.value + AcceptedTtl(job))
  }

  ghost predicate Inv(job: Job, s: State) {
    && Coherent(s) && FuturesOk(job, s) && ProgressOk(job, s) && SentOk(job, s) && WaitOk(job, s)
    && (job.NonNegative() ==> ClockOk(job, s))
  }

  lemma InitInv(job: Job, now: int)
    ensures Inv(job, Init(job, now))
  {
  }

  lemma DeliverKeepsFutures(job: Job, s: State, msg: Message)
    requires Coherent(s) && FuturesOk(job, s)
    ensures FuturesOk(job, Next(job, s, Deliver(msg)))
    ensures forall m :: !s.client.Get(m).Pending? ==> Next(job, s, Deliver(msg)).client.Get(m) == s.client.Get(m)
  {
    forall m
      ensures var t := Next(job, s, Deliver(msg));
        && (!s.client.Get(m).Pending? ==> t.client.Get(m) == s.client.Get(m))
        && (C.Decided(job.uuid, s.seen, m, s.client.Get(m)) ==> C.Decided(job.uuid, t.seen, m, t.client.Get(m)))
    {
      C.HandleOne(s.client, job.uuid, msg, s.clock, m);
      if C.Decided(job.uuid, s.seen, m, s.client.Get(m)) {
        C.DecidedStep(s.client, job.uuid, s.seen, msg, s.clock, m);
      }
    }
  }

  lemma DeliverKeepsProgress(job: Job, s: State, t: State)
    requires ProgressOk(job, s) && t.pc == s.pc
    requires forall m :: !s.client.Get(m).Pending? ==> t.client.Get(m) == s.client.Get(m)
    ensures ProgressOk(job, t)
  {
    assert s.client.finished == s.client.Get(Finished) && t.client.finished == t.client.Get(Finished);
    if s.pc.Raised? && s.pc.error.Reported? {
      var k :| Needed(job, k) && MetBefore(job, s, k) && s.client.Get(k) == C.Exception(s.pc.error.failure);
      assert MetBefore(job, t, k);
    }
  }

  lemma DeliverKeepsInv(job: Job, s: State, msg: Message)
    requires Inv(job, s)
    ensures Inv(job, Next(job, s, Deliver(msg)))
  {
    var t := s.(client := C.Handle(s.client, job.uuid, msg, s.clock), seen := s.seen + [Stamped(msg, s.clock)]);
    StepKeepsCoherent(job, s, Deliver(msg));
    DeliverKeepsFutures(job, s, msg);
    DeliverKeepsProgress(job, s, t);
    assert s.client.accepted == s.client.Get(Accepted) && t.client.accepted == t.client.Get(Accepted);
    assert s.client.ready == s.client.Get(Ready) && t.client.ready == t.client.Get(Ready);
  }

  lemma ExpireKeepsInv(job: Job, s: State)
    requires Inv(job, s) && Enabled(s, Expire)
    ensures Inv(job, Next(job, s, Expire))
  {
    StepKeepsCoherent(job, s, Expire);
    var k := s.pc.m;
    var t := Next(job, s, Expire);
    assert forall m :: m != k ==> t.client.Get(m) == s.client.Get(m);
    assert t.client.Get(k) == C.Cancelled;
  }

  lemma ResumeKeepsProgress(job: Job, s: State)
    requires Inv(job, s) && Enabled(s, Resume)
    ensures FuturesOk(job, Next(job, s, Resume)) && ProgressOk(job, Next(job, s, Resume))
  {
    var k := s.pc.m;
    var t := Next(job, s, Resume);
    assert t.client == s.client && t.seen == s.seen;
    assert C.Decided(job.uuid, s.seen, k, s.client.Get(k));
    if s.client.Get(k).Exception? {
      assert MetBefore(job, t, k);
    }
  }

  lemma ResumeKeepsSent(job: Job, s: State)
    requires Coherent(s) && SentOk(job, s) && WaitOk(job, s) && Enabled(s, Resume)
    ensures SentOk(job, Next(job, s, Resume))
  {
    assert s.client.accepted == s.client.Get(Accepted) && s.client.ready == s.client.Get(Ready);
  }

  lemma ResumeKeepsWait(job: Job, s: State)
    requires Coherent(s) && WaitOk(job, s) && Enabled(s, Resume) && Needed(job, s.pc.m)
    ensures WaitOk(job, Next(job, s, Resume))
  {
  }

  lemma ResumeKeepsClock(job: Job, s: State)
    requires Coherent(s) && SentOk(job, s) && WaitOk(job, s) && ClockOk(job, s) && Enabled(s, Resume)
    requires job.NonNegative()
    ensures ClockOk(job, Next(job, s, Resume))
  {
  }

  lemma StepKeepsCoherent(job: Job, s: State, step: Step)
    requires Coherent(s) && Enabled(s, step)
    ensures Coherent(Next(job, s, step))
  {
    if step.Deliver? {
      var t := Next(job, s, step);
      C.HandleOne(s.client, job.uuid, step.msg, s.clock, Finished);
      assert s.client.finished == s.client.Get(Finished) && t.client.finished == t.client.Get(Finished);
    }
  }

  lemma StepKeepsInv(job: Job, s: State, step: Step)
    requires Inv(job, s) && Enabled(s, step)
    ensures Inv(job, Next(job, s, step))
  {
    StepKeepsCoherent(job, s, step);
    match step
    case Deliver(msg) => DeliverKeepsInv(job, s, msg);
    case Elapse(d) =>
    case Resume =>
      ResumeKeepsProgress(job, s);
      ResumeKeepsSent(job, s);
      ResumeKeepsWait(job, s);
      if job.NonNegative() { ResumeKeepsClock(job, s); }
    case Expire => ExpireKeepsInv(job, s);
  }

  /** The state a sequence of steps leads to, if every step was possible. */
  function After(job: Job, now: int, steps: seq<Step>): (r: Option<State>)
    ensures r.Some? ==> Coherent(r.value)
  {
    if steps == [] then Some(Init(job, now))
    else
      var before := After(job, now, steps[..|steps| - 1]);
      var step := steps[|steps| - 1];
      if before.Some? && Enabled(before.value, step) then
        StepKeepsCoherent(job, before.value, step);
        Some(Next(job, before.value, step))
      else None
  }

  lemma {:induction false} Reachable(job: Job, now: int, steps: seq<Step>)
    requires After(job, now, steps).Some?
    ensures Inv(job, After(job, now, steps).value)
  {
    if steps == [] {
      InitInv(job, now);
    } else {
      Reachable(job, now, steps[..|steps| - 1]);
      StepKeepsInv(job, After(job, now, steps[..|steps| - 1]).value, steps[|steps| - 1]);
    }
  }

  lemma AwaitedNeverCancelled(job: Job, now: int, steps: seq<Step>)
    requires After(job, now, steps).Some?
    ensures var s := After(job, now, steps).value;
      s.pc.Awaiting? ==> !s.client.Get(s.pc.m).Cancelled?
  {
    Reachable(job, now, steps);
    var s := After(job, now, steps).value;
    if s.pc.Awaiting? {
      assert C.Decided(job.uuid, s.seen, s.pc.m, s.client.Get(s.pc.m));
    }
  }

  // ----- whole-run theorems

  function FinishedReceipts(sent: seq<Outgoing>): seq<Outgoing> {
    if sent == [] then []
    else FinishedReceipts(sent[..|sent| - 1]) + if sent[|sent| - 1].FinishedReceipt? then [sent[|sent| - 1]] else []
  }

  lemma {:induction false} FinishedReceiptsOf(sent: seq<Outgoing>, closing: seq<Outgoing>)
    requires forall o :: o in sent ==> !o.FinishedReceipt?
    requires |closing| <= 1 && forall o :: o in closing ==> o.FinishedReceipt?
    ensures FinishedReceipts(sent + closing) == closing
    decreases |sent| + |closing|
  {
    if closing != [] {
      assert (sent + closing)[..|sent + closing| - 1] == sent + [];
      FinishedReceiptsOf(sent, []);
      assert closing == [closing[0]];
    } else if sent != [] {
      assert sent + closing == sent;
      FinishedReceiptsOf(sent[..|sent| - 1], []);
      assert sent[..|sent| - 1] + [] == sent[..|sent| - 1];
    }
  }

  /** For every miner behaviour and every timing: a job that is still running has issued no finished
      receipt; a job that ended has issued exactly one, at the instant it ended, which pays the job's
      value and allowance blocks if the job returned a result and nothing if it raised. */
  lemma ExactlyOneFinishedReceipt(job: Job, now: int, steps: seq<Step>)
    requires After(job, now, steps).Some?
    ensures
      var s := After(job, now, steps).value;
      FinishedReceipts(s.sent) ==
        match s.pc
        case Awaiting(_) => []
        case Returned(_, t) => [FinishedReceipt(t, job.value, job.blocks)]
        case Raised(_, t) => [FinishedReceipt(t, 0, [])]
  {
    Reachable(job, now, steps);
    OneClosing(job, After(job, now, steps).value);
  }

  lemma OneClosing(job: Job, s: State)
    requires SentOk(job, s)
    ensures FinishedReceipts(s.sent) == Closing(job, s.pc)
  {
    var prefix := [StartedReceipt(job.reservationLimit), InitialRequest]
       + (if s.acceptedAt.Some? then [AcceptedReceipt(s.acceptedAt.value, AcceptedTtl(job))] else [])
       + (if s.deadline.Some? then [JobRequest(s.deadline.value.start)] else []);
    FinishedReceiptsOf(prefix, Closing(job, s.pc));
  }

  ghost predicate Arrived(job: Job, seen: seq<Stamped>, m: Milestone) {
    exists i :: 0 <= i < |seen| && C.Meets(job.uuid, seen[i].msg, m)
  }

  /** Against an adversarial miner: a result is returned only if every milestone the job needs was
      announced for this very job, and it is the output of the first such JobFinished; the job
      request only goes out after acceptance and readiness were announced. */
  lemma ResultOnlyAfterEveryMilestone(job: Job, now: int, steps: seq<Step>)
    requires After(job, now, steps).Some?
    ensures
      var s := After(job, now, steps).value;
      && (s.pc.Returned? ==>
          && (forall m :: Needed(job, m) ==> Arrived(job, s.seen, m))
          && exists i: nat :: C.FirstSettlingIs(job.uuid, s.seen, Finished, i)
               && s.seen[i].msg.JobFinished? && Carries(s.pc.output, s.seen[i].msg.output))
      && ((exists t :: JobRequest(t) in s.sent) ==> Arrived(job, s.seen, Accepted) && Arrived(job, s.seen, Ready))
  {
    Reachable(job, now, steps);
    var s := After(job, now, steps).value;
    forall m | s.client.Get(m).Result?
      ensures Arrived(job, s.seen, m)
    {
      assert C.Decided(job.uuid, s.seen, m, s.client.Get(m));
    }
    assert s.client.accepted == s.client.Get(Accepted) && s.client.ready == s.client.Get(Ready);
    if s.pc.Returned? {
      assert s.client.Get(Finished) == s.client.finished;
      assert C.Decided(job.uuid, s.seen, Finished, s.client.finished);
    }
  }

  /** An awaited failure is the first one the miner announced, or a timeout. */
  lemma RaisedIsFirstFailureOrTimeout(job: Job, now: int, steps: seq<Step>)
    requires After(job, now, steps).Some?
    ensures
      var s := After(job, now, steps).value;
      s.pc.Raised? && s.pc.error.Reported? ==>
        exists i: nat :: i < |s.seen| && C.FailureIn(job.uuid, s.seen[i].msg) == Some(s.pc.error.failure)
          && forall j :: 0 <= j < i ==> C.FailureIn(job.uuid, s.seen[j].msg).None?
  {
    Reachable(job, now, steps);
    var s := After(job, now, steps).value;
    if s.pc.Raised? && s.pc.error.Reported? {
      var k :| Needed(job, k) && s.client.Get(k) == C.Exception(s.pc.error.failure);
      var i: nat :| C.FirstSettlingIs(job.uuid, s.seen, k, i)
        && C.FailureIn(job.uuid, s.seen[i].msg) == Some(s.pc.error.failure);
      forall j | 0 <= j < i
        ensures C.FailureIn(job.uuid, s.seen[j].msg).None?
      {
        assert !C.Settles(job.uuid, s.seen[j].msg, k);
      }
    }
  }

  /** Deadlines: a run never outlives the accepted receipt it sent, and by the last stage the
      deadline has been extended to the job's total (less the streaming allowance when the job
      does not stream). */
  lemma EndsWithinAcceptedReceipt(job: Job, now: int, steps: seq<Step>)
    requires After(job, now, steps).Some?
    ensures
      var s := After(job, now, steps).value;
      && (job.NonNegative() ==> forall a, ttl, t, score, blocks ::
            AcceptedReceipt(a, ttl) in s.sent && FinishedReceipt(t, score, blocks) in s.sent ==> t <= a + ttl)
      && (s.pc.Awaiting? && s.pc.m.Finished? && job.timing.Some? ==>
            && s.deadline.Some?
            && s.deadline.value.timeout ==
                 job.timing.value.Total() - (if job.streaming then 0 else job.timing.value.streamingStart)
            && s.waitUntil == s.deadline.value.start + s.deadline.value.timeout)
  {
    Reachable(job, now, steps);
  }

  lemma ReturnedIsAnnounced(job: Job, now: int, steps: seq<Step>)
    requires After(job, now, steps).Some? && After(job, now, steps).value.pc.Returned?
    ensures var s := After(job, now, steps).value;
      && s.client.finished.Result? && s.client.finished.msg.JobFinished?
      && Carries(s.pc.output, s.client.finished.msg.output)
  {
    Reachable(job, now, steps);
  }

  /** Until the job is accepted the validator waits for as long as a reservation may take, from the beginning. */
  lemma {:induction false} ReservationWait(job: Job, now: int, steps: seq<Step>)
    requires After(job, now, steps).Some?
    ensures var s := After(job, now, steps).value;
      s.pc == Awaiting(Accepted) ==> s.waitUntil == now + job.reservationLimit
  {
    if steps != [] { ReservationWait(job, now, steps[..|steps| - 1]); }
  }

  /** Every wait and the accepted receipt's TTL, in terms of the job's own limits. */
  lemma WaitsInWords(job: Job, now: int, steps: seq<Step>)
    requires After(job, now, steps).Some?
    ensures
      var s := After(job, now, steps).value;
      && (s.pc == Awaiting(Ready) ==>
            s.acceptedAt.Some? && s.waitUntil == s.acceptedAt.value + job.spinupLimit + job.startupLimit)
      && (s.pc.Awaiting? && !s.pc.m.Accepted? && !s.pc.m.Ready? ==>
            s.deadline.Some? && s.waitUntil == s.deadline.value.start + s.deadline.value.timeout)
    ensures
      var s := After(job, now, steps).value;
      forall a, ttl :: AcceptedReceipt(a, ttl) in s.sent ==>
        s.acceptedAt == Some(a) && ttl == job.spinupLimit + job.startupLimit + match job.timing
          case None => job.totalTimeout
          case Some(t) => t.leeway + t.download + t.execution + t.upload + t.streamingStart
    ensures
      var s := After(job, now, steps).value;
      s.pc.Awaiting? && s.deadline.Some? && job.timing.None? ==> s.deadline.value.timeout == job.totalTimeout
    ensures
      var s := After(job, now, steps).value;
      s.pc.Awaiting? && s.deadline.Some? && job.timing.Some? ==>
        var t, timeout := job.timing.value, s.deadline.value.timeout;
        var started := if job.streaming then t.streamingStart else 0;
        && (s.pc.m.Volumes? ==> timeout == t.leeway + t.download)
        && (s.pc.m.Streaming? ==> timeout == t.leeway + t.download + t.streamingStart)
        && (s.pc.m.Execution? ==> timeout == t.leeway + t.download + started + t.execution)
        && (s.pc.m.Finished? ==> timeout == t.leeway + t.download + started + t.execution + t.upload)
  {
    Reachable(job, now, steps);
  }

  // ----- messages for other jobs

  predicate Foreign(job: Job, step: Step) {
    step.Deliver? && step.msg.HasUuid() && step.msg.uuid != job.uuid
  }

  function Erase(job: Job, steps: seq<Step>): seq<Step> {
    if steps == [] then []
    else
      var init, last := Erase(job, steps[..|steps| - 1]), steps[|steps| - 1];
      if Foreign(job, last) then init else init + [last]
  }

  /** What is erased are exactly the foreign messages; the rest keeps its order. */
  lemma {:induction false} EraseExactly(job: Job, a: seq<Step>, b: seq<Step>, step: Step)
    ensures Erase(job, a + b) == Erase(job, a) + Erase(job, b)
    ensures Erase(job, [step]) ==
      if step.Deliver? && step.msg.HasUuid() && step.msg.uuid != job.uuid then [] else [step]
    ensures Erase(job, []) == []
  {
    assert [step][..0] == [];
    if b == [] {
      assert a + b == a;
    } else {
      assert (a + b)[..|a + b| - 1] == a + b[..|b| - 1];
      EraseExactly(job, a, b[..|b| - 1], step);
    }
  }

  lemma SameButHistory(job: Job, s: State, t: State, step: Step)
    requires Coherent(s) && Coherent(t) && s.(seen := []) == t.(seen := [])
    ensures Enabled(s, step) == Enabled(t, step)
    ensures Enabled(s, step) ==> Next(job, s, step).(seen := []) == Next(job, t, step).(seen := [])
  {
  }

  /** Deleting every message meant for another job from a run leaves a run that ends in the same
      state: same futures, same clock, same outgoing messages, same outcome. */
  lemma {:induction false} ForeignMessagesChangeNothing(job: Job, now: int, steps: seq<Step>)
    requires After(job, now, steps).Some?
    ensures After(job, now, Erase(job, steps)).Some?
    ensures After(job, now, Erase(job, steps)).value.(seen := []) == After(job, now, steps).value.(seen := [])
  {
    if steps != [] {
      var init, last := steps[..|steps| - 1], steps[|steps| - 1];
      ForeignMessagesChangeNothing(job, now, init);
      if !Foreign(job, last) {
        var erased := Erase(job, steps);
        assert erased[..|erased| - 1] == Erase(job, init);
        SameButHistory(job, After(job, now, init).value, After(job, now, Erase(job, init)).value, last);
      }
    }
  }
}
