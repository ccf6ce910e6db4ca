/** The validator's client: six one-shot futures fed by whatever the miner sends
    (compute_horde/compute_horde/miner_client/organic.py). */
module Client {
  import opened Messages

  datatype Failure =
    | MinerRejectedJob(why: string)
    | MinerReportedJobFailed(stage: JobStage, jobReason: JobReason)
    | MinerReportedHordeFailed(reportedBy: Participant, hordeReason: HordeReason)

  /** `Cancelled` is what `asyncio.wait_for` leaves behind when it times out. The timestamp
      attribute that accompanies each successful future is kept inside `Result`. */
  datatype Future = Pending | Result(msg: Message, at: int) | Exception(error: Failure) | Cancelled

  datatype State = State(
    accepted: Future, ready: Future, streaming: Future, volumes: Future,
    execution: Future, finished: Future,
    manifest: Option<nat>, specs: Option<string>)
  {
    function Get(m: Milestone): Future {
      match m
      case Accepted => accepted
      case Ready => ready
      case Streaming => streaming
      case Volumes => volumes
      case Execution => execution
      case Finished => finished
    }

    function Set(m: Milestone, f: Future): State {
      match m
      case Accepted => this.(accepted := f)
      case Ready => this.(ready := f)
      case Streaming => this.(streaming := f)
      case Volumes => this.(volumes := f)
      case Execution => this.(execution := f)
      case Finished => this.(finished := f)
    }

    /** `set_result` / `set_exception`, with InvalidStateError swallowed. */
    function Settle(m: Milestone, f: Future): State {
      if Get(m).Pending? then Set(m, f) else this
    }

    /** Every future still pending gets the exception. */
    function FailAll(e: Failure): State {
      State(Fail(accepted, e), Fail(ready, e), Fail(streaming, e), Fail(volumes, e), Fail(execution, e), Fail(finished, e),
            manifest, specs)
    }
  }

  function Fail(f: Future, e: Failure): Future {
    if f.Pending? then Exception(e) else f
  }

  const Fresh: State := State(Pending, Pending, Pending, Pending, Pending, Pending, None, None)

  /** `handle_message` as a function of the client's state. */
  function Handle(c: State, job: string, msg: Message, now: int): State
    decreases if msg.StreamingNotReady? || msg.ExecutorFailed? then 1 else 0
  {
    if msg.GenericError? || msg.Unauthorized? then c
    else if msg.Manifest? then
      if c.manifest.None? then c.(manifest := Some(msg.executors)) else c
    else if msg.HasUuid() && msg.uuid != job then c
    else if msg.Accept? then c.Settle(Accepted, Result(msg, now))
    else if msg.ExecutorReady? then c.Settle(Ready, Result(msg, now))
    else if msg.StreamingReady? then c.Settle(Streaming, Result(msg, now))
    else if msg.StreamingNotReady? then Handle(c, job, HordeFailed(msg.uuid, Miner, StreamingFailed), now)
    else if msg.ExecutorFailed? then Handle(c, job, HordeFailed(msg.uuid, Miner, Generic), now)
    else if msg.VolumesReady? then c.Settle(Volumes, Result(msg, now))
    else if msg.ExecutionDone? then c.Settle(Execution, Result(msg, now))
    else if msg.JobFinished? then c.Settle(Finished, Result(msg, now))
    else if msg.Decline? then c.FailAll(MinerRejectedJob(msg.why))
    else if msg.JobFailed? then c.FailAll(MinerReportedJobFailed(msg.stage, msg.jobReason))
    else if msg.HordeFailed? then c.FailAll(MinerReportedHordeFailed(msg.reportedBy, msg.hordeReason))
    else if msg.MachineSpecs? then c.(specs := Some(msg.specs))
    else c
  }

  // ----- what a message means to a job, independently of the client's state

  /** The failure a message announces to `job`, if any; two legacy messages announce one too. */
  function FailureIn(job: string, msg: Message): Option<Failure> {
    if !msg.HasUuid() || msg.uuid != job then None
    else match msg
      case Decline(_, why) => Some(MinerRejectedJob(why))
      case JobFailed(_, s, r) => Some(MinerReportedJobFailed(s, r))
      case HordeFailed(_, p, r) => Some(MinerReportedHordeFailed(p, r))
      case StreamingNotReady(_) => Some(MinerReportedHordeFailed(Miner, StreamingFailed))
      case ExecutorFailed(_) => Some(MinerReportedHordeFailed(Miner, Generic))
      case _ => None
  }

  predicate Meets(job: string, msg: Message, m: Milestone) {
    && msg.HasUuid() && msg.uuid == job
    && match m
       case Accepted => msg.Accept?
       case Ready => msg.ExecutorReady?
       case Streaming => msg.StreamingReady?
       case Volumes => msg.VolumesReady?
       case Execution => msg.ExecutionDone?
       case Finished => msg.JobFinished?
  }

  predicate Settles(job: string, msg: Message, m: Milestone) {
    Meets(job, msg, m) || FailureIn(job, msg).Some?
  }

  ghost predicate Unsettled(job: string, seen: seq<Stamped>, upTo: nat, m: Milestone)
    requires upTo <= |seen|
  {
    forall j :: 0 <= j < upTo ==> !Settles(job, seen[j].msg, m)
  }

  ghost predicate FirstSettlingIs(job: string, seen: seq<Stamped>, m: Milestone, i: nat) {
    i < |seen| && Unsettled(job, seen, i, m) && Settles(job, seen[i].msg, m)
  }

  /** The reference meaning of a future: it is decided by the FIRST message of the history that
      concerns it - its own success message, or any failure - and by nothing that came later. */
  ghost predicate Decided(job: string, seen: seq<Stamped>, m: Milestone, f: Future) {
    match f
    case Pending => Unsettled(job, seen, |seen|, m)
    case Result(msg, at) =>
      exists i: nat :: FirstSettlingIs(job, seen, m, i) && Meets(job, msg, m) && seen[i] == Stamped(msg, at)
    case Exception(e) =>
      exists i: nat :: FirstSettlingIs(job, seen, m, i) && FailureIn(job, seen[i].msg) == Some(e)
    case Cancelled => false
  }

  /** Handling one message: a settled future never moves again, and a pending one moves exactly
      when the message settles it, to exactly that message or failure. */
  lemma HandleOne(c: State, job: string, msg: Message, now: int, m: Milestone)
    ensures Handle(c, job, msg, now).Get(m) ==
      if !c.Get(m).Pending? || !Settles(job, msg, m) then c.Get(m)
      else if Meets(job, msg, m) then Result(msg, now)
      else Exception(FailureIn(job, msg).value)
  {
    if FailureIn(job, msg).Some? { FailAllSettles(c, FailureIn(job, msg).value, m); }
  }

  lemma FailAllSettles(c: State, e: Failure, m: Milestone)
    ensures c.FailAll(e).Get(m) == if c.Get(m).Pending? then Exception(e) else c.Get(m)
  {
  }

  /** The decided-by-the-first-message reading survives every further message. */
  lemma DecidedStep(c: State, job: string, seen: seq<Stamped>, msg: Message, now: int, m: Milestone)
    requires Decided(job, seen, m, c.Get(m))
    ensures Decided(job, seen + [Stamped(msg, now)], m, Handle(c, job, msg, now).Get(m))
  {
    HandleOne(c, job, msg, now, m);
    var longer := seen + [Stamped(msg, now)];
    assert forall j :: 0 <= j < |seen| ==> longer[j] == seen[j];
    if c.Get(m).Pending? {
      assert Unsettled(job, longer, |seen|, m);
      if Settles(job, msg, m) { assert FirstSettlingIs(job, longer, m, |seen|); }
    } else {
      var i: nat :| FirstSettlingIs(job, seen, m, i)
        && (c.Get(m).Result? ==> Meets(job, c.Get(m).msg, m) && seen[i] == Stamped(c.Get(m).msg, c.Get(m).at))
        && (c.Get(m).Exception? ==> FailureIn(job, seen[i].msg) == Some(c.Get(m).error));
      assert FirstSettlingIs(job, longer, m, i);
    }
  }

  function HandleAll(job: string, seen: seq<Stamped>): State {
    if seen == [] then Fresh
    else Handle(HandleAll(job, seen[..|seen| - 1]), job, seen[|seen| - 1].msg, seen[|seen| - 1].at)
  }

  /** Over any history: each future is decided by the first message that concerns it. */
  lemma {:induction false} EveryFutureDecidedByFirst(job: string, seen: seq<Stamped>, m: Milestone)
    ensures Decided(job, seen, m, HandleAll(job, seen).Get(m))
  {
    if seen != [] {
      var init, last := seen[..|seen| - 1], seen[|seen| - 1];
      EveryFutureDecidedByFirst(job, init, m);
      DecidedStep(HandleAll(job, init), job, init, last.msg, last.at, m);
      assert init + [last] == seen;
    }
  }

  lemma FailureIsFirst(job: string, seen: seq<Stamped>, first: nat, m: Milestone, f: Future)
    requires Decided(job, seen, m, f) && f.Exception?
    requires first < |seen| && FailureIn(job, seen[first].msg).Some?
    requires forall j :: 0 <= j < first ==> FailureIn(job, seen[j].msg).None?
    ensures Some(f.error) == FailureIn(job, seen[first].msg)
  {
    var i: nat :| FirstSettlingIs(job, seen, m, i) && FailureIn(job, seen[i].msg) == Some(f.error);
    assert Settles(job, seen[first].msg, m);
    assert i >= first;
  }

  /** Locking: once any failure for this job has been handled, nothing is pending, no later
      message changes any future, and every failed future carries the FIRST failure. */
  lemma {:induction false} LockedByFirstFailure(job: string, seen: seq<Stamped>, first: nat, later: seq<Stamped>,
                                                m: Milestone)
    requires first < |seen| && FailureIn(job, seen[first].msg).Some?
    requires forall j :: 0 <= j < first ==> FailureIn(job, seen[j].msg).None?
    ensures !HandleAll(job, seen).Get(m).Pending?
    ensures HandleAll(job, seen + later).Get(m) == HandleAll(job, seen).Get(m)
    ensures HandleAll(job, seen).Get(m).Exception? ==>
              Some(HandleAll(job, seen).Get(m).error) == FailureIn(job, seen[first].msg)
  {
    EveryFutureDecidedByFirst(job, seen, m);
    assert Settles(job, seen[first].msg, m);
    if HandleAll(job, seen).Get(m).Exception? { FailureIsFirst(job, seen, first, m, HandleAll(job, seen).Get(m)); }
    if later == [] {
      assert seen + later == seen;
    } else {
      var init, last := later[..|later| - 1], later[|later| - 1];
      LockedByFirstFailure(job, seen, first, init, m);
      assert (seen + later)[..|seen + later| - 1] == seen + init;
      HandleOne(HandleAll(job, seen + init), job, last.msg, last.at, m);
    }
  }

  /** A message for another job leaves the whole client as it was. */
  lemma ForeignMessageIgnored(c: State, job: string, msg: Message, now: int)
    requires msg.HasUuid() && msg.uuid != job
    ensures Handle(c, job, msg, now) == c
    ensures forall m :: !Settles(job, msg, m)
  {
  }

  /** The manifest kept is the first one sent, the machine specs are the last ones sent for this job. */
  lemma {:induction false} FirstManifestLastSpecs(job: string, seen: seq<Stamped>)
    ensures var kept := HandleAll(job, seen).manifest;
      if kept.None? then forall i :: 0 <= i < |seen| ==> !seen[i].msg.Manifest?
      else exists i :: 0 <= i < |seen| && seen[i].msg == Manifest(kept.value)
             && forall j :: 0 <= j < i ==> !seen[j].msg.Manifest?
    ensures var kept := HandleAll(job, seen).specs;
      if kept.None? then forall i :: 0 <= i < |seen| ==> !SpecsFor(job, seen[i].msg)
      else exists i :: 0 <= i < |seen| && seen[i].msg == MachineSpecs(job, kept.value)
             && forall j :: i < j < |seen| ==> !SpecsFor(job, seen[j].msg)
  {
    if seen != [] {
      var init, last := seen[..|seen| - 1], seen[|seen| - 1];
      FirstManifestLastSpecs(job, init);
      assert forall j :: 0 <= j < |init| ==> init[j] == seen[j];
      assert seen[|init|] == last;
      KeepsManifestAndSpecs(HandleAll(job, init), job, last.msg, last.at);
    }
  }

  predicate SpecsFor(job: string, msg: Message) {
    msg.MachineSpecs? && msg.uuid == job
  }

  lemma KeepsManifestAndSpecs(c: State, job: string, msg: Message, now: int)
    ensures Handle(c, job, msg, now).manifest == if msg.Manifest? && c.manifest.None? then Some(msg.executors) else c.manifest
    ensures Handle(c, job, msg, now).specs == if SpecsFor(job, msg) then Some(msg.specs) else c.specs
  {
  }

  // ----- the object

  class OrganicMinerClient {
    const jobUuid: string
    var accepted: Future
    var ready: Future
    var streaming: Future
    var volumes: Future
    var execution: Future
    var finished: Future
    var manifest: Option<nat>
    var specs: Option<string>

    constructor (job: string)
      ensures jobUuid == job && Abs() == Fresh
    {
      jobUuid := job;
      accepted, ready, streaming := Pending, Pending, Pending;
      volumes, execution, finished := Pending, Pending, Pending;
      manifest, specs := None, None;
    }

    function Abs(): State
      reads this
    {
      State(accepted, ready, streaming, volumes, execution, finished, manifest, specs)
    }

    method SetFuture(m: Milestone, f: Future)
      modifies this
      ensures Abs() == old(Abs()).Settle(m, f)
    {
      match m {
        case Accepted => if accepted.Pending? { accepted := f; }
        case Ready => if ready.Pending? { ready := f; }
        case Streaming => if streaming.Pending? { streaming := f; }
        case Volumes => if volumes.Pending? { volumes := f; }
        case Execution => if execution.Pending? { execution := f; }
        case Finished => if finished.Pending? { finished := f; }
      }
    }

    method FailEverything(e: Failure)
      modifies this
      ensures Abs() == old(Abs()).FailAll(e)
    {
      SetFuture(Accepted, Exception(e));
      SetFuture(Ready, Exception(e));
      SetFuture(Streaming, Exception(e));
      SetFuture(Volumes, Exception(e));
      SetFuture(Execution, Exception(e));
      SetFuture(Finished, Exception(e));
    }

    method HandleMessage(msg: Message, now: int)
      modifies this
      ensures Abs() == Handle(old(Abs()), jobUuid, msg, now)
      decreases if msg.StreamingNotReady? || msg.ExecutorFailed? then 1 else 0
    {
      if msg.GenericError? || msg.Unauthorized? {
      } else if msg.Manifest? {
        if manifest.None? { manifest := Some(msg.executors); }
      } else if msg.HasUuid() && msg.uuid != jobUuid {
      } else if msg.Accept? {
        SetFuture(Accepted, Result(msg, now));
      } else if msg.ExecutorReady? {
        SetFuture(Ready, Result(msg, now));
      } else if msg.StreamingReady? {
        SetFuture(Streaming, Result(msg, now));
      } else if msg.StreamingNotReady? {
        HandleMessage(HordeFailed(msg.uuid, Miner, StreamingFailed), now);
      } else if msg.ExecutorFailed? {
        HandleMessage(HordeFailed(msg.uuid, Miner, Generic), now);
      } else if msg.VolumesReady? {
        SetFuture(Volumes, Result(msg, now));
      } else if msg.ExecutionDone? {
        SetFuture(Execution, Result(msg, now));
      } else if msg.JobFinished? {
        SetFuture(Finished, Result(msg, now));
      } else if msg.Decline? {
        FailEverything(MinerRejectedJob(msg.why));
      } else if msg.JobFailed? {
        FailEverything(MinerReportedJobFailed(msg.stage, msg.jobReason));
      } else if msg.HordeFailed? {
        FailEverything(MinerReportedHordeFailed(msg.reportedBy, msg.hordeReason));
      } else if msg.MachineSpecs? {
        specs := Some(msg.specs);
      }
    }
  }
}
