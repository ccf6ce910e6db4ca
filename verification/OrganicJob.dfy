/** `execute_organic_job_on_miner` in its own, imperative form, proved to be a run of the machine in
    `Validator` (compute_horde/compute_horde/miner_client/organic.py). The event loop is a script of
    arrivals and pauses; where the loop may go either way, the choice is left open. */
module OrganicJob {
  import opened Messages
  import opened Deadlines
  import C = Client
  import V = Validator

  datatype Event = Arrives(msg: Message) | Passes(d: nat)

  datatype Outcome = Returns(output: V.Output) | Raises(error: V.Error)

  /** The messages among some events. */
  function Arrivals(events: seq<Event>): seq<Message> {
    if events == [] then []
    else
      var last := events[|events| - 1];
      Arrivals(events[..|events| - 1]) + if last.Arrives? then [last.msg] else []
  }

  /** The time some events take. */
  function Time(events: seq<Event>): nat {
    if events == [] then 0
    else
      var last := events[|events| - 1];
      Time(events[..|events| - 1]) + if last.Passes? then last.d else 0
  }

  function Contents(seen: seq<Stamped>): seq<Message> {
    seq(|seen|, i requires 0 <= i < |seen| => seen[i].msg)
  }

  lemma MoreContents(seen: seq<Stamped>, msg: Message, at: int)
    ensures Contents(seen + [Stamped(msg, at)]) == Contents(seen) + [msg]
  {
  }

  lemma TakeOne(taken: seq<Event>, rest: seq<Event>)
    requires rest != []
    ensures taken + rest == (taken + [rest[0]]) + rest[1..]
    ensures Arrivals(taken + [rest[0]]) == Arrivals(taken) + if rest[0].Arrives? then [rest[0].msg] else []
    ensures Time(taken + [rest[0]]) == Time(taken) + if rest[0].Passes? then rest[0].d else 0
  {
    assert (taken + [rest[0]])[..|taken|] == taken;
  }

  class OrganicJobRun {
    const job: Job
    const client: C.OrganicMinerClient
    var clock: int
    var sent: seq<V.Outgoing>
    var script: seq<Event>
    ghost const begun: int
    ghost const whole: seq<Event>
    ghost var taken: seq<Event>
    ghost var steps: seq<V.Step>
    ghost var st: V.State

    /** Everything but the futures agrees with a reachable state of the machine. */
    ghost predicate InStep()
      reads this
    {
      && V.After(job, begun, steps) == Some(st)
      && st.clock == clock && st.sent == sent && client.jobUuid == job.uuid
      && whole == taken + script && Contents(st.seen) == Arrivals(taken)
    }

    /** The clock shows the time the events taken so far took. */
    ghost predicate OnTime()
      reads this
    {
      clock == begun + Time(taken)
    }

    /** When giving up: the events taken filled the time allowed, or nothing more was to come. */
    ghost predicate RanOut()
      reads this
    {
      clock <= begun + Time(taken) || script == []
    }

    ghost predicate Valid()
      reads this, client
    {
      InStep() && st.client == client.Abs()
    }

    /** The output is that of the JobFinished the client holds. */
    predicate Delivers(output: V.Output)
      reads this, client
    {
      client.finished.Result? && client.finished.msg.JobFinished? && V.Carries(output, client.finished.msg.output)
    }

    /** A run that ended took the events of the script one by one: on a timeout they filled the time allowed or there
        were no more; otherwise they took exactly the time the run did. */
    ghost predicate Ended(outcome: Outcome)
      reads this
    {
      if outcome.Raises? && outcome.error.TimedOut? then RanOut() else OnTime()
    }

    /** `assert client.job_uuid == job_details.job_uuid`, then connect and open the job. */
    constructor (job: Job, client: C.OrganicMinerClient, now: int, script: seq<Event>)
      requires client.jobUuid == job.uuid && client.Abs() == C.Fresh
      ensures Valid() && this.job == job && this.client == client && this.script == script
      ensures st == V.Init(job, now) && taken == [] && whole == script && OnTime()
    {
      this.job, this.client, this.clock, this.script := job, client, now, script;
      whole, taken := script, [];
      sent := [V.StartedReceipt(job.reservationLimit), V.InitialRequest];
      begun, steps, st := now, [], V.Init(job, now);
    }

    ghost method Took(step: V.Step)
      requires V.After(job, begun, steps) == Some(st) && V.Enabled(st, step)
      modifies this`steps, this`st
      ensures V.After(job, begun, steps) == Some(st)
      ensures V.Coherent(old(st)) && st == V.Next(job, old(st), step)
    {
      assert (steps + [step])[..|steps + [step]| - 1] == steps;
      steps, st := steps + [step], V.Next(job, st, step);
    }

    method Receive()
      requires Valid() && script != [] && script[0].Arrives?
      modifies this, client
      ensures Valid() && script == old(script)[1..] && taken == old(taken) + [old(script)[0]]
      ensures Time(taken) == Time(old(taken))
      ensures st == old(st).(client := st.client, seen := st.seen)
      ensures forall m :: !old(st).client.Get(m).Pending? ==> st.client.Get(m) == old(st).client.Get(m)
    {
      TakeOne(taken, script);
      MoreContents(st.seen, script[0].msg, clock);
      client.HandleMessage(script[0].msg, clock);
      forall m { C.HandleOne(st.client, job.uuid, script[0].msg, clock, m); }
      Took(V.Deliver(script[0].msg));
      taken := taken + [script[0]];
      script := script[1..];
    }

    method Pause(d: nat)
      requires Valid() && V.Enabled(st, V.Elapse(d))
      modifies this`clock, this`steps, this`st
      ensures Valid() && st == old(st).(clock := old(clock) + d)
    {
      clock := clock + d;
      Took(V.Elapse(d));
    }

    /** A pause of the script, of which only `d` may be used. */
    method TakePause(d: nat)
      requires Valid() && script != [] && script[0].Passes? && d <= script[0].d && V.Enabled(st, V.Elapse(d))
      modifies this`clock, this`steps, this`st, this`taken, this`script
      ensures Valid() && script == old(script)[1..] && taken == old(taken) + [old(script)[0]]
      ensures Time(taken) == Time(old(taken)) + old(script)[0].d
      ensures st == old(st).(clock := old(clock) + d)
    {
      TakeOne(taken, script);
      taken := taken + [script[0]];
      script := script[1..];
      Pause(d);
    }

    /** `asyncio.wait_for` on one of the client's futures. `Cancelled` stands for TimeoutError: the events of the
        script filled the time allowed, or nothing more was to come. */
    method WaitFor(m: Milestone, timeout: int) returns (f: C.Future)
      requires Valid() && OnTime() && st.pc == V.Awaiting(m) && st.waitUntil == clock + timeout
      modifies this, client
      ensures InStep() && !f.Pending? && client.Abs().Get(m) == f
      ensures st == old(st).(client := st.client, seen := st.seen, clock := st.clock)
      ensures f.Cancelled? ==> V.Enabled(st, V.Expire) && client.Abs() == st.client.Set(m, C.Cancelled) && RanOut()
      ensures !f.Cancelled? ==> Valid() && V.Enabled(st, V.Resume) && OnTime()
    {
      var expired := WaitUntil(m, clock + timeout);
      V.AwaitedNeverCancelled(job, begun, steps);
      if expired {
        client.SetFuture(m, C.Cancelled);
        return C.Cancelled;
      }
      HandleMore(m);
      V.AwaitedNeverCancelled(job, begun, steps);
      f := client.Abs().Get(m);
    }

    method WaitUntil(m: Milestone, until: int) returns (expired: bool)
      requires Valid() && OnTime() && st.pc == V.Awaiting(m) && st.waitUntil == until
      modifies this, client
      ensures Valid() && st == old(st).(client := st.client, seen := st.seen, clock := st.clock)
      ensures expired <==> client.Abs().Get(m).Pending?
      ensures expired ==> V.Enabled(st, V.Expire) && RanOut()
      ensures !expired ==> OnTime()
    {
      expired := client.Abs().Get(m).Pending? && until <= clock;
      while client.Abs().Get(m).Pending? && !expired
        invariant Valid() && st == old(st).(client := st.client, seen := st.seen, clock := st.clock)
        invariant expired ==> client.Abs().Get(m).Pending? && V.Enabled(st, V.Expire) && RanOut()
        invariant !expired ==> OnTime() && (client.Abs().Get(m).Pending? ==> clock <= until)
        decreases |script|, !expired
      {
        if script == [] {
          Pause(until - clock);
          expired := true;
        } else if script[0].Arrives? {
          Receive();
        } else {
          // A pause that ends with the time allowed may go either way.
          var lateOnTie: bool := *;
          var d := script[0].d;
          expired := until < clock + d || (clock + d == until && lateOnTie);
          TakePause(if expired then until - clock else d);
        }
      }
    }

    /** Further messages may be handled before the coroutine is scheduled again. */
    method HandleMore(m: Milestone)
      requires Valid() && OnTime() && !client.Abs().Get(m).Pending?
      modifies this, client
      ensures Valid() && OnTime() && st == old(st).(client := st.client, seen := st.seen)
      ensures client.Abs().Get(m) == old(client.Abs().Get(m))
    {
      while script != [] && script[0].Arrives?
        invariant Valid() && OnTime() && st == old(st).(client := st.client, seen := st.seen)
        invariant client.Abs().Get(m) == old(client.Abs().Get(m))
      {
        var more: bool := *;
        if !more { break; }
        Receive();
      }
    }

    /** Extend the deadline when timing is fine-grained, then wait on what is left of it. */
    method Stage(m: Milestone, deadline: Timer) returns (f: C.Future)
      requires Valid() && st.pc.Awaiting? && st.client.Get(st.pc.m).Result?
      requires match st.pc.m
        case Volumes => m == if job.streaming then Streaming else Execution
        case Streaming => m == Execution
        case Execution => m == Finished
        case _ => false
      requires st.deadline.Some? && deadline.Is(st.deadline.value) && OnTime()
      modifies this, client, deadline
      ensures InStep() && !f.Pending? && client.Abs().Get(m) == f
      ensures st.pc == V.Awaiting(m) && st.deadline.Some? && deadline.Is(st.deadline.value)
      ensures f.Cancelled? ==> V.Enabled(st, V.Expire) && client.Abs() == st.client.Set(m, C.Cancelled) && RanOut()
      ensures !f.Cancelled? ==> Valid() && V.Enabled(st, V.Resume) && OnTime()
    {
      if job.timing.Some? {
        var _ := deadline.ExtendTimeout(V.StageLimit(job.timing.value, m));
      }
      Took(V.Resume);
      var left := deadline.TimeLeft(clock);
      f := WaitFor(m, left.value);
    }

    /** The `except Exception` handler: pay nothing, report, re-raise. */
    method GiveUp(m: Milestone, f: C.Future) returns (outcome: Outcome)
      requires InStep() && st.pc == V.Awaiting(m) && client.Abs().Get(m) == f
      requires f.Cancelled? || f.Exception?
      requires f.Cancelled? ==> V.Enabled(st, V.Expire) && client.Abs() == st.client.Set(m, C.Cancelled)
      requires f.Exception? ==> Valid() && OnTime()
      requires f.Cancelled? ==> RanOut()
      modifies this`sent, this`steps, this`st
      ensures Ended(outcome)
      ensures Valid() && outcome.Raises? && st.pc == V.Raised(outcome.error, clock)
      ensures sent == old(sent) + [V.FinishedReceipt(clock, 0, [])]
    {
      var error := if f.Cancelled? then V.TimedOut(m) else V.Reported(f.error);
      sent := sent + [V.FinishedReceipt(clock, 0, [])];
      if f.Cancelled? { Took(V.Expire); } else { Took(V.Resume); }
      outcome := Raises(error);
    }

    /** The whole job. Whatever the script, the method ends in a final state of the machine, so every
        whole-run theorem of `Validator` applies to it; in particular exactly one finished receipt. */
    method Execute() returns (outcome: Outcome)
      requires Valid() && OnTime() && st == V.Init(job, clock)
      modifies this, client
      ensures Valid() && Ended(outcome)
      ensures outcome.Returns? <==> st.pc.Returned?
      ensures outcome.Returns? ==> st.pc == V.Returned(outcome.output, clock)
      ensures outcome.Raises? ==> st.pc == V.Raised(outcome.error, clock)
      ensures V.FinishedReceipts(sent) ==
        [if outcome.Returns? then V.FinishedReceipt(clock, job.value, job.blocks) else V.FinishedReceipt(clock, 0, [])]
      ensures outcome.Returns? ==> Delivers(outcome.output)
    {
      outcome := RunStages();
      V.ExactlyOneFinishedReceipt(job, begun, steps);
      if outcome.Returns? { V.ReturnedIsAnnounced(job, begun, steps); }
    }

    method RunStages() returns (outcome: Outcome)
      requires Valid() && OnTime() && st == V.Init(job, clock)
      modifies this, client
      ensures Valid() && Ended(outcome)
      ensures outcome.Returns? ==> st.pc == V.Returned(outcome.output, clock)
      ensures outcome.Raises? ==> st.pc == V.Raised(outcome.error, clock)
    {
      // reservation
      var f := WaitFor(Accepted, job.reservationLimit);
      if !f.Result? { outcome := GiveUp(Accepted, f); return; }

      outcome := RunFromSpinup();
    }

    method RunFromSpinup() returns (outcome: Outcome)
      requires Valid() && OnTime() && st.pc == V.Awaiting(Accepted) && st.client.Get(Accepted).Result?
      modifies this, client
      ensures Valid() && Ended(outcome)
      ensures outcome.Returns? ==> st.pc == V.Returned(outcome.output, clock)
      ensures outcome.Raises? ==> st.pc == V.Raised(outcome.error, clock)
    {
      // spin-up
      var ttl := job.ReadinessLimit() + (if job.timing.Some? then job.timing.value.Total() else job.totalTimeout);
      sent := sent + [V.AcceptedReceipt(clock, ttl)];
      Took(V.Resume);
      var f := WaitFor(Ready, job.ReadinessLimit());
      if !f.Result? { outcome := GiveUp(Ready, f); return; }

      outcome := RunExecutor();
    }

    method RunExecutor() returns (outcome: Outcome)
      requires Valid() && OnTime() && st.pc == V.Awaiting(Ready) && st.client.Get(Ready).Result?
      modifies this, client
      ensures Valid() && Ended(outcome)
      ensures outcome.Returns? ==> st.pc == V.Returned(outcome.output, clock)
      ensures outcome.Raises? ==> st.pc == V.Raised(outcome.error, clock)
    {
      // volume download
      var deadline := new Timer(clock, Some(if job.timing.Some? then job.timing.value.leeway else job.totalTimeout));
      sent := sent + [V.JobRequest(clock)];
      if job.timing.Some? {
        var _ := deadline.ExtendTimeout(job.timing.value.download);
      }
      Took(V.Resume);
      var left := deadline.TimeLeft(clock);
      var f := WaitFor(Volumes, left.value);
      if !f.Result? { outcome := GiveUp(Volumes, f); return; }

      outcome := RunToTheEnd(deadline);
    }

    method RunToTheEnd(deadline: Timer) returns (outcome: Outcome)
      requires Valid() && OnTime() && st.pc == V.Awaiting(Volumes) && st.client.Get(Volumes).Result?
      requires st.deadline.Some? && deadline.Is(st.deadline.value)
      modifies this, client, deadline
      ensures Valid() && Ended(outcome)
      ensures outcome.Returns? ==> st.pc == V.Returned(outcome.output, clock)
      ensures outcome.Raises? ==> st.pc == V.Raised(outcome.error, clock)
      ensures outcome.Returns? ==> Delivers(outcome.output)
    {
      var f: C.Future;
      // streaming
      if job.streaming {
        f := Stage(Streaming, deadline);
        if !f.Result? { outcome := GiveUp(Streaming, f); return; }
      }

      // execution
      f := Stage(Execution, deadline);
      if !f.Result? { outcome := GiveUp(Execution, f); return; }

      // upload
      f := Stage(Finished, deadline);
      if !f.Result? { outcome := GiveUp(Finished, f); return; }

      sent := sent + [V.FinishedReceipt(clock, job.value, job.blocks)];
      Took(V.Resume);
      outcome := Returns(V.Unpack(f.msg.output));
    }
  }
}
