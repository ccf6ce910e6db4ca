/** The executor's `MinerClient` and `JobDriver` in their own, imperative form, proved to be a run of the
    machine in `Executor` (executor/app/src/compute_horde_executor/executor/job_driver.py and
    miner_client.py). What the job runner, Docker and the miner do is a script of events. */
module JobDriver {
  import opened Messages
  import opened Deadlines
  import E = Executor

  datatype Event = Arrives(req: E.Request) | Passes(d: nat) | Completes(result: E.WorkResult)

  /** How an awaited activity ended. */
  datatype Ending = Ok | Failed(result: E.WorkResult) | TimedOut

  /** What is being awaited: an activity of the runner, or one of the client's two futures. */
  datatype Awaited = Activity | InitialMsg | FullPayload

  class MinerClient {
    var maybeJobUuid: Option<string>
    var initialMsg: Option<E.Request>
    var fullPayload: bool
    var genericErrors: nat
    var sent: seq<Stamped>

    constructor ()
      ensures maybeJobUuid.None? && initialMsg.None? && !fullPayload && genericErrors == 0 && sent == []
    {
      maybeJobUuid, initialMsg, fullPayload, genericErrors, sent := None, None, false, 0, [];
    }

    /** What the machine knows of the client; the uuid is known exactly when the request is. */
    ghost predicate Is(s: E.State)
      reads this
    {
      && initialMsg == s.initial && fullPayload == s.payload && genericErrors == s.genericErrors && sent == s.sent
      && maybeJobUuid == if initialMsg.Some? then Some(initialMsg.value.uuid) else None
    }

    method HandleInitialJobRequest(req: E.Request, ghost s: E.State)
      requires req.InitialJob? && Is(s)
      modifies this
      ensures Is(E.Receiving(s, req))
      ensures initialMsg == (if old(initialMsg).Some? then old(initialMsg) else Some(req))
      ensures maybeJobUuid == (if old(initialMsg).Some? then old(maybeJobUuid) else Some(req.uuid))
      ensures genericErrors == old(genericErrors) + if old(initialMsg).Some? then 1 else 0
      ensures fullPayload == old(fullPayload) && sent == old(sent)
    {
      if initialMsg.Some? {
        genericErrors := genericErrors + 1;
        return;
      }
      maybeJobUuid := Some(req.uuid);
      initialMsg := Some(req);
    }

    method HandleJobRequest(req: E.Request, ghost s: E.State)
      requires req.FullJob? && Is(s)
      modifies this
      ensures Is(E.Receiving(s, req))
      ensures fullPayload == (old(fullPayload) || old(initialMsg).Some?)
      ensures genericErrors == old(genericErrors) + if old(initialMsg).Some? && !old(fullPayload) then 0 else 1
      ensures initialMsg == old(initialMsg) && maybeJobUuid == old(maybeJobUuid) && sent == old(sent)
    {
      if initialMsg.None? {
        genericErrors := genericErrors + 1;
        return;
      }
      if fullPayload {
        genericErrors := genericErrors + 1;
        return;
      }
      fullPayload := true;
    }

    method SendModel(msg: Message, now: int)
      modifies this`sent
      ensures sent == old(sent) + [Stamped(msg, now)]
    {
      sent := sent + [Stamped(msg, now)];
    }
  }

  /** The time some events take. */
  function Time(events: seq<Event>): nat {
    if events == [] then 0
    else
      var last := events[|events| - 1];
      Time(events[..|events| - 1]) + if last.Passes? then last.d else 0
  }

  /** How many activities completed. */
  function Dones(events: seq<Event>): nat {
    if events == [] then 0
    else Dones(events[..|events| - 1]) + if events[|events| - 1] == Completes(E.Done) then 1 else 0
  }

  /** One await more for a job that streams. */
  function StreamWaits(initial: Option<E.Request>): nat {
    if initial.Some? && initial.value.InitialJob? && initial.value.streaming then 1 else 0
  }

  predicate HasInitial(events: seq<Event>) {
    exists j :: 0 <= j < |events| && events[j].Arrives? && events[j].req.InitialJob?
  }

  predicate HasFull(events: seq<Event>) {
    exists j :: 0 <= j < |events| && events[j].Arrives? && events[j].req.FullJob?
  }

  /** In state `s` a result ends the wait: always that of an activity; a message can only be had once it came. */
  predicate MayEnd(what: Awaited, s: E.State, result: E.WorkResult) {
    && (what.InitialMsg? ==> result.Done? && s.initial.Some?)
    && (what.FullPayload? ==> result.Done? && s.payload)
  }

  /** The same of the k-th event since `s`. */
  predicate EndsWait(what: Awaited, s: E.State, events: seq<Event>, k: nat)
    requires k < |events|
  {
    && events[k].Completes?
    && (what.InitialMsg? ==> events[k].result.Done? && (s.initial.Some? || HasInitial(events[..k])))
    && (what.FullPayload? ==> events[k].result.Done? && (s.payload || HasFull(events[..k])))
  }

  ghost predicate Uneventful(what: Awaited, s: E.State, events: seq<Event>, n: nat)
    requires n <= |events|
  {
    forall k :: 0 <= k < n ==> !EndsWait(what, s, events, k)
  }

  /** What the client knows after some events. */
  predicate Heard(s: E.State, events: seq<Event>, t: E.State) {
    && (t.initial.Some? <==> s.initial.Some? || HasInitial(events))
    && (s.initial.Some? ==> (t.payload <==> s.payload || HasFull(events)))
  }

  /** How a wait that began in state `s` with `script` to come went: the events `taken` did not end it, but for the
      last one if it did not time out; on a timeout their pauses exceed the time left, or there were no more. */
  ghost predicate Went(what: Awaited, s: E.State, script: seq<Event>, taken: seq<Event>, rest: seq<Event>,
                       r: Ending, at: int)
  {
    && script == taken + rest
    && if r.TimedOut? then
         && Uneventful(what, s, taken, |taken|)
         && (rest == [] || s.Until() < s.clock + Time(taken))
         && at == Latest(s)
       else
         && taken != []
         && var n := |taken| - 1;
            && Uneventful(what, s, taken, n) && EndsWait(what, s, taken, n) && at == s.clock + Time(taken)
            && r == if taken[n].result.Done? then Ok else Failed(taken[n].result)
  }

  /** What one event does to a wait in state `s`. */
  predicate Effect(what: Awaited, s: E.State, e: Event, t: E.State, ended: bool, r: Ending) {
    && (e.Arrives? ==> !ended && t == E.Receiving(s, e.req))
    && (e.Passes? ==> (ended <==> s.Until() < s.clock + e.d) && (ended ==> r.TimedOut?))
    && (e.Passes? ==> t == s.(clock := if !ended then s.clock + e.d else Latest(s)))
    && (e.Completes? ==> t == s && (ended <==> MayEnd(what, s, e.result)))
    && (e.Completes? && ended ==> r == if e.result.Done? then Ok else Failed(e.result))
  }

  /** The instant at which a wait in state `s` times out. */
  function Latest(s: E.State): int {
    if s.clock < s.Until() then s.Until() else s.clock
  }

  /** A wait that began in state `s` is not over. */
  ghost predicate StillWaiting(what: Awaited, s: E.State, script: seq<Event>, taken: seq<Event>,
                               rest: seq<Event>, t: E.State)
  {
    && script == taken + rest && Uneventful(what, s, taken, |taken|) && Heard(s, taken, t)
    && (what.FullPayload? ==> s.initial.Some?)
    && t.clock == s.clock + Time(taken) && t.Until() == s.Until() && Latest(t) == Latest(s)
  }

  lemma OneEvent(what: Awaited, s: E.State, script: seq<Event>, taken: seq<Event>, rest: seq<Event>,
                 before: E.State, after: E.State, ended: bool, r: Ending)
    requires StillWaiting(what, s, script, taken, rest, before) && rest != []
    requires Effect(what, before, rest[0], after, ended, r)
    ensures ended ==> Went(what, s, script, taken + [rest[0]], rest[1..], r, after.clock)
    ensures !ended ==> StillWaiting(what, s, script, taken + [rest[0]], rest[1..], after)
  {
    TakeOne(taken, rest);
    OneEventMore(what, s, taken, before, rest[0]);
    var longer := taken + [rest[0]];
    assert |longer| - 1 == |taken| && longer[|taken|] == rest[0];
    assert !EndsWait(what, s, longer, |taken|) ==> Uneventful(what, s, longer, |longer|);
  }

  lemma TakeOne(taken: seq<Event>, rest: seq<Event>)
    requires rest != []
    ensures taken + rest == (taken + [rest[0]]) + rest[1..]
    ensures Time(taken + [rest[0]]) == Time(taken) + if rest[0].Passes? then rest[0].d else 0
    ensures Dones(taken + [rest[0]]) == Dones(taken) + if rest[0] == Completes(E.Done) then 1 else 0
  {
    assert (taken + [rest[0]])[..|taken|] == taken;
  }

  lemma OneEventMore(what: Awaited, s: E.State, taken: seq<Event>, before: E.State, event: Event)
    requires Uneventful(what, s, taken, |taken|) && Heard(s, taken, before)
    requires what.FullPayload? ==> s.initial.Some?
    ensures Uneventful(what, s, taken + [event], |taken|)
    ensures EndsWait(what, s, taken + [event], |taken|) <==> event.Completes? && MayEnd(what, before, event.result)
    ensures HasInitial(taken + [event]) <==> HasInitial(taken) || (event.Arrives? && event.req.InitialJob?)
    ensures HasFull(taken + [event]) <==> HasFull(taken) || (event.Arrives? && event.req.FullJob?)
  {
    var longer := taken + [event];
    assert longer[..|taken|] == taken;
    forall k | 0 <= k < |taken|
      ensures EndsWait(what, s, longer, k) == EndsWait(what, s, taken, k)
    {
      assert longer[..k] == taken[..k];
    }
    assert longer[|taken|] == event;
    assert forall k :: 0 <= k < |taken| ==> longer[k] == taken[k];
  }

  lemma FailFields(w: E.World, s: E.State, result: E.WorkResult)
    requires !result.Done?
    ensures var t := E.Fail(s, result);
      && t == s.(phase := E.Ended(false), budgetFrom := t.budgetFrom, sent := t.sent)
      && t.sent == if s.initial.None? then s.sent else s.sent + [Stamped(
           if result.JobErr? then JobFailed(s.initial.value.uuid, s.stage, result.jobReason)
           else HordeFailed(s.initial.value.uuid, Executor, result.hordeReason), s.clock)]
  {
  }

  lemma EndingStep(w: E.World, now: int, steps: seq<E.Step>, s: E.State, step: E.Step)
    requires E.After(w, now, steps) == Some(s) && E.Enabled(s, step)
    requires !s.phase.Ended? && E.Next(w, s, step).phase == E.Ended(false)
    ensures var t := E.Next(w, s, step);
      && E.After(w, now, steps + [step]) == Some(t) && E.EndedBecause(w, now, steps + [step], |steps|)
      && (s.initial.None? ==> t.sent == s.sent)
      && (s.initial.Some? ==>
            && |t.sent| == |s.sent| + 1 && t.sent[..|s.sent|] == s.sent && t.sent[|s.sent|].at == s.clock
            && E.ReportOf(t.sent[|s.sent|].msg, s.phase, step, s.initial.value.uuid))
  {
    assert (steps + [step])[..|steps|] == steps;
    E.AlwaysInStage(w, now, steps);
    E.EndingSaysWhy(w, s, step);
    E.LastStepEnded(w, now, steps + [step]);
  }

  class JobDriver {
    const world: E.World
    const client: MinerClient
    const deadline: Timer
    var clock: int
    var currentStage: JobStage
    var script: seq<Event>
    ghost const begun: int
    ghost const whole: seq<Event>
    ghost var taken: seq<Event>
    /** The awaits that lie behind; each used up a completion of its own. */
    ghost var passed: nat
    ghost var steps: seq<E.Step>
    ghost var st: E.State

    ghost predicate Valid()
      reads this, client, deadline
    {
      && E.After(world, begun, steps) == Some(st)
      && client.Is(st) && deadline.Is(st.deadline) && clock == st.clock && currentStage == st.stage
      && whole == taken + script && passed <= Dones(taken)
    }

    /** The clock shows the time the events taken so far took. */
    ghost predicate OnTime()
      reads this
    {
      clock == begun + Time(taken)
    }

    /** On a timeout: the events taken filled the time allowed, or nothing more was to come. */
    ghost predicate RanOut()
      reads this
    {
      clock <= begun + Time(taken) || script == []
    }

    /** A step that may end the run follows from the script: a result was its last event, a timeout had run out. */
    ghost predicate Caused(step: E.Step)
      reads this
    {
      && (step.Expire? ==> RanOut())
      && (step.Work? ==> taken != [] && taken[|taken| - 1] == Completes(step.result))
    }

    /** The last message reports the step that ended the run, and that step follows from the script. */
    ghost predicate EndedForCause()
      reads this
    {
      && steps != [] && E.After(world, begun, steps).Some? && E.EndedBecause(world, begun, steps, |steps| - 1)
      && Caused(steps[|steps| - 1])
    }

    constructor (world: E.World, now: int, script: seq<Event>)
      ensures Valid() && st == E.Init(world, now) && this.script == script && this.world == world
      ensures fresh(client) && fresh(deadline) && whole == script && taken == [] && passed == 0 && OnTime()
    {
      whole, taken, passed := script, [], 0;
      this.world, this.clock, this.script, currentStage := world, now, script, UnknownStage;
      client := new MinerClient();
      deadline := new Timer(now, Some(world.startupLimit));
      begun, steps, st := now, [], E.Init(world, now);
    }

    ghost method Took(step: E.Step)
      requires E.After(world, begun, steps) == Some(st) && E.Enabled(st, step)
      modifies this`steps, this`st
      ensures E.After(world, begun, steps) == Some(st)
      ensures E.Coherent(old(st)) && st == E.Next(world, old(st), step) && steps == old(steps) + [step]
    {
      assert (steps + [step])[..|steps + [step]| - 1] == steps;
      steps, st := steps + [step], E.Next(world, st, step);
    }

    /** `handle_message`, run by the reader task. */
    method Receive(req: E.Request)
      requires Valid() && !st.phase.Ended?
      modifies this`steps, this`st, client
      ensures Valid() && st == E.Receiving(old(st), req)
    {
      if req.InitialJob? {
        client.HandleInitialJobRequest(req, st);
      } else {
        client.HandleJobRequest(req, st);
      }
      Took(E.Receive(req));
    }

    method Pause(d: nat)
      requires Valid() && E.Enabled(st, E.Elapse(d))
      modifies this`clock, this`steps, this`st
      ensures Valid() && st == old(st).(clock := old(clock) + d)
    {
      clock := clock + d;
      Took(E.Elapse(d));
    }

    /** How an await ended is something the machine could do, and what the script says. */
    ghost predicate Settled(r: Ending)
      reads this
    {
      match r
      case Ok =>
        && E.Enabled(st, E.Work(E.Done)) && OnTime()
        && taken != [] && taken[|taken| - 1] == Completes(E.Done)
        && passed < Dones(taken)
      case Failed(result) =>
        && !result.Done? && E.Enabled(st, E.Work(result)) && OnTime()
        && taken != [] && taken[|taken| - 1] == Completes(result)
      case TimedOut => E.Enabled(st, E.Expire) && RanOut()
    }

    /** An awaited future only resolves once its message is in; an activity may end either way. */
    predicate Possible(what: Awaited, result: E.WorkResult)
      reads this, client
    {
      match what
      case Activity => true
      case InitialMsg => result.Done? && client.initialMsg.Some?
      case FullPayload => result.Done? && client.fullPayload
    }

    /** What may change in `s` while something is awaited, taken from `t`. */
    ghost function Later(s: E.State, t: E.State): E.State {
      s.(clock := t.clock, initial := t.initial, payload := t.payload, genericErrors := t.genericErrors)
    }

    /** `what` is what the current phase waits for. */
    ghost predicate Waiting(what: Awaited)
      reads this
    {
      && !st.phase.Ended? && !st.phase.Entering()
      && (what.InitialMsg? <==> st.phase.AwaitingInitial?) && (what.FullPayload? <==> st.phase.AwaitingPayload?)
    }

    /** Await something under the deadline; meanwhile the miner may send requests. The wait ends with the first event
        that ends it, or when the pauses before that exceed the time left, or nothing more is to come. */
    method Await(what: Awaited) returns (r: Ending)
      requires Valid() && OnTime() && Waiting(what)
      modifies this, client
      ensures Valid() && st == Later(old(st), st) && Settled(r) && passed == old(passed)
      ensures old(st).initial.Some? ==> st.initial == old(st).initial
      ensures what.InitialMsg? && r.Ok? ==> st.initial.Some?
      ensures exists since :: Went(what, old(st), old(script), since, script, r, clock)
    {
      var ended := false;
      ghost var since: seq<Event> := [];
      r := TimedOut;
      while script != [] && !ended
        invariant Valid() && passed == old(passed) && st == Later(old(st), st)
        invariant old(st).initial.Some? ==> st.initial == old(st).initial
        invariant ended ==> Settled(r) && (what.InitialMsg? && r.Ok? ==> st.initial.Some?)
        invariant ended ==> Went(what, old(st), old(script), since, script, r, clock)
        invariant !ended ==> OnTime() && StillWaiting(what, old(st), old(script), since, script, st)
        decreases |script|
      {
        ghost var before, rest := st, script;
        ended, r := TakeEvent(what);
        OneEvent(what, old(st), old(script), since, rest, before, st, ended, r);
        since := since + [rest[0]];
      }
      if !ended {
        RunOut();
        r := TimedOut;
        assert Went(what, old(st), old(script), since, script, r, clock);
      }
    }

    /** One event of the script: a request, a pause that may use up the time left, or the end of the wait. */
    method TakeEvent(what: Awaited) returns (ended: bool, r: Ending)
      requires Valid() && OnTime() && Waiting(what) && script != []
      modifies this, client
      ensures Valid() && st == Later(old(st), st) && script == old(script)[1..] && passed == old(passed)
      ensures old(st).initial.Some? ==> st.initial == old(st).initial
      ensures ended ==> Settled(r) && (what.InitialMsg? && r.Ok? ==> st.initial.Some?)
      ensures Effect(what, old(st), old(script)[0], st, ended, r) && (!ended ==> OnTime())
    {
      var event := script[0];
      ended, r := false, TimedOut;
      if event.Arrives? {
        TakeRequest();
      } else if event.Passes? {
        ended := TakePause();
      } else {
        ended := Possible(what, event.result);
        Advance();
        if ended { r := if event.result.Done? then Ok else Failed(event.result); }
      }
    }

    method TakeRequest()
      requires Valid() && OnTime() && !st.phase.Ended? && script != [] && script[0].Arrives?
      modifies this`steps, this`st, this`script, this`taken, client
      ensures Valid() && OnTime() && st == E.Receiving(old(st), old(script)[0].req) && script == old(script)[1..]
    {
      var req := script[0].req;
      Advance();
      Receive(req);
    }

    /** A pause of the script, which may use up the time left. */
    method TakePause() returns (ended: bool)
      requires Valid() && OnTime() && !st.phase.Ended? && !st.phase.Entering() && script != [] && script[0].Passes?
      modifies this`clock, this`steps, this`st, this`script, this`taken
      ensures Valid() && script == old(script)[1..] && (ended <==> old(st).Until() < old(clock) + old(script)[0].d)
      ensures st == old(st).(clock := if ended then Latest(old(st)) else old(clock) + old(script)[0].d)
      ensures if ended then E.Enabled(st, E.Expire) && RanOut() else OnTime()
    {
      var d := script[0].d;
      Advance();
      ended := deadline.startTime + deadline.timeout.value < clock + d;
      if ended { RunOut(); } else { Pause(d); }
    }

    /** Move on to the next event. */
    method Advance()
      requires Valid() && script != []
      modifies this`script, this`taken
      ensures Valid() && script == old(script)[1..] && taken == old(taken) + [old(script)[0]]
      ensures Time(taken) == Time(old(taken)) + if old(script)[0].Passes? then old(script)[0].d else 0
      ensures Dones(taken) == Dones(old(taken)) + if old(script)[0] == Completes(E.Done) then 1 else 0
    {
      TakeOne(taken, script);
      taken := taken + [script[0]];
      script := script[1..];
    }

    /** The deadline passes. */
    method RunOut()
      requires Valid() && !st.phase.Ended? && !st.phase.Entering()
      modifies this`clock, this`steps, this`st
      ensures Valid() && st == old(st).(clock := Latest(old(st))) && E.Enabled(st, E.Expire)
    {
      var until := deadline.startTime + deadline.timeout.value;
      if clock < until { Pause(until - clock); }
    }

    /** The awaited phase is over; the code up to the next await only sends `msgs`, at most one message. */
    method Proceed(msgs: seq<Message>, ghost next: E.Phase)
      requires Valid() && Settled(Ok) && |msgs| <= 1
      requires E.Worked(world, st) == Moved(st, msgs, next)
      modifies this`steps, this`st, this`passed, client
      ensures Valid() && st == Moved(old(st), msgs, next) && passed == old(passed) + 1
    {
      if msgs != [] { client.SendModel(msgs[0], clock); }
      Took(E.Work(E.Done));
      passed := passed + 1;
    }

    /** The awaited phase is over; send at most one message, and await the next activity. */
    method SendAndAwait(msgs: seq<Message>, ghost next: E.Phase) returns (r: Ending)
      requires Valid() && Settled(Ok) && |msgs| <= 1
      requires E.Worked(world, st) == Moved(st, msgs, next)
      requires !next.Ended? && !next.Entering() && !next.AwaitingInitial? && !next.AwaitingPayload?
      modifies this, client
      ensures Valid() && Settled(r) && st.phase == next && passed == old(passed) + 1
      ensures old(st).initial.Some? ==> st.initial == old(st).initial
    {
      Proceed(msgs, next);
      r := Await(Activity);
    }

    ghost function Moved(s: E.State, msgs: seq<Message>, next: E.Phase): E.State {
      s.(phase := next, readyAt := if next.ReadySent? then Some(s.clock) else s.readyAt,
         sent := s.sent + if msgs == [] then [] else [Stamped(msgs[0], s.clock)])
    }

    /** One message more than `before`, which reports that phase `p` ended with `step`; none if no job is known. */
    ghost predicate Reported(before: seq<Stamped>, p: E.Phase, step: E.Step)
      reads this, client
    {
      && (client.maybeJobUuid.None? ==> client.sent == before)
      && (client.maybeJobUuid.Some? ==>
            && |client.sent| == |before| + 1 && client.sent[..|before|] == before
            && client.sent[|before|].at == clock
            && E.ReportOf(client.sent[|before|].msg, p, step, client.maybeJobUuid.value))
    }

    /** `step` ends the run with the failure `result`. */
    ghost predicate Fatal(result: E.WorkResult, step: E.Step)
      reads this
    {
      && !result.Done? && E.Enabled(st, step)
      && (step == E.Work(result)
          || (step == E.Expire && result == if st.phase.Startup() then E.HordeErr(Generic) else E.JobErr(JobTimeout))
          || (step == E.Work(E.Done) && st.phase.ReadySent? && result == E.HordeErr(Generic)
              && st.initial.Some? && st.initial.value.InitialJob?
              && st.initial.value.timing.None? && st.initial.value.timeoutSeconds.None?))
    }

    /** `send_job_failed` / `send_horde_failed`; without a job uuid there is nobody to report to. */
    method Report(result: E.WorkResult, ghost step: E.Step)
      requires Valid() && Fatal(result, step) && Caused(step)
      modifies this`steps, this`st, client`sent
      ensures Valid() && st == E.Fail(old(st), result) && Reported(old(client.sent), old(st).phase, step)
      ensures EndedForCause()
    {
      ghost var before, s := steps, st;
      Fails(result, step);
      EndingStep(world, begun, before, s, step);
      assert before + [step] == steps;
    }

    method Fails(result: E.WorkResult, ghost step: E.Step)
      requires Valid() && Fatal(result, step)
      modifies this`steps, this`st, client`sent
      ensures Valid() && st == E.Fail(old(st), result) && steps == old(steps) + [step]
      ensures E.After(world, begun, old(steps)) == Some(old(st)) && client.sent == st.sent
      ensures st == E.Next(world, old(st), step)
    {
      FailFields(world, st, result);
      SendFailure(result);
      Took(step);
    }

    method SendFailure(result: E.WorkResult)
      requires !result.Done?
      modifies client`sent
      ensures client.maybeJobUuid.None? ==> client.sent == old(client.sent)
      ensures client.maybeJobUuid.Some? ==>
        var uuid := client.maybeJobUuid.value;
        var msg :=
          if result.JobErr? then JobFailed(uuid, currentStage, result.jobReason)
          else HordeFailed(uuid, Executor, result.hordeReason);
        client.sent == old(client.sent) + [Stamped(msg, clock)]
    {
      if client.maybeJobUuid.Some? {
        var uuid := client.maybeJobUuid.value;
        if result.JobErr? {
          client.SendModel(JobFailed(uuid, currentStage, result.jobReason), clock);
        } else {
          client.SendModel(HordeFailed(uuid, Executor, result.hordeReason), clock);
        }
      }
    }

    /** The `except` clauses of a stage: `onTimeout` is what its TimeoutError is turned into. */
    method GiveUp(r: Ending, onTimeout: E.WorkResult)
      requires Valid() && !r.Ok? && Settled(r)
      requires onTimeout == if st.phase.Startup() then E.HordeErr(Generic) else E.JobErr(JobTimeout)
      modifies this, client
      ensures Valid() && st.phase == E.Ended(false)
      ensures st == E.Fail(old(st), if r.Failed? then r.result else onTimeout)
      ensures Reported(old(client.sent), old(st).phase, if r.Failed? then E.Work(r.result) else E.Expire)
      ensures EndedForCause()
    {
      if r.Failed? {
        Report(r.result, E.Work(r.result));
      } else {
        Report(onTimeout, E.Expire);
      }
    }

    /** Machine specs and security checks. */
    method RunSecurityChecks() returns (r: Ending)
      requires Valid() && OnTime() && st.phase.ReadingSpecs?
      modifies this, client
      ensures Valid() && st.phase.Startup() && Settled(r) && (r.Ok? ==> st.phase.SecurityChecks?)
      ensures r.Ok? ==> passed == old(passed) + 1
    {
      r := Await(Activity);
      if !r.Ok? { return; }
      currentStage := ExecutorStartup;
      Took(E.Work(E.Done));
      passed := passed + 1;
      r := Await(Activity);
    }

    /** ... and the initial request. */
    method RunChecks() returns (r: Ending)
      requires Valid() && OnTime() && st.phase.ReadingSpecs?
      modifies this, client
      ensures Valid() && st.phase.Startup() && Settled(r) && (r.Ok? ==> st.phase.AwaitingInitial?)
      ensures r.Ok? ==> passed == old(passed) + 2
    {
      r := RunSecurityChecks();
      if !r.Ok? { return; }
      Proceed([], E.AwaitingInitial);
      r := Await(InitialMsg);
    }

    /** ... its preparation; then ExecutorReady, and a certificate for streaming. */
    method StartupStage() returns (r: Ending)
      requires Valid() && OnTime() && st.phase.ReadingSpecs?
      modifies this, client
      ensures Valid() && st.phase.Startup() && Settled(r) && (r.Ok? ==> st.phase.ReadySent?)
      ensures r.Ok? ==> passed == old(passed) + 4
    {
      r := RunChecks();
      if !r.Ok? { return; }
      r := SendAndAwait([], E.PreparingInitial);
      if !r.Ok? { return; }
      r := SendAndAwait([ExecutorReady(client.initialMsg.value.uuid)], E.ReadySent);
    }

    ghost function StageOf(p: E.Phase): JobStage {
      if p.EnteringDownload? then VolumeDownload else if p.EnteringExecution? then ExecutionStage else ResultUpload
    }

    ghost function FirstOf(stage: JobStage): E.Phase {
      if stage.VolumeDownload? then E.AwaitingPayload else if stage.ExecutionStage? then E.Starting else E.Uploading
    }

    /** `asyncio.wait_for` on a coroutine: with no time left it is not even started. */
    method EnterStage(stage: JobStage) returns (r: Ending)
      requires Valid() && OnTime() && st.phase.Entering() && stage == StageOf(st.phase)
      modifies this`currentStage, this`steps, this`st
      ensures Valid() && (r.Ok? || r.TimedOut?)
      ensures r.Ok? ==> st == old(st).(stage := stage, phase := FirstOf(stage))
      ensures r.TimedOut? ==> st == old(st) && Settled(r)
      ensures OnTime()
    {
      var left := deadline.TimeLeft(clock);
      if left.value <= 0 { return TimedOut; }
      currentStage := stage;
      Took(E.Work(E.Done));
      r := Ok;
    }

    method AwaitPayload() returns (r: Ending)
      requires Valid() && OnTime() && st.phase.EnteringDownload?
      modifies this, client
      ensures Valid() && st.initial == old(st.initial) && !st.phase.Startup() && Settled(r)
      ensures r.Ok? ==> st.phase.AwaitingPayload?
      ensures passed == old(passed)
    {
      r := EnterStage(VolumeDownload);
      if !r.Ok? { return; }
      r := Await(FullPayload);
    }

    method DownloadStage() returns (r: Ending)
      requires Valid() && OnTime() && st.phase.EnteringDownload?
      modifies this, client
      ensures Valid() && st.initial == old(st.initial) && !st.phase.Startup() && Settled(r)
      ensures (r.Ok? ==> st.phase.VolumesSent?)
      ensures r.Ok? ==> passed == old(passed) + 2
    {
      r := AwaitPayload();
      if !r.Ok? { return; }
      r := SendAndAwait([], E.Downloading);
      if !r.Ok? { return; }
      r := SendAndAwait([VolumesReady(client.initialMsg.value.uuid)], E.VolumesSent);
    }

    method AwaitContainer() returns (r: Ending)
      requires Valid() && OnTime() && st.phase.EnteringExecution?
      modifies this, client
      ensures Valid() && st.initial == old(st.initial) && !st.phase.Startup() && Settled(r)
      ensures passed == old(passed) && (r.Ok? ==> st.phase.Starting?)
    {
      r := EnterStage(ExecutionStage);
      if !r.Ok? { return; }
      r := Await(Activity);
    }

    /** Start the container; a streaming job announces itself. */
    method StartContainer() returns (r: Ending)
      requires Valid() && OnTime() && st.phase.EnteringExecution?
      modifies this, client
      ensures Valid() && st.initial == old(st.initial) && !st.phase.Startup() && Settled(r)
      ensures r.Ok? ==> st.phase == if st.initial.value.streaming then E.StreamingSent else E.Starting
      ensures r.Ok? ==> passed == old(passed) + StreamWaits(st.initial)
    {
      r := AwaitContainer();
      if !r.Ok? { return; }
      if client.initialMsg.value.streaming {
        r := SendAndAwait([StreamingReady(client.initialMsg.value.uuid, world.certificate)], E.StreamingSent);
      }
    }

    /** Wait for the container to finish and check its exit. */
    method RunContainer() returns (r: Ending)
      requires Valid() && OnTime() && st.phase.EnteringExecution?
      modifies this, client
      ensures Valid() && st.initial == old(st.initial) && !st.phase.Startup() && Settled(r)
      ensures (r.Ok? ==> st.phase.Running?)
      ensures r.Ok? ==> passed == old(passed) + StreamWaits(st.initial) + 1
    {
      r := StartContainer();
      if !r.Ok? { return; }
      r := SendAndAwait([], E.Running);
    }

    method RunStage() returns (r: Ending)
      requires Valid() && OnTime() && st.phase.EnteringExecution?
      modifies this, client
      ensures Valid() && st.initial == old(st.initial) && !st.phase.Startup() && Settled(r)
      ensures (r.Ok? ==> st.phase.ExecutionSent?)
      ensures r.Ok? ==> passed == old(passed) + StreamWaits(st.initial) + 2
    {
      r := RunContainer();
      if !r.Ok? { return; }
      r := SendAndAwait([ExecutionDone(client.initialMsg.value.uuid)], E.ExecutionSent);
    }

    method AwaitUpload() returns (r: Ending)
      requires Valid() && OnTime() && st.phase.EnteringUpload?
      modifies this, client
      ensures Valid() && !st.phase.Startup() && Settled(r) && (r.Ok? ==> st.phase.Uploading?)
      ensures passed == old(passed)
      ensures st.initial == old(st.initial)
    {
      r := EnterStage(ResultUpload);
      if !r.Ok? { return; }
      r := Await(Activity);
    }

    method UploadResults() returns (r: Ending)
      requires Valid() && OnTime() && st.phase.EnteringUpload?
      modifies this, client
      ensures Valid() && !st.phase.Startup() && Settled(r)
      ensures r.Ok? ==> st.phase == if world.specs.Some? then E.SpecsSent else E.Uploading
      ensures r.Ok? ==> passed == old(passed) + if world.specs.Some? then 1 else 0
      ensures st.initial == old(st.initial)
    {
      r := AwaitUpload();
      if !r.Ok? { return; }
      if world.specs.Some? {
        r := SendAndAwait([MachineSpecs(client.initialMsg.value.uuid, world.specs.value)], E.SpecsSent);
      }
    }

    method UploadStage() returns (r: Ending)
      requires Valid() && OnTime() && st.phase.EnteringUpload?
      modifies this, client
      ensures Valid() && !st.phase.Startup() && Settled(r) && (r.Ok? ==> st.phase.FinishedSent?)
      ensures r.Ok? ==> passed == old(passed) + if world.specs.Some? then 2 else 1
      ensures st.initial == old(st.initial)
    {
      r := UploadResults();
      if !r.Ok? { return; }
      r := SendAndAwait([JobFinished(client.initialMsg.value.uuid, world.output)], E.FinishedSent);
    }

    /** The whole driver. Whatever happens, it ends, and what it sent is the whole script after a clean
        end, and otherwise - once a job is known - a prefix of the script and one failure report. */
    method Execute()
      requires Valid() && OnTime() && passed == 0 && st == E.Init(world, clock)
      modifies this, client, deadline
      ensures Valid() && st.phase.Ended?
      ensures client.initialMsg.None? ==> client.sent == []
      ensures client.initialMsg.Some? && st.phase.clean ==>
        |client.sent| == E.ScriptLength(world, client.initialMsg.value)
        && E.Follows(world, client.initialMsg.value, client.sent, |client.sent|)
      ensures client.initialMsg.Some? && !st.phase.clean ==>
        E.ClosedByFailure(world, client.initialMsg.value, client.sent)
      ensures !st.phase.clean ==> EndedForCause()
      ensures st.phase.clean ==>
        13 + StreamWaits(client.initialMsg) + (if world.specs.Some? then 1 else 0) == passed <= Dones(taken)
    {
      var r := StartupStage();
      if !r.Ok? {
        GiveUp(r, E.HordeErr(Generic));
      } else {
        RunJob();
      }
      E.TraceIsScriptThenAtMostOneFailure(world, begun, steps);
    }

    /** Re-initialise the deadline for the download. False: no timing was received. */
    method BeginDownload() returns (ok: bool)
      requires Valid() && st.phase.ReadySent? && Settled(Ok)
      modifies this, client, deadline
      ensures Valid() && st.phase == if ok then E.EnteringDownload else E.Ended(false)
      ensures ok ==> OnTime()
      ensures !ok ==> Reported(old(client.sent), old(st).phase, E.Work(E.Done)) && EndedForCause()
      ensures ok ==> passed == old(passed) + 1
    {
      var request := client.initialMsg.value;
      if request.timing.Some? {
        deadline.SetTimeout(clock, request.timing.value.leeway);
        var _ := deadline.ExtendTimeout(request.timing.value.download);
      } else if request.timeoutSeconds.Some? {
        deadline.SetTimeout(clock, request.timeoutSeconds.value);
      } else {
        Report(E.HordeErr(Generic), E.Work(E.Done));
        return false;
      }
      Took(E.Work(E.Done));
      passed := passed + 1;
      ok := true;
    }

    method BeginExecution()
      requires Valid() && st.phase.VolumesSent? && Settled(Ok)
      modifies this`steps, this`st, this`passed, deadline
      ensures Valid() && OnTime() && st.phase.EnteringExecution?
      ensures passed == old(passed) + 1 && st.initial == old(st.initial)
    {
      var timing := client.initialMsg.value.timing;
      if timing.Some? {
        var _ := deadline.ExtendTimeout(timing.value.execution);
        if client.initialMsg.value.streaming {
          var _ := deadline.ExtendTimeout(timing.value.streamingStart);
        }
      }
      Took(E.Work(E.Done));
      passed := passed + 1;
    }

    method BeginUpload()
      requires Valid() && st.phase.ExecutionSent? && Settled(Ok)
      modifies this`steps, this`st, this`passed, deadline
      ensures Valid() && OnTime() && st.phase.EnteringUpload?
      ensures passed == old(passed) + 1 && st.initial == old(st.initial)
    {
      var timing := client.initialMsg.value.timing;
      if timing.Some? {
        var _ := deadline.ExtendTimeout(timing.value.upload);
      }
      Took(E.Work(E.Done));
      passed := passed + 1;
    }

    /** `_execute` after start-up: the deadline is extended before each stage. */
    method RunJob()
      requires Valid() && st.phase.ReadySent? && Settled(Ok)
      modifies this, client, deadline
      ensures Valid() && st.phase.Ended? && (!st.phase.clean ==> EndedForCause())
      ensures st.phase.clean ==> passed == old(passed) + 9 + StreamWaits(st.initial) + if world.specs.Some? then 1 else 0
    {
      var timed := BeginDownload();
      if !timed { return; }
      var r := DownloadStage();
      if !r.Ok? { GiveUp(r, E.JobErr(JobTimeout)); return; }
      BeginExecution();
      r := RunStage();
      if !r.Ok? { GiveUp(r, E.JobErr(JobTimeout)); return; }
      DeliverResults();
    }

    method DeliverResults()
      requires Valid() && st.phase.ExecutionSent? && Settled(Ok)
      modifies this, client, deadline
      ensures Valid() && st.phase.Ended? && (!st.phase.clean ==> EndedForCause())
      ensures st.phase.clean ==> passed == old(passed) + 3 + if world.specs.Some? then 1 else 0
      ensures st.initial == old(st.initial)
    {
      BeginUpload();
      var r := UploadStage();
      if !r.Ok? { GiveUp(r, E.JobErr(JobTimeout)); return; }
      Proceed([], E.Ended(true));
    }
  }
}
