/** Dispatching scheduled batches of synthetic jobs: `run_synthetic_jobs` and `check_missed_synthetic_jobs`
    (validator/app/src/compute_horde_validator/validator/tasks.py), as any number of concurrent workers over
    rows locked with SELECT ... FOR UPDATE SKIP LOCKED and a chain head that never goes back. */
module Planner {
  import opened Messages

  datatype Row = Row(block: int, started: bool, missed: bool)

  /** `Read` and `MissedRead` hold the head a task has read; `Holding` is an open transaction with its locked
      rows, the batch it picked and the head it last saw; `Started` has committed but not yet dispatched. */
  datatype Worker =
    | Idle
    | Read(head: int)
    | Holding(rows: set<nat>, chosen: nat, head: int)
    | Started(batch: nat)
    | MissedRead(head: int)

  datatype Dispatch = Dispatch(batch: nat, head: int)

  /** A selection as it was made: the batch picked, the head read for it, the rows and which of them were free. */
  datatype Pick = Pick(batch: nat, read: int, rows: seq<Row>, free: set<nat>)

  datatype State = State(
    head: int, rows: seq<Row>, workers: seq<Worker>, dispatched: seq<Dispatch>, picks: seq<Pick>)

  /** `maxOversleep` and `waitInAdvance` are the two settings; `staleness` bounds by how many blocks the head may
      have moved on between a planner's reading it and selecting rows. The code sets no bound. */
  datatype Config = Config(maxOversleep: int, waitInAdvance: int, staleness: Option<nat>) {
    predicate UpToDate(read: int, head: int) {
      staleness.Some? ==> head - read <= staleness.value
    }
  }

  datatype Step =
    | Advance(d: nat)
    | Schedule(block: int)
    | PlannerReads(w: nat)
    | PlannerSelects(w: nat, chosen: nat)
    | PlannerPolls(w: nat)
    | PlannerStarts(w: nat)
    | PlannerGivesUp(w: nat)
    | PlannerDispatches(w: nat)
    | MissedReads(w: nat)
    | MissedMarks(w: nat, row: nat)
    | MissedEnds(w: nat)

  function Init(head: int, workers: nat): State {
    State(head, [], seq(workers, _ => Idle), [], [])
  }

  predicate HeldBy(s: State, w: nat, i: nat) {
    w < |s.workers| && s.workers[w].Holding? && i in s.workers[w].rows
  }

  predicate Locked(s: State, i: nat) {
    exists w :: 0 <= w < |s.workers| && HeldBy(s, w, i)
  }

  /** The planner's query. It does not look at `missed`. */
  function Selected(cfg: Config, s: State, head: int): set<nat> {
    set i: nat | i < |s.rows| && !Locked(s, i) && !s.rows[i].started
      && head - cfg.maxOversleep <= s.rows[i].block <= head + cfg.waitInAdvance
  }

  predicate Enabled(cfg: Config, s: State, step: Step) {
    match step
    case Advance(_) => true
    case Schedule(_) => true
    case PlannerReads(w) => w < |s.workers| && s.workers[w].Idle?
    case PlannerSelects(w, c) =>
      && w < |s.workers| && s.workers[w].Read? && cfg.UpToDate(s.workers[w].head, s.head)
      && c in Selected(cfg, s, s.workers[w].head)
      && forall i :: i in Selected(cfg, s, s.workers[w].head) ==> s.rows[c].block <= s.rows[i].block
    case PlannerPolls(w) => w < |s.workers| && s.workers[w].Holding?
    case PlannerStarts(w) =>
      w < |s.workers| && s.workers[w].Holding? && s.workers[w].chosen < |s.rows|
      && s.rows[s.workers[w].chosen].block <= s.workers[w].head
    case PlannerGivesUp(w) => w < |s.workers| && (s.workers[w].Holding? || s.workers[w].Read?)
    case PlannerDispatches(w) => w < |s.workers| && s.workers[w].Started?
    case MissedReads(w) => w < |s.workers| && s.workers[w].Idle?
    case MissedMarks(w, i) =>
      w < |s.workers| && s.workers[w].MissedRead? && i < |s.rows| && !Locked(s, i)
      && !s.rows[i].started && !s.rows[i].missed && s.rows[i].block < s.workers[w].head - cfg.maxOversleep
    case MissedEnds(w) => w < |s.workers| && s.workers[w].MissedRead?
  }

  function Set(s: State, w: nat, k: Worker): State
    requires w < |s.workers|
  {
    s.(workers := s.workers[w := k])
  }

  function Next(cfg: Config, s: State, step: Step): State
    requires Enabled(cfg, s, step)
  {
    match step
    case Advance(d) => s.(head := s.head + d)
    case Schedule(b) => s.(rows := s.rows + [Row(b, false, false)])
    case PlannerReads(w) => Set(s, w, Read(s.head))
    case PlannerSelects(w, c) =>
      var read := s.workers[w].head;
      var pick := Pick(c, read, s.rows, set i: nat | i < |s.rows| && !Locked(s, i));
      Set(s.(picks := s.picks + [pick]), w, Holding(Selected(cfg, s, read), c, read))
    case PlannerPolls(w) => Set(s, w, s.workers[w].(head := s.head))
    case PlannerStarts(w) =>
      var c := s.workers[w].chosen;
      Set(s.(rows := s.rows[c := s.rows[c].(started := true)]), w, Started(c))
    case PlannerGivesUp(w) => Set(s, w, Idle)
    case PlannerDispatches(w) =>
      Set(s.(dispatched := s.dispatched + [Dispatch(s.workers[w].batch, s.head)]), w, Idle)
    case MissedReads(w) => Set(s, w, MissedRead(s.head))
    case MissedMarks(w, i) => s.(rows := s.rows[i := s.rows[i].(missed := true)])
    case MissedEnds(w) => Set(s, w, Idle)
  }

  function After(cfg: Config, head: int, workers: nat, steps: seq<Step>): Option<State> {
    if steps == [] then Some(Init(head, workers))
    else
      var before := After(cfg, head, workers, steps[..|steps| - 1]);
      var step := steps[|steps| - 1];
      if before.Some? && Enabled(cfg, before.value, step) then Some(Next(cfg, before.value, step)) else None
  }

  // ----- the invariant

  /** A held row is unstarted and held once; a picked batch is among the held rows. */
  ghost predicate LocksOk(s: State) {
    && (forall w: nat, i: nat :: HeldBy(s, w, i) ==> i < |s.rows| && !s.rows[i].started)
    && (forall w: nat, v: nat, i: nat :: HeldBy(s, w, i) && HeldBy(s, v, i) ==> w == v)
    && (forall w :: 0 <= w < |s.workers| && s.workers[w].Holding? ==> HeldBy(s, w, s.workers[w].chosen))
  }

  ghost predicate Pending(s: State, w: nat, i: nat) {
    w < |s.workers| && s.workers[w] == Started(i)
  }

  /** A batch started once is either about to be dispatched, by one worker, or dispatched, once. */
  ghost predicate OnceOk(s: State) {
    && (forall w: nat, i: nat :: Pending(s, w, i) ==> i < |s.rows| && s.rows[i].started && s.rows[i].block <= s.head)
    && (forall w: nat, v: nat, i: nat :: Pending(s, w, i) && Pending(s, v, i) ==> w == v)
    && (forall k :: 0 <= k < |s.dispatched| ==> DispatchOk(s, s.dispatched[k]))
    && (forall w: nat, k :: 0 <= k < |s.dispatched| ==> !Pending(s, w, s.dispatched[k].batch))
    && (forall j, k :: 0 <= j < k < |s.dispatched| ==> s.dispatched[j].batch != s.dispatched[k].batch)
  }

  predicate DispatchOk(s: State, d: Dispatch) {
    d.batch < |s.rows| && s.rows[d.batch].started && s.rows[d.batch].block <= d.head <= s.head
  }

  ghost predicate HeadsOk(s: State) {
    forall w :: 0 <= w < |s.workers| ==>
      (s.workers[w].Read? || s.workers[w].Holding? || s.workers[w].MissedRead?) ==> s.workers[w].head <= s.head
  }

  ghost predicate MissedOk(cfg: Config, s: State) {
    forall i :: 0 <= i < |s.rows| && s.rows[i].missed ==> s.rows[i].block < s.head - cfg.maxOversleep
  }

  /** Only when selection uses the current head: what is held or started was never marked missed. */
  ghost predicate ExclusiveOk(s: State) {
    && (forall w: nat, i: nat :: HeldBy(s, w, i) && i < |s.rows| ==> !s.rows[i].missed)
    && (forall i :: 0 <= i < |s.rows| ==> !(s.rows[i].started && s.rows[i].missed))
  }

  ghost predicate Inv(cfg: Config, s: State) {
    LocksOk(s) && OnceOk(s) && HeadsOk(s) && MissedOk(cfg, s) && (cfg.staleness == Some(0) ==> ExclusiveOk(s))
  }

  lemma StepKeepsLocks(cfg: Config, s: State, step: Step)
    requires Inv(cfg, s) && Enabled(cfg, s, step)
    ensures LocksOk(Next(cfg, s, step))
  {
    var t := Next(cfg, s, step);
    forall w: nat, i: nat | HeldBy(t, w, i)
      ensures HeldBy(s, w, i) || (step.PlannerSelects? && step.w == w && i in Selected(cfg, s, s.workers[w].head))
    {
    }
    if step.PlannerSelects? {
      forall v: nat, i: nat | HeldBy(s, v, i)
        ensures i !in Selected(cfg, s, s.workers[step.w].head)
      {
        assert Locked(s, i);
      }
    }
  }

  lemma StepKeepsOnce(cfg: Config, s: State, step: Step)
    requires Inv(cfg, s) && Enabled(cfg, s, step)
    ensures OnceOk(Next(cfg, s, step))
  {
    var t := Next(cfg, s, step);
    forall w: nat, i: nat | Pending(t, w, i)
      ensures Pending(s, w, i) || (step.PlannerStarts? && step.w == w && s.workers[w].chosen == i)
    {
    }
    if step.PlannerStarts? {
      assert HeldBy(s, step.w, s.workers[step.w].chosen);
    }
    if step.PlannerDispatches? {
      assert Pending(s, step.w, s.workers[step.w].batch);
    }
  }

  lemma StepKeepsExclusive(cfg: Config, s: State, step: Step)
    requires Inv(cfg, s) && Enabled(cfg, s, step) && cfg.staleness == Some(0)
    ensures ExclusiveOk(Next(cfg, s, step))
  {
    var t := Next(cfg, s, step);
    forall w: nat, i: nat | HeldBy(t, w, i)
      ensures HeldBy(s, w, i) || (step.PlannerSelects? && step.w == w && i in Selected(cfg, s, s.workers[w].head))
    {
    }
    if step.PlannerStarts? {
      assert HeldBy(s, step.w, s.workers[step.w].chosen);
    }
    if step.MissedMarks? {
      forall w | HeldBy(s, w, step.row)
        ensures Locked(s, step.row)
      {
      }
    }
  }

  lemma StepKeepsInv(cfg: Config, s: State, step: Step)
    requires Inv(cfg, s) && Enabled(cfg, s, step)
    ensures Inv(cfg, Next(cfg, s, step))
  {
    StepKeepsLocks(cfg, s, step);
    StepKeepsOnce(cfg, s, step);
    if cfg.staleness == Some(0) { StepKeepsExclusive(cfg, s, step); }
  }

  lemma {:induction false} Reachable(cfg: Config, head: int, workers: nat, steps: seq<Step>)
    requires After(cfg, head, workers, steps).Some?
    ensures Inv(cfg, After(cfg, head, workers, steps).value)
  {
    if steps != [] {
      Reachable(cfg, head, workers, steps[..|steps| - 1]);
      StepKeepsInv(cfg, After(cfg, head, workers, steps[..|steps| - 1]).value, steps[|steps| - 1]);
    }
  }

  /** Over every interleaving: no batch is dispatched twice, none before its block, and only started ones. */
  lemma DispatchedOnceAndNotEarly(cfg: Config, head: int, workers: nat, steps: seq<Step>)
    requires After(cfg, head, workers, steps).Some?
    ensures
      var s := After(cfg, head, workers, steps).value;
      && (forall j, k :: 0 <= j < k < |s.dispatched| ==> s.dispatched[j].batch != s.dispatched[k].batch)
      && (forall k :: 0 <= k < |s.dispatched| ==> DispatchOk(s, s.dispatched[k]))
  {
    Reachable(cfg, head, workers, steps);
  }

  /** If rows are selected on the current head, no batch is ever both started and marked missed. */
  lemma NeverBothStartedAndMissed(cfg: Config, head: int, workers: nat, steps: seq<Step>, i: nat)
    requires After(cfg, head, workers, steps).Some? && cfg.staleness == Some(0)
    requires i < |After(cfg, head, workers, steps).value.rows|
    ensures var row := After(cfg, head, workers, steps).value.rows[i];
      !(row.started && row.missed)
  {
    Reachable(cfg, head, workers, steps);
  }

  // ----- the earliest batch first

  predicate Offered(cfg: Config, p: Pick, i: nat) {
    && i in p.free && i < |p.rows| && !p.rows[i].started
    && p.read - cfg.maxOversleep <= p.rows[i].block && p.rows[i].block <= p.read + cfg.waitInAdvance
  }

  /** The batch picked was among those that could be, and none of them was due before it. */
  ghost predicate Earliest(cfg: Config, p: Pick) {
    Offered(cfg, p, p.batch) && forall i: nat :: Offered(cfg, p, i) ==> p.rows[p.batch].block <= p.rows[i].block
  }

  /** The batch was picked as the earliest once, with the block it still has. */
  ghost predicate Picked(cfg: Config, s: State, batch: nat) {
    && batch < |s.rows|
    && exists k :: 0 <= k < |s.picks| && s.picks[k].batch == batch && Earliest(cfg, s.picks[k])
         && s.picks[k].rows[batch].block == s.rows[batch].block
  }

  ghost predicate PicksOk(cfg: Config, s: State) {
    && (forall w :: 0 <= w < |s.workers| && s.workers[w].Holding? ==> Picked(cfg, s, s.workers[w].chosen))
    && (forall w :: 0 <= w < |s.workers| && s.workers[w].Started? ==> Picked(cfg, s, s.workers[w].batch))
    && (forall i :: 0 <= i < |s.rows| && s.rows[i].started ==> Picked(cfg, s, i))
  }

  lemma StaysPicked(cfg: Config, s: State, step: Step, batch: nat)
    requires Enabled(cfg, s, step) && Picked(cfg, s, batch)
    ensures Picked(cfg, Next(cfg, s, step), batch)
  {
    var t := Next(cfg, s, step);
    var k :| 0 <= k < |s.picks| && s.picks[k].batch == batch && Earliest(cfg, s.picks[k])
      && s.picks[k].rows[batch].block == s.rows[batch].block;
    assert t.picks[k] == s.picks[k] && t.rows[batch].block == s.rows[batch].block;
  }

  lemma SelectionIsEarliest(cfg: Config, s: State, w: nat, chosen: nat)
    requires Enabled(cfg, s, PlannerSelects(w, chosen))
    ensures Picked(cfg, Next(cfg, s, PlannerSelects(w, chosen)), chosen)
  {
    var t := Next(cfg, s, PlannerSelects(w, chosen));
    var p := t.picks[|s.picks|];
    assert forall i: nat :: Offered(cfg, p, i) ==> i in Selected(cfg, s, s.workers[w].head);
    assert Earliest(cfg, p);
  }

  lemma StepKeepsPicks(cfg: Config, s: State, step: Step)
    requires Enabled(cfg, s, step) && PicksOk(cfg, s)
    ensures PicksOk(cfg, Next(cfg, s, step))
  {
    forall batch: nat | Picked(cfg, s, batch)
      ensures Picked(cfg, Next(cfg, s, step), batch)
    {
      StaysPicked(cfg, s, step, batch);
    }
    if step.PlannerSelects? { SelectionIsEarliest(cfg, s, step.w, step.chosen); }
  }

  /** Over every interleaving: a started batch was, when it was picked, due no later than any other batch that was
      free, unstarted and inside the window. */
  lemma {:induction false} StartedWasEarliest(cfg: Config, head: int, workers: nat, steps: seq<Step>)
    requires After(cfg, head, workers, steps).Some?
    ensures PicksOk(cfg, After(cfg, head, workers, steps).value)
  {
    if steps != [] {
      StartedWasEarliest(cfg, head, workers, steps[..|steps| - 1]);
      StepKeepsPicks(cfg, After(cfg, head, workers, steps[..|steps| - 1]).value, steps[|steps| - 1]);
    }
  }

  /** Only overslept batches are ever marked missed. */
  lemma MissedWasOverslept(cfg: Config, head: int, workers: nat, steps: seq<Step>, i: nat)
    requires After(cfg, head, workers, steps).Some? && i < |After(cfg, head, workers, steps).value.rows|
    ensures var s := After(cfg, head, workers, steps).value;
      s.rows[i].missed ==> s.rows[i].block < s.head - cfg.maxOversleep
  {
    Reachable(cfg, head, workers, steps);
  }

  ghost predicate Contradictory(s: State) {
    exists i :: 0 <= i < |s.rows| && s.rows[i].started && s.rows[i].missed
  }

  ghost predicate CanContradict(cfg: Config, head: int) {
    exists workers: nat, steps ::
      After(cfg, head, workers, steps).Some? && Contradictory(After(cfg, head, workers, steps).value)
  }

  lemma Go(cfg: Config, head: int, steps: seq<Step>, s: State, step: Step) returns (longer: seq<Step>, t: State)
    requires After(cfg, head, 2, steps) == Some(s) && Enabled(cfg, s, step)
    ensures longer == steps + [step] && t == Next(cfg, s, step) && After(cfg, head, 2, longer) == Some(t)
  {
    longer, t := steps + [step], Next(cfg, s, step);
    assert longer[..|longer| - 1] == steps;
  }

  /** The batch just within the oversleep limit when the head is read. */
  function Brink(cfg: Config, head: int): int {
    head - cfg.maxOversleep
  }

  /** A planner reads the head, which then moves on by a single block ... */
  lemma FallAsleep(cfg: Config, head: int) returns (steps: seq<Step>, s: State)
    ensures After(cfg, head, 2, steps) == Some(s)
    ensures s == State(head + 1, [Row(Brink(cfg, head), false, false)], [Read(head), Idle], [], [])
  {
    steps, s := [], Init(head, 2);
    assert s.workers == [Idle, Idle];
    steps, s := Go(cfg, head, steps, s, Schedule(Brink(cfg, head)));
    assert s == State(head, [Row(Brink(cfg, head), false, false)], [Idle, Idle], [], []);
    steps, s := Go(cfg, head, steps, s, PlannerReads(0));
    assert s == State(head, [Row(Brink(cfg, head), false, false)], [Read(head), Idle], [], []);
    steps, s := Go(cfg, head, steps, s, Advance(1));
  }

  /** ... so that a batch is overslept and marked missed ... */
  lemma Oversleep(cfg: Config, head: int) returns (steps: seq<Step>, s: State)
    ensures After(cfg, head, 2, steps) == Some(s)
    ensures s == State(head + 1, [Row(Brink(cfg, head), false, true)], [Read(head), Idle], [], [])
  {
    steps, s := FallAsleep(cfg, head);
    steps, s := Go(cfg, head, steps, s, MissedReads(1));
    assert s.workers == [Read(head), MissedRead(s.head)];
    steps, s := Go(cfg, head, steps, s, MissedMarks(1, 0));
    steps, s := Go(cfg, head, steps, s, MissedEnds(1));
  }

  /** ... and the planner wakes up, selects it on the strength of the old head ... */
  lemma SelectOverslept(cfg: Config, head: int) returns (steps: seq<Step>, s: State)
    requires cfg.staleness != Some(0) && 0 <= cfg.maxOversleep + cfg.waitInAdvance
    ensures After(cfg, head, 2, steps) == Some(s)
    ensures s == State(head + 1, [Row(Brink(cfg, head), false, true)], [Holding({0}, 0, head), Idle], [], s.picks)
  {
    steps, s := Oversleep(cfg, head);
    assert Selected(cfg, s, head) == {0};
    steps, s := Go(cfg, head, steps, s, PlannerSelects(0, 0));
  }

  /** ... and, once its block is reached, starts it. */
  lemma StaleSelection(cfg: Config, head: int)
    requires cfg.staleness != Some(0) && 0 <= cfg.maxOversleep + cfg.waitInAdvance
    ensures CanContradict(cfg, head)
  {
    var steps, s := SelectOverslept(cfg, head);
    steps, s := Go(cfg, head, steps, s, Advance(if cfg.maxOversleep < 0 then -cfg.maxOversleep else 0));
    steps, s := Go(cfg, head, steps, s, PlannerPolls(0));
    steps, s := Go(cfg, head, steps, s, PlannerStarts(0));
    assert s.rows[0] == Row(Brink(cfg, head), true, true);
    assert Contradictory(s);
  }

  /** Nothing can be selected while the limit for oversleeping lies behind that for waiting. */
  lemma {:induction false} NothingStarts(cfg: Config, head: int, workers: nat, steps: seq<Step>)
    requires After(cfg, head, workers, steps).Some? && cfg.maxOversleep + cfg.waitInAdvance < 0
    ensures var s := After(cfg, head, workers, steps).value;
      && (forall w :: 0 <= w < |s.workers| ==> !s.workers[w].Holding?)
      && (forall i :: 0 <= i < |s.rows| ==> !s.rows[i].started)
  {
    if steps != [] { NothingStarts(cfg, head, workers, steps[..|steps| - 1]); }
  }

  /** Whatever the settings: a batch can end up both started and missed exactly when batches can be selected at all
      and selection may use a head that is outdated by as little as one block. */
  lemma ContradictionExactlyWhenStale(cfg: Config, head: int)
    ensures CanContradict(cfg, head) <==> cfg.staleness != Some(0) && 0 <= cfg.maxOversleep + cfg.waitInAdvance
  {
    if cfg.staleness != Some(0) && 0 <= cfg.maxOversleep + cfg.waitInAdvance {
      StaleSelection(cfg, head);
    } else {
      forall workers: nat, steps | After(cfg, head, workers, steps).Some?
        ensures !Contradictory(After(cfg, head, workers, steps).value)
      {
        if cfg.staleness == Some(0) {
          Reachable(cfg, head, workers, steps);
        } else {
          NothingStarts(cfg, head, workers, steps);
        }
      }
    }
  }
}
