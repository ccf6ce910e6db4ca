/** A page that grows while it is being fetched: whole-line appends by the miner, checkpointed fetches by the
    validator, lost checkpoints, failed transfers and eviction, in any order
    (compute_horde/compute_horde/receipts/transfer.py with compute_horde/compute_horde/receipts/store/local.py). */
module Incremental {
  import opened Messages
  import opened Octets
  import opened Transfer

  datatype Status = Absent | Present | Evicted

  /** `lines` is everything ever appended; `received` and `parsed` are what the fetches since the last lost
      checkpoint brought; `furthest` counts the lines fetched at any time. */
  datatype State = State(
    status: Status, lines: seq<Bytes>,
    checkpoint: nat, received: Bytes, parsed: seq<Bytes>, furthest: nat, db: Tables)

  datatype Step =
    | Append(ls: seq<Bytes>)
    | FetchPage(honoursRange: bool)
    | TransferFails
    | LoseCheckpoint
    | Evict

  function Init(db: Tables): State {
    State(Absent, [], 0, [], [], 0, db)
  }

  ghost predicate Enabled(s: State, step: Step) {
    step.Append? ==> !s.status.Evicted? && WholeLines(step.ls)
  }

  function Page(s: State): Option<Bytes> {
    if s.status.Present? then Some(Join(s.lines)) else None
  }

  /** What one fetch in state `s` does to the checkpoint, and what it reports. */
  function Answer(s: State, honours: bool): (nat, Fetched) {
    Fetch(s.checkpoint, Serve(Page(s), s.checkpoint, honours))
  }

  /** The state after taking in the bytes `b`. */
  function TakeIn(parse: LineOracle, s: State, checkpoint: nat, b: Bytes): State {
    var parsed := s.parsed + SplitLines(b);
    s.(checkpoint := checkpoint, received := s.received + b, parsed := parsed,
       furthest := if |parsed| > s.furthest then |parsed| else s.furthest,
       db := InsertEach(s.db, ReceiptsOf(parse, SplitLines(b))))
  }

  function Next(parse: LineOracle, s: State, step: Step): State {
    match step
    case Append(ls) => s.(status := Present, lines := s.lines + ls)
    case FetchPage(honours) =>
      var (checkpoint, f) := Answer(s, honours);
      if f.Body? then TakeIn(parse, s, checkpoint, f.bytes) else s.(checkpoint := checkpoint)
    case TransferFails => s
    case LoseCheckpoint => s.(checkpoint := 0, received := [], parsed := [])
    case Evict => s.(status := Evicted)
  }

  ghost function After(parse: LineOracle, db: Tables, steps: seq<Step>): Option<State> {
    if steps == [] then Some(Init(db))
    else
      var before := After(parse, db, steps[..|steps| - 1]);
      var step := steps[|steps| - 1];
      if before.Some? && Enabled(before.value, step) then Some(Next(parse, before.value, step)) else None
  }

  /** What was fetched is a prefix of the page that ends on a line boundary, parsed line by line, once each and
      in order; and the tables hold exactly what one fetch of everything ever seen would have inserted. */
  ghost predicate Inv(parse: LineOracle, db: Tables, s: State) {
    && WholeLines(s.lines) && s.parsed <= s.lines && |s.parsed| <= s.furthest <= |s.lines|
    && s.received == Join(s.parsed) && s.checkpoint == |s.received|
    && s.db == InsertEach(db, ReceiptsOf(parse, s.lines[..s.furthest]))
  }

  // ----- inserting again what is there changes nothing

  lemma {:induction false} BulkCreateHolds(t: Table, rs: seq<Receipt>, uuid: string)
    ensures uuid in BulkCreate(t, rs) <==> uuid in t || exists i :: 0 <= i < |rs| && rs[i].uuid == uuid
  {
    if rs != [] {
      var init, last := rs[..|rs| - 1], rs[|rs| - 1];
      BulkCreateHolds(t, init, uuid);
      assert forall i :: 0 <= i < |init| ==> init[i] == rs[i];
      if last.uuid == uuid { assert rs[|rs| - 1].uuid == uuid; }
    }
  }

  lemma {:induction false} BulkCreateNothingNew(t: Table, rs: seq<Receipt>)
    requires forall i :: 0 <= i < |rs| ==> rs[i].uuid in t
    ensures BulkCreate(t, rs) == t
  {
    if rs != [] { BulkCreateNothingNew(t, rs[..|rs| - 1]); }
  }

  lemma ReinsertKind(t: Table, a: seq<Receipt>, b: seq<Receipt>)
    ensures BulkCreate(BulkCreate(t, a + b), b) == BulkCreate(t, a + b)
  {
    forall i | 0 <= i < |b|
      ensures b[i].uuid in BulkCreate(t, a + b)
    {
      assert (a + b)[|a| + i] == b[i];
      BulkCreateHolds(t, a + b, b[i].uuid);
    }
    BulkCreateNothingNew(BulkCreate(t, a + b), b);
  }

  lemma Reinsert(ts: Tables, a: seq<Receipt>, b: seq<Receipt>)
    ensures InsertEach(InsertEach(ts, a + b), b) == InsertEach(ts, a + b)
  {
    var once, twice := InsertEach(ts, a + b), InsertEach(InsertEach(ts, a + b), b);
    forall k
      ensures twice.Get(k) == once.Get(k)
    {
      InsertEachByKind(ts, a + b, k);
      InsertEachByKind(once, b, k);
      OfKindConcat(a, b, k);
      ReinsertKind(ts.Get(k), OfKind(a, k), OfKind(b, k));
    }
    assert once.accepted == once.Get(JobAccepted) && twice.accepted == twice.Get(JobAccepted);
    assert once.started == once.Get(JobStarted) && twice.started == twice.Get(JobStarted);
    assert once.finished == once.Get(JobFinishedReceipt) && twice.finished == twice.Get(JobFinishedReceipt);
  }

  /** Fetching from line `k` on, when everything up to line `f` was inserted before. */
  lemma InsertOverlapping(parse: LineOracle, db: Tables, lines: seq<Bytes>, k: nat, f: nat)
    requires k <= f <= |lines|
    ensures InsertEach(InsertEach(db, ReceiptsOf(parse, lines[..f])), ReceiptsOf(parse, lines[k..]))
      == InsertEach(db, ReceiptsOf(parse, lines))
  {
    var a, b, c := lines[..k], lines[k..f], lines[f..];
    assert lines[..f] == a + b && lines[k..] == b + c && lines == lines[..f] + c;
    var ra, rb, rc := ReceiptsOf(parse, a), ReceiptsOf(parse, b), ReceiptsOf(parse, c);
    ReceiptsOfConcat(parse, a, b);
    ReceiptsOfConcat(parse, b, c);
    ReceiptsOfConcat(parse, lines[..f], c);
    InsertEachConcat(InsertEach(db, ra + rb), rb, rc);
    Reinsert(db, ra, rb);
    InsertEachConcat(db, ra + rb, rc);
  }

  // ----- steps

  /** Everything on the page was fetched. */
  ghost function CaughtUp(parse: LineOracle, db: Tables, s: State): State {
    s.(checkpoint := |Join(s.lines)|, received := Join(s.lines), parsed := s.lines, furthest := |s.lines|,
       db := InsertEach(db, ReceiptsOf(parse, s.lines)))
  }

  /** A fetch that brings something brings exactly the lines not parsed yet. */
  lemma FetchBringsTheRest(parse: LineOracle, db: Tables, s: State, honours: bool)
    requires Inv(parse, db, s)
    ensures var (checkpoint, f) := Answer(s, honours);
      if f.Body?
      then checkpoint == |Join(s.lines)| && f.bytes == Join(s.lines[|s.parsed|..])
      else checkpoint == s.checkpoint
  {
    var rest := s.lines[|s.parsed|..];
    assert s.lines == s.parsed + rest;
    JoinConcat(s.parsed, rest);
    assert Join(s.lines)[s.checkpoint..] == Join(rest);
    assert s.checkpoint == 0 ==> Join(s.lines) == Join(rest);
  }

  lemma TakeInTheRest(parse: LineOracle, db: Tables, s: State)
    requires Inv(parse, db, s)
    ensures TakeIn(parse, s, |Join(s.lines)|, Join(s.lines[|s.parsed|..])) == CaughtUp(parse, db, s)
  {
    var rest := s.lines[|s.parsed|..];
    assert s.lines == s.parsed + rest;
    JoinConcat(s.parsed, rest);
    SplitJoin(rest);
    InsertOverlapping(parse, db, s.lines, |s.parsed|, s.furthest);
  }

  lemma FetchChangesNothingOrCatchesUp(parse: LineOracle, db: Tables, s: State, honours: bool)
    requires Inv(parse, db, s)
    ensures Next(parse, s, FetchPage(honours)) == if Answer(s, honours).1.Body? then CaughtUp(parse, db, s) else s
  {
    FetchBringsTheRest(parse, db, s, honours);
    TakeInTheRest(parse, db, s);
  }

  lemma CaughtUpKeepsInv(parse: LineOracle, db: Tables, s: State)
    requires Inv(parse, db, s)
    ensures Inv(parse, db, CaughtUp(parse, db, s))
  {
    assert s.lines[..|s.lines|] == s.lines;
  }

  lemma StepKeepsInv(parse: LineOracle, db: Tables, s: State, step: Step)
    requires Inv(parse, db, s) && Enabled(s, step)
    ensures Inv(parse, db, Next(parse, s, step))
  {
    match step
    case Append(ls) => assert (s.lines + ls)[..s.furthest] == s.lines[..s.furthest];
    case FetchPage(honours) =>
      FetchChangesNothingOrCatchesUp(parse, db, s, honours);
      CaughtUpKeepsInv(parse, db, s);
    case TransferFails =>
    case LoseCheckpoint =>
    case Evict =>
  }

  lemma {:induction false} Reachable(parse: LineOracle, db: Tables, steps: seq<Step>)
    requires After(parse, db, steps).Some?
    ensures Inv(parse, db, After(parse, db, steps).value)
  {
    if steps == [] {
      var none: seq<Bytes> := [];
      assert none[..0] == none;
    } else {
      Reachable(parse, db, steps[..|steps| - 1]);
      StepKeepsInv(parse, db, After(parse, db, steps[..|steps| - 1]).value, steps[|steps| - 1]);
    }
  }

  /** `after` has what the receipts on `lines`, in order, add to `before`. */
  ghost predicate HoldsFirst(parse: LineOracle, before: Tables, after: Tables, lines: seq<Bytes>) {
    exists rs :: ReceiptsInOrder(parse, lines, rs) && FirstWins(before, after, rs)
  }

  lemma HoldsFirstOf(parse: LineOracle, before: Tables, lines: seq<Bytes>)
    ensures HoldsFirst(parse, before, InsertEach(before, ReceiptsOf(parse, lines)), lines)
  {
    ReceiptsOfLines(parse, lines);
    InsertsKeepFirst(before, ReceiptsOf(parse, lines));
  }

  /** Over every interleaving: the bytes received since the last lost checkpoint are exactly the page up to the
      checkpoint, which falls on a line boundary; every line up to there was parsed once, in order; and the
      tables hold what inserting every line fetched so far, once and one by one, would have left: for each job the
      entry there was, or else the first receipt about it on those lines. */
  lemma IncrementalRefinesFull(parse: LineOracle, db: Tables, steps: seq<Step>)
    requires After(parse, db, steps).Some?
    ensures
      var s := After(parse, db, steps).value;
      && s.checkpoint <= |Join(s.lines)| && s.received == Join(s.lines)[..s.checkpoint]
      && |s.parsed| <= |s.lines| && s.parsed == s.lines[..|s.parsed|] && s.checkpoint == |Join(s.lines[..|s.parsed|])|
      && s.furthest <= |s.lines| && s.db == InsertEach(db, ReceiptsOf(parse, s.lines[..s.furthest]))
    ensures
      var s := After(parse, db, steps).value;
      s.furthest <= |s.lines| && HoldsFirst(parse, db, s.db, s.lines[..s.furthest])
  {
    Reachable(parse, db, steps);
    HoldsFirstOf(parse, db, After(parse, db, steps).value.lines[..After(parse, db, steps).value.furthest]);
    var s := After(parse, db, steps).value;
    assert s.lines == s.parsed + s.lines[|s.parsed|..];
    JoinConcat(s.parsed, s.lines[|s.parsed|..]);
  }

  lemma NothingLeft(ls: seq<Bytes>)
    requires WholeLines(ls)
    ensures Join(ls) == [] <==> ls == []
  {
    assert ls != [] ==> WholeLine(ls[0]);
  }

  /** A fetch of a present page that the server answers in full leaves nothing unparsed. */
  lemma OnlyNothingWhenNothingLeft(parse: LineOracle, db: Tables, s: State)
    requires Inv(parse, db, s) && s.status.Present? && !Answer(s, true).1.Body?
    ensures s.parsed == s.lines
  {
    var rest := s.lines[|s.parsed|..];
    assert s.lines == s.parsed + rest;
    JoinConcat(s.parsed, rest);
    assert |Join(s.lines)| == s.checkpoint + |Join(rest)|;
    NothingLeft(rest);
  }

  /** Whatever happened before, one fetch of a page still there, by a server that honours ranges, makes the tables
      those of a single fetch of the whole page into the original tables. */
  lemma FetchCatchesUp(parse: LineOracle, db: Tables, steps: seq<Step>)
    requires After(parse, db, steps).Some? && After(parse, db, steps).value.status.Present?
    ensures var s := Next(parse, After(parse, db, steps).value, FetchPage(true));
      && s.parsed == s.lines && s.db == InsertEach(db, ReceiptsOf(parse, SplitLines(Join(s.lines))))
      && HoldsFirst(parse, db, s.db, s.lines)
  {
    Reachable(parse, db, steps);
    var s := After(parse, db, steps).value;
    SplitJoin(s.lines);
    HoldsFirstOf(parse, db, s.lines);
    FetchChangesNothingOrCatchesUp(parse, db, s, true);
    if !Answer(s, true).1.Body? {
      OnlyNothingWhenNothingLeft(parse, db, s);
      assert s.lines[..s.furthest] == s.lines;
    }
  }

  /** Once a page is gone, whatever follows brings nothing more from it. */
  lemma {:induction false} NothingAfterEviction(parse: LineOracle, db: Tables, steps: seq<Step>, more: seq<Step>)
    requires After(parse, db, steps + [Evict] + more).Some?
    ensures After(parse, db, steps).Some?
    ensures var s := After(parse, db, steps + [Evict] + more).value;
      s.status.Evicted? && s.db == After(parse, db, steps).value.db
  {
    var all := steps + [Evict] + more;
    if more == [] {
      assert all == steps + [Evict] && all[..|all| - 1] == steps;
    } else {
      assert all[..|all| - 1] == steps + [Evict] + more[..|more| - 1];
      NothingAfterEviction(parse, db, steps, more[..|more| - 1]);
    }
  }
}
