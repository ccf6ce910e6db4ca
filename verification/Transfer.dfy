/** Fetching receipts page by page with checkpoints, and storing them in batches
    (compute_horde/compute_horde/receipts/transfer.py). Range requests follow sections 14.1.2, 14.4, 15.3.7 and
    15.5.17 of RFC 9110. Parsing and signature checks of one line are an oracle. */
module Transfer {
  import opened Messages
  import opened Octets

  const NEWLINE: Byte := 10

  // ----- lines

  /** Iterating over a BytesIO: lines keep their newline, the last one may lack it. */
  function SplitLines(b: Bytes): seq<Bytes> {
    if NEWLINE !in b then (if b == [] then [] else [b])
    else
      var i := FirstNewline(b);
      [b[..i + 1]] + SplitLines(b[i + 1..])
  }

  function FirstNewline(b: Bytes): (i: nat)
    requires NEWLINE in b
    ensures i < |b| && b[i] == NEWLINE && forall j :: 0 <= j < i ==> b[j] != NEWLINE
  {
    if b[0] == NEWLINE then 0 else 1 + FirstNewline(b[1..])
  }

  predicate WholeLine(l: Bytes) {
    |l| > 0 && l[|l| - 1] == NEWLINE && forall j :: 0 <= j < |l| - 1 ==> l[j] != NEWLINE
  }

  ghost predicate WholeLines(ls: seq<Bytes>) {
    forall i :: 0 <= i < |ls| ==> WholeLine(ls[i])
  }

  function Join(ls: seq<Bytes>): Bytes {
    if ls == [] then [] else ls[0] + Join(ls[1..])
  }

  lemma {:induction false} JoinConcat(a: seq<Bytes>, b: seq<Bytes>)
    ensures Join(a + b) == Join(a) + Join(b)
  {
    if a == [] {
      assert a + b == b;
    } else {
      JoinConcat(a[1..], b);
      assert (a + b)[0] == a[0] && (a + b)[1..] == a[1..] + b;
      var head, tail, other := a[0], Join(a[1..]), Join(b);
      assert head + (tail + other) == (head + tail) + other;
    }
  }

  lemma LineEndsAtFirstNewline(l: Bytes, rest: Bytes)
    requires WholeLine(l)
    ensures NEWLINE in l + rest && FirstNewline(l + rest) == |l| - 1
  {
    var b := l + rest;
    assert b[|l| - 1] == NEWLINE;
    assert forall j :: 0 <= j < |l| - 1 ==> b[j] == l[j];
  }

  /** Splitting undoes joining whole lines. */
  lemma {:induction false} SplitJoin(ls: seq<Bytes>)
    requires WholeLines(ls)
    ensures SplitLines(Join(ls)) == ls
  {
    if ls != [] {
      var l, rest := ls[0], Join(ls[1..]);
      LineEndsAtFirstNewline(l, rest);
      assert (l + rest)[..|l|] == l && (l + rest)[|l|..] == rest;
      assert SplitLines(l + rest) == [l] + SplitLines(rest);
      SplitJoin(ls[1..]);
    }
  }

  /** One line split off: it is whole, and what follows it is split on its own. */
  lemma SplitStep(b: Bytes) returns (line: Bytes, rest: Bytes)
    requires NEWLINE in b
    ensures b == line + rest && WholeLine(line) && SplitLines(b) == [line] + SplitLines(rest) && |rest| < |b|
  {
    var i := FirstNewline(b);
    line, rest := b[..i + 1], b[i + 1..];
  }

  /** Splitting loses nothing. */
  lemma {:induction false} JoinSplit(b: Bytes)
    ensures Join(SplitLines(b)) == b
    decreases |b|
  {
    if NEWLINE in b {
      var line, rest := SplitStep(b);
      JoinSplit(rest);
      assert ([line] + SplitLines(rest))[1..] == SplitLines(rest);
    } else if b != [] {
      assert SplitLines(b) == [b] && [b][1..] == [];
    }
  }

  /** Every line but the last is whole, and the last is whole or has no newline. */
  ghost predicate Pieces(ls: seq<Bytes>) {
    forall i :: 0 <= i < |ls| ==> WholeLine(ls[i]) || (i == |ls| - 1 && ls[i] != [] && NEWLINE !in ls[i])
  }

  lemma MorePieces(line: Bytes, ls: seq<Bytes>)
    requires WholeLine(line) && Pieces(ls)
    ensures Pieces([line] + ls)
  {
  }

  lemma {:induction false} SplitIntoPieces(b: Bytes)
    ensures Pieces(SplitLines(b))
    decreases |b|
  {
    if NEWLINE in b {
      var line, rest := SplitStep(b);
      SplitIntoPieces(rest);
      MorePieces(line, SplitLines(rest));
    }
  }

  // ----- one fetch

  datatype Response = Response(status: nat, body: Bytes, contentRangeTotal: Option<nat>)

  /** A server holding `page`, asked from byte `from` on (0: no Range header). It may ignore the Range header. */
  function Serve(page: Option<Bytes>, from: nat, honoursRange: bool): Response {
    if page.None? then Response(404, [], None)
    else if from == 0 || !honoursRange then Response(200, page.value, None)
    else if from >= |page.value| then Response(416, [], None)
    else Response(206, page.value[from..], Some(|page.value|))
  }

  /** What a fetch reports: the body it took in, nothing new, or a failed transfer. */
  datatype Fetched = Body(bytes: Bytes) | Nothing | Failed

  /** The checkpoint and report after one fetch, given the answer. */
  function Fetch(checkpoint: nat, r: Response): (nat, Fetched) {
    if r.status == 404 || r.status == 416 then (checkpoint, Nothing)
    else if r.status != 200 && r.status != 206 then (checkpoint, Failed)
    else if checkpoint > 0 then
      if r.contentRangeTotal.Some? then (r.contentRangeTotal.value, Body(r.body)) else (checkpoint, Failed)
    else (|r.body|, Body(r.body))
  }

  datatype Kind = JobAccepted | JobStarted | JobFinishedReceipt

  datatype Receipt = Receipt(kind: Kind, uuid: string, payload: string)

  /** The outcome of validating one line. */
  type LineOracle = Bytes -> Option<Receipt>

  function ReceiptsOf(parse: LineOracle, lines: seq<Bytes>): seq<Receipt> {
    if lines == [] then []
    else
      var init, last := ReceiptsOf(parse, lines[..|lines| - 1]), parse(lines[|lines| - 1]);
      if last.Some? then init + [last.value] else init
  }

  lemma {:induction false} ReceiptsOfConcat(parse: LineOracle, a: seq<Bytes>, b: seq<Bytes>)
    ensures ReceiptsOf(parse, a + b) == ReceiptsOf(parse, a) + ReceiptsOf(parse, b)
  {
    if b == [] {
      assert a + b == a;
    } else {
      assert (a + b)[..|a + b| - 1] == a + b[..|b| - 1];
      ReceiptsOfConcat(parse, a, b[..|b| - 1]);
    }
  }

  /** How many of the first `n` lines are accepted. */
  function Accepted(parse: LineOracle, lines: seq<Bytes>, n: nat): nat
    requires n <= |lines|
  {
    if n == 0 then 0 else Accepted(parse, lines, n - 1) + if parse(lines[n - 1]).Some? then 1 else 0
  }

  lemma {:induction false} AcceptedPrefix(parse: LineOracle, lines: seq<Bytes>, shorter: nat, n: nat)
    requires n <= shorter <= |lines|
    ensures Accepted(parse, lines[..shorter], n) == Accepted(parse, lines, n)
  {
    if n > 0 { AcceptedPrefix(parse, lines, shorter, n - 1); }
  }

  /** Exactly the accepted lines contribute, each its own receipt, in the order of the lines. */
  ghost predicate ReceiptsInOrder(parse: LineOracle, lines: seq<Bytes>, receipts: seq<Receipt>) {
    && |receipts| == Accepted(parse, lines, |lines|)
    && forall i :: 0 <= i < |lines| && parse(lines[i]).Some? ==>
         Accepted(parse, lines, i) < |receipts| && receipts[Accepted(parse, lines, i)] == parse(lines[i]).value
  }

  lemma OneMoreLine(parse: LineOracle, lines: seq<Bytes>, last: Bytes, receipts: seq<Receipt>)
    requires ReceiptsInOrder(parse, lines, receipts)
    ensures ReceiptsInOrder(parse, lines + [last], receipts + if parse(last).Some? then [parse(last).value] else [])
  {
    var n := |lines|;
    assert (lines + [last])[..n] == lines;
    forall i | 0 <= i <= n
      ensures Accepted(parse, lines + [last], i) == Accepted(parse, lines, i)
    {
      AcceptedPrefix(parse, lines + [last], n, i);
    }
  }

  lemma {:induction false} ReceiptsOfLines(parse: LineOracle, lines: seq<Bytes>)
    ensures ReceiptsInOrder(parse, lines, ReceiptsOf(parse, lines))
  {
    if lines != [] {
      var init, last := lines[..|lines| - 1], lines[|lines| - 1];
      ReceiptsOfLines(parse, init);
      OneMoreLine(parse, init, last, ReceiptsOf(parse, init));
      assert init + [last] == lines;
    }
  }

  /** `_to_valid_receipts`: every line is either a receipt or a line error, and order is kept. */
  method ToValidReceipts(parse: LineOracle, received: Bytes) returns (receipts: seq<Receipt>, lineErrors: nat)
    ensures receipts == ReceiptsOf(parse, SplitLines(received))
    ensures ReceiptsInOrder(parse, SplitLines(received), receipts)
    ensures |receipts| + lineErrors == |SplitLines(received)|
  {
    receipts, lineErrors := [], 0;
    var lines := SplitLines(received);
    var i := 0;
    while i < |lines|
      invariant 0 <= i <= |lines| && receipts == ReceiptsOf(parse, lines[..i]) && |receipts| + lineErrors == i
    {
      assert lines[..i + 1][..i] == lines[..i];
      var receipt := parse(lines[i]);
      if receipt.Some? { receipts := receipts + [receipt.value]; } else { lineErrors := lineErrors + 1; }
      i := i + 1;
    }
    assert lines[..i] == lines;
    ReceiptsOfLines(parse, lines);
  }

  class ReceiptsTransfer {
    var checkpoint: nat

    constructor ()
      ensures checkpoint == 0
    {
      checkpoint := 0;
    }

    /** `get_new_receipts_on_page`. None stands for an exception, which leaves the checkpoint alone. */
    method GetNewReceiptsOnPage(parse: LineOracle, server: nat -> Response) returns (r: Option<(seq<Receipt>, nat)>)
      modifies this
      ensures var q := server(old(checkpoint));
        if q.status == 404 || q.status == 416 then r == Some(([], 0)) && checkpoint == old(checkpoint)
        else if (q.status != 200 && q.status != 206) || (0 < old(checkpoint) && q.contentRangeTotal.None?)
        then r.None? && checkpoint == old(checkpoint)
        else
          && checkpoint == (if 0 < old(checkpoint) then q.contentRangeTotal.value else |q.body|)
          && r.Some? && ReceiptsInOrder(parse, SplitLines(q.body), r.value.0)
          && |r.value.0| + r.value.1 == |SplitLines(q.body)|
      ensures checkpoint == Fetch(old(checkpoint), server(old(checkpoint))).0
      ensures var f := Fetch(old(checkpoint), server(old(checkpoint))).1;
        && (r.None? <==> f.Failed?) && (f.Nothing? ==> r == Some(([], 0)))
        && (f.Body? ==> r.Some? && r.value.0 == ReceiptsOf(parse, SplitLines(f.bytes)))
    {
      var useRangeRequest := checkpoint > 0;
      var response := server(checkpoint);
      if response.status == 404 || response.status == 416 { return Some(([], 0)); }
      if response.status != 200 && response.status != 206 { return None; }
      var receipts, lineErrors := ToValidReceipts(parse, response.body);
      if useRangeRequest {
        if response.contentRangeTotal.None? { return None; }
        checkpoint := response.contentRangeTotal.value;
      } else {
        checkpoint := |response.body|;
      }
      r := Some((receipts, lineErrors));
    }
  }

  // ----- tables in which the first receipt of a job wins

  type Table = map<string, Receipt>

  datatype Tables = Tables(accepted: Table, started: Table, finished: Table) {
    function Get(k: Kind): Table {
      match k case JobAccepted => accepted case JobStarted => started case JobFinishedReceipt => finished
    }

    function Set(k: Kind, t: Table): Tables {
      match k
      case JobAccepted => this.(accepted := t)
      case JobStarted => this.(started := t)
      case JobFinishedReceipt => this.(finished := t)
    }
  }

  function InsertOne(t: Table, r: Receipt): Table {
    if r.uuid in t then t else t[r.uuid := r]
  }

  /** `bulk_create(..., ignore_conflicts=True)`. */
  function BulkCreate(t: Table, rs: seq<Receipt>): Table {
    if rs == [] then t else InsertOne(BulkCreate(t, rs[..|rs| - 1]), rs[|rs| - 1])
  }

  /** The simple form: each receipt is inserted into its table as it arrives. */
  function InsertEach(ts: Tables, rs: seq<Receipt>): Tables {
    if rs == [] then ts
    else
      var before, r := InsertEach(ts, rs[..|rs| - 1]), rs[|rs| - 1];
      before.Set(r.kind, InsertOne(before.Get(r.kind), r))
  }

  function OfKind(rs: seq<Receipt>, k: Kind): seq<Receipt> {
    if rs == [] then []
    else
      var init, r := OfKind(rs[..|rs| - 1], k), rs[|rs| - 1];
      if r.kind == k then init + [r] else init
  }

  lemma {:induction false} BulkCreateConcat(t: Table, a: seq<Receipt>, b: seq<Receipt>)
    ensures BulkCreate(t, a + b) == BulkCreate(BulkCreate(t, a), b)
  {
    if b == [] {
      assert a + b == a;
    } else {
      assert (a + b)[..|a + b| - 1] == a + b[..|b| - 1];
      BulkCreateConcat(t, a, b[..|b| - 1]);
    }
  }

  lemma {:induction false} OfKindConcat(a: seq<Receipt>, b: seq<Receipt>, k: Kind)
    ensures OfKind(a + b, k) == OfKind(a, k) + OfKind(b, k)
  {
    if b == [] {
      assert a + b == a;
    } else {
      assert (a + b)[..|a + b| - 1] == a + b[..|b| - 1];
      OfKindConcat(a, b[..|b| - 1], k);
    }
  }

  /** Table by table, arrival order within a kind is all that matters. */
  lemma {:induction false} InsertEachByKind(ts: Tables, rs: seq<Receipt>, k: Kind)
    ensures InsertEach(ts, rs).Get(k) == BulkCreate(ts.Get(k), OfKind(rs, k))
  {
    if rs != [] {
      var init, r := rs[..|rs| - 1], rs[|rs| - 1];
      InsertEachByKind(ts, init, k);
      if r.kind == k {
        assert (OfKind(init, k) + [r])[..|OfKind(init, k)|] == OfKind(init, k);
      }
    }
  }

  lemma InsertEachConcat(ts: Tables, a: seq<Receipt>, b: seq<Receipt>)
    ensures InsertEach(ts, a + b) == InsertEach(InsertEach(ts, a), b)
  {
    var left, right := InsertEach(ts, a + b), InsertEach(InsertEach(ts, a), b);
    forall k
      ensures left.Get(k) == right.Get(k)
    {
      InsertEachByKind(ts, a + b, k);
      InsertEachByKind(ts, a, k);
      InsertEachByKind(InsertEach(ts, a), b, k);
      OfKindConcat(a, b, k);
      BulkCreateConcat(ts.Get(k), OfKind(a, k), OfKind(b, k));
    }
    assert left.accepted == left.Get(JobAccepted) && right.accepted == right.Get(JobAccepted);
    assert left.started == left.Get(JobStarted) && right.started == right.Get(JobStarted);
    assert left.finished == left.Get(JobFinishedReceipt) && right.finished == right.Get(JobFinishedReceipt);
  }

  // ----- what the tables hold, entry by entry

  predicate Concerns(r: Receipt, k: Kind, uuid: string) {
    r.kind == k && r.uuid == uuid
  }

  ghost predicate IsFirst(rs: seq<Receipt>, k: Kind, uuid: string, i: int) {
    0 <= i < |rs| && Concerns(rs[i], k, uuid) && forall j :: 0 <= j < i ==> !Concerns(rs[j], k, uuid)
  }

  /** The entry of one job: what was there stays; otherwise it is the first receipt about the job, if there is one. */
  ghost predicate Entry(before: Table, after: Table, rs: seq<Receipt>, k: Kind, uuid: string) {
    if uuid in before then uuid in after && after[uuid] == before[uuid]
    else if uuid in after then exists i :: IsFirst(rs, k, uuid, i) && after[uuid] == rs[i]
    else forall i :: 0 <= i < |rs| ==> !Concerns(rs[i], k, uuid)
  }

  ghost predicate FirstWins(before: Tables, after: Tables, rs: seq<Receipt>) {
    && (forall uuid :: Entry(before.accepted, after.accepted, rs, JobAccepted, uuid))
    && (forall uuid :: Entry(before.started, after.started, rs, JobStarted, uuid))
    && (forall uuid :: Entry(before.finished, after.finished, rs, JobFinishedReceipt, uuid))
  }

  lemma {:induction false} EntryAfterInserts(ts: Tables, rs: seq<Receipt>, k: Kind, uuid: string)
    ensures Entry(ts.Get(k), InsertEach(ts, rs).Get(k), rs, k, uuid)
  {
    if rs != [] {
      var init, last := rs[..|rs| - 1], rs[|rs| - 1];
      EntryAfterInserts(ts, init, k, uuid);
      assert forall j :: 0 <= j < |init| ==> init[j] == rs[j];
      var before, after := InsertEach(ts, init).Get(k), InsertEach(ts, rs).Get(k);
      assert uuid !in before && Concerns(last, k, uuid) ==> uuid in after && after[uuid] == last;
      assert !(uuid !in before && Concerns(last, k, uuid)) ==> (uuid in after <==> uuid in before);
      if uuid !in ts.Get(k) && uuid in before {
        var i :| IsFirst(init, k, uuid, i) && before[uuid] == init[i];
        assert IsFirst(rs, k, uuid, i);
      } else if uuid !in ts.Get(k) && uuid in after {
        assert IsFirst(rs, k, uuid, |init|);
      }
    }
  }

  /** One by one inserts make the tables in which the first receipt of a job wins. */
  lemma InsertsKeepFirst(ts: Tables, rs: seq<Receipt>)
    ensures FirstWins(ts, InsertEach(ts, rs), rs)
  {
    forall k, uuid
      ensures Entry(ts.Get(k), InsertEach(ts, rs).Get(k), rs, k, uuid)
    {
      EntryAfterInserts(ts, rs, k, uuid);
    }
    var after := InsertEach(ts, rs);
    assert ts.Get(JobAccepted) == ts.accepted && after.Get(JobAccepted) == after.accepted;
    assert ts.Get(JobStarted) == ts.started && after.Get(JobStarted) == after.started;
    assert ts.Get(JobFinishedReceipt) == ts.finished && after.Get(JobFinishedReceipt) == after.finished;
  }

  // ----- storing what the transfer tasks bring, in batches

  const BATCH := 1000

  /** How a transfer task completes. */
  datatype TaskResult = Transferred(receipts: seq<Receipt>, lineErrors: nat) | TransferError

  datatype Summary = Summary(nReceipts: nat, nSuccessful: nat, transferErrors: nat, lineErrors: nat)

  /** Everything received, in order of completion. */
  function Arrived(results: seq<TaskResult>): seq<Receipt> {
    if results == [] then []
    else
      var init, last := Arrived(results[..|results| - 1]), results[|results| - 1];
      if last.Transferred? then init + last.receipts else init
  }

  /** Task after task, in order of completion, failed ones bringing nothing. */
  lemma {:induction false} ArrivedAndErrorsAddUp(a: seq<TaskResult>, b: seq<TaskResult>, receipts: seq<Receipt>, n: nat)
    ensures Arrived(a + b) == Arrived(a) + Arrived(b) && LineErrors(a + b) == LineErrors(a) + LineErrors(b)
    ensures Arrived([Transferred(receipts, n)]) == receipts && LineErrors([Transferred(receipts, n)]) == n
    ensures Arrived([TransferError]) == [] && LineErrors([TransferError]) == 0
  {
    assert [Transferred(receipts, n)][..0] == [] && [TransferError][..0] == [];
    if b == [] {
      assert a + b == a;
    } else {
      assert (a + b)[..|a + b| - 1] == a + b[..|b| - 1];
      ArrivedAndErrorsAddUp(a, b[..|b| - 1], receipts, n);
    }
  }

  /** The b-th receipt of the a-th task to complete is the first about a job. */
  ghost predicate IsFirstIn(results: seq<TaskResult>, k: Kind, uuid: string, a: int, b: int) {
    && 0 <= a < |results| && results[a].Transferred? && IsFirst(results[a].receipts, k, uuid, b)
    && forall c :: 0 <= c < a ==> Silent(results[c], k, uuid)
  }

  ghost predicate Silent(result: TaskResult, k: Kind, uuid: string) {
    result.Transferred? ==> forall b :: 0 <= b < |result.receipts| ==> !Concerns(result.receipts[b], k, uuid)
  }

  ghost predicate TaskEntry(before: Table, after: Table, results: seq<TaskResult>, k: Kind, uuid: string) {
    if uuid in before then uuid in after && after[uuid] == before[uuid]
    else if uuid in after then exists a, b :: IsFirstIn(results, k, uuid, a, b) && after[uuid] == results[a].receipts[b]
    else forall a :: 0 <= a < |results| ==> Silent(results[a], k, uuid)
  }

  /** Every entry is the old one, or else the first receipt about its job to arrive. */
  ghost predicate FirstToArriveWins(before: Tables, after: Tables, results: seq<TaskResult>) {
    && (forall uuid :: TaskEntry(before.accepted, after.accepted, results, JobAccepted, uuid))
    && (forall uuid :: TaskEntry(before.started, after.started, results, JobStarted, uuid))
    && (forall uuid :: TaskEntry(before.finished, after.finished, results, JobFinishedReceipt, uuid))
  }

  lemma {:induction false} FirstArrivedIsFirstIn(results: seq<TaskResult>, k: Kind, uuid: string, i: int)
    returns (a: int, b: int)
    requires IsFirst(Arrived(results), k, uuid, i)
    ensures IsFirstIn(results, k, uuid, a, b) && results[a].receipts[b] == Arrived(results)[i]
  {
    var init, last := results[..|results| - 1], results[|results| - 1];
    if i < |Arrived(init)| {
      assert forall j :: 0 <= j < |Arrived(init)| ==> Arrived(init)[j] == Arrived(results)[j];
      a, b := FirstArrivedIsFirstIn(init, k, uuid, i);
      assert forall c :: 0 <= c < |init| ==> init[c] == results[c];
    } else {
      a, b := |init|, i - |Arrived(init)|;
      assert forall j :: 0 <= j < |Arrived(init)| ==> Arrived(init)[j] == Arrived(results)[j];
      assert forall c :: 0 <= c < |last.receipts| ==> last.receipts[c] == Arrived(results)[|Arrived(init)| + c];
      SilentTasks(init, k, uuid);
      assert forall c :: 0 <= c < |init| ==> init[c] == results[c];
    }
  }

  lemma {:induction false} SilentTasks(results: seq<TaskResult>, k: Kind, uuid: string)
    requires forall i :: 0 <= i < |Arrived(results)| ==> !Concerns(Arrived(results)[i], k, uuid)
    ensures forall a :: 0 <= a < |results| ==> Silent(results[a], k, uuid)
  {
    if results != [] {
      var init, last := results[..|results| - 1], results[|results| - 1];
      assert forall j :: 0 <= j < |Arrived(init)| ==> Arrived(init)[j] == Arrived(results)[j];
      SilentTasks(init, k, uuid);
      if last.Transferred? {
        assert forall c :: 0 <= c < |last.receipts| ==> last.receipts[c] == Arrived(results)[|Arrived(init)| + c];
      }
      assert forall c :: 0 <= c < |init| ==> init[c] == results[c];
    }
  }

  lemma EntryByTask(before: Table, after: Table, results: seq<TaskResult>, k: Kind, uuid: string)
    requires Entry(before, after, Arrived(results), k, uuid)
    ensures TaskEntry(before, after, results, k, uuid)
  {
    if uuid !in before && uuid in after {
      var i :| IsFirst(Arrived(results), k, uuid, i) && after[uuid] == Arrived(results)[i];
      var a, b := FirstArrivedIsFirstIn(results, k, uuid, i);
    } else if uuid !in before {
      SilentTasks(results, k, uuid);
    }
  }

  lemma FirstWinsByTask(before: Tables, results: seq<TaskResult>)
    ensures FirstToArriveWins(before, InsertEach(before, Arrived(results)), results)
  {
    var after := InsertEach(before, Arrived(results));
    InsertsKeepFirst(before, Arrived(results));
    forall uuid
      ensures TaskEntry(before.accepted, after.accepted, results, JobAccepted, uuid)
    {
      assert Entry(before.accepted, after.accepted, Arrived(results), JobAccepted, uuid);
      EntryByTask(before.accepted, after.accepted, results, JobAccepted, uuid);
    }
    forall uuid
      ensures TaskEntry(before.started, after.started, results, JobStarted, uuid)
    {
      assert Entry(before.started, after.started, Arrived(results), JobStarted, uuid);
      EntryByTask(before.started, after.started, results, JobStarted, uuid);
    }
    forall uuid
      ensures TaskEntry(before.finished, after.finished, results, JobFinishedReceipt, uuid)
    {
      assert Entry(before.finished, after.finished, Arrived(results), JobFinishedReceipt, uuid);
      EntryByTask(before.finished, after.finished, results, JobFinishedReceipt, uuid);
    }
  }

  function LineErrors(results: seq<TaskResult>): nat {
    if results == [] then 0
    else
      var last := results[|results| - 1];
      LineErrors(results[..|results| - 1]) + if last.Transferred? then last.lineErrors else 0
  }

  /** `receipts_by_type`: a list per kind, empty until something is put there. */
  datatype Buckets = Buckets(accepted: seq<Receipt>, started: seq<Receipt>, finished: seq<Receipt>) {
    function Get(k: Kind): seq<Receipt> {
      match k case JobAccepted => accepted case JobStarted => started case JobFinishedReceipt => finished
    }

    function Set(k: Kind, b: seq<Receipt>): Buckets {
      match k
      case JobAccepted => this.(accepted := b)
      case JobStarted => this.(started := b)
      case JobFinishedReceipt => this.(finished := b)
    }

    predicate Small() {
      |accepted| < 1000 && |started| < 1000 && |finished| < 1000
    }

    function Held(): nat {
      |accepted| + |started| + |finished|
    }
  }

  /** Flushing the bucket of kind `k` now would leave its table as if each receipt had been inserted on arrival. */
  ghost predicate PendingKind(start: Tables, ts: Tables, buckets: Buckets, received: seq<Receipt>, k: Kind) {
    BulkCreate(ts.Get(k), buckets.Get(k)) == BulkCreate(start.Get(k), OfKind(received, k))
  }

  ghost predicate Pending(start: Tables, ts: Tables, buckets: Buckets, received: seq<Receipt>) {
    && PendingKind(start, ts, buckets, received, JobAccepted)
    && PendingKind(start, ts, buckets, received, JobStarted)
    && PendingKind(start, ts, buckets, received, JobFinishedReceipt)
  }

  function Flushed(ts: Tables, buckets: Buckets, k: Kind): Tables {
    ts.Set(k, BulkCreate(ts.Get(k), buckets.Get(k)))
  }

  lemma FlushKeepsPending(start: Tables, ts: Tables, buckets: Buckets, received: seq<Receipt>, k: Kind)
    requires Pending(start, ts, buckets, received)
    ensures Pending(start, Flushed(ts, buckets, k), buckets.Set(k, []), received)
  {
  }

  lemma AppendKeepsPendingKind(start: Tables, ts: Tables, buckets: Buckets, received: seq<Receipt>, r: Receipt, k: Kind)
    requires PendingKind(start, ts, buckets, received, k)
    ensures PendingKind(start, ts, buckets.Set(r.kind, buckets.Get(r.kind) + [r]), received + [r], k)
  {
    OfKindConcat(received, [r], k);
    assert [r][..0] == [];
    assert OfKind([r], k) == if r.kind == k then [r] else [];
    if r.kind == k {
      BulkCreateConcat(ts.Get(k), buckets.Get(k), [r]);
      BulkCreateConcat(start.Get(k), OfKind(received, k), [r]);
    } else {
      assert OfKind(received, k) + [] == OfKind(received, k);
    }
  }

  /** The buckets with one receipt more. */
  function With(buckets: Buckets, r: Receipt): Buckets {
    buckets.Set(r.kind, buckets.Get(r.kind) + [r])
  }

  lemma AppendKeepsPending(start: Tables, ts: Tables, buckets: Buckets, received: seq<Receipt>, r: Receipt)
    requires Pending(start, ts, buckets, received)
    ensures Pending(start, ts, With(buckets, r), received + [r])
  {
    AppendKeepsPendingKind(start, ts, buckets, received, r, JobAccepted);
    AppendKeepsPendingKind(start, ts, buckets, received, r, JobStarted);
    AppendKeepsPendingKind(start, ts, buckets, received, r, JobFinishedReceipt);
  }

  lemma OneMoreHeld(buckets: Buckets, r: Receipt)
    requires buckets.Small()
    ensures var k := r.kind;
      var more := buckets.Set(k, buckets.Get(k) + [r]);
      && more.Held() == buckets.Held() + 1 && |more.Get(k)| <= 1000
      && (|more.Get(k)| < 1000 ==> more.Small()) && more.Set(k, []).Small()
  {
  }

  lemma AllFlushed(start: Tables, ts: Tables, buckets: Buckets, received: seq<Receipt>)
    requires Pending(start, ts, buckets, received) && buckets == Buckets([], [], [])
    ensures ts == InsertEach(start, received)
  {
    var each := InsertEach(start, received);
    InsertEachByKind(start, received, JobAccepted);
    InsertEachByKind(start, received, JobStarted);
    InsertEachByKind(start, received, JobFinishedReceipt);
    assert ts.accepted == each.Get(JobAccepted) && ts.started == each.Get(JobStarted);
    assert ts.finished == each.Get(JobFinishedReceipt);
  }

  /** `after` adds only full bulk inserts to `before`. */
  ghost predicate FullBulks(before: seq<nat>, after: seq<nat>) {
    before <= after && forall i :: |before| <= i < |after| ==> after[i] == 1000
  }

  class Database {
    var tables: Tables
    /** How many receipts each bulk insert was given. */
    ghost var bulks: seq<nat>

    /** Put one receipt into its bucket; a bucket that fills up is written out and emptied. */
    method Place(receipt: Receipt, buckets: Buckets, total: nat, ghost start: Tables, ghost received: seq<Receipt>)
      returns (buckets': Buckets, total': nat)
      requires Pending(start, tables, buckets, received) && total + buckets.Held() == |received| && buckets.Small()
      modifies this
      ensures Pending(start, tables, buckets', received + [receipt]) && total' + buckets'.Held() == |received| + 1
      ensures buckets'.Small() && (bulks == old(bulks) || bulks == old(bulks) + [1000])
    {
      AppendKeepsPending(start, tables, buckets, received, receipt);
      FlushKeepsPending(start, tables, With(buckets, receipt), received + [receipt], receipt.kind);
      buckets', total' := Put(receipt, buckets, total);
    }

    method Put(receipt: Receipt, buckets: Buckets, total: nat) returns (buckets': Buckets, total': nat)
      requires buckets.Small()
      modifies this
      ensures total' + buckets'.Held() == total + buckets.Held() + 1
      ensures buckets'.Small() && (bulks == old(bulks) || bulks == old(bulks) + [1000])
      ensures (tables == old(tables) && buckets' == With(buckets, receipt))
        || (tables == Flushed(old(tables), With(buckets, receipt), receipt.kind)
            && buckets' == With(buckets, receipt).Set(receipt.kind, []))
    {
      OneMoreHeld(buckets, receipt);
      total' := total;
      buckets' := buckets.Set(receipt.kind, buckets.Get(receipt.kind) + [receipt]);
      if |buckets'.Get(receipt.kind)| >= BATCH {
        buckets', total' := Write(receipt.kind, buckets', total');
      }
    }

    method Write(k: Kind, buckets: Buckets, total: nat) returns (buckets': Buckets, total': nat)
      modifies this
      ensures buckets' == buckets.Set(k, []) && total' + buckets'.Held() == total + buckets.Held()
      ensures tables == Flushed(old(tables), buckets, k) && bulks == old(bulks) + [|buckets.Get(k)|]
    {
      bulks := bulks + [|buckets.Get(k)|];
      tables := tables.Set(k, BulkCreate(tables.Get(k), buckets.Get(k)));
      total' := total + |buckets.Get(k)|;
      buckets' := buckets.Set(k, []);
    }

    method Flush(k: Kind, buckets: Buckets, total: nat, ghost start: Tables, ghost received: seq<Receipt>)
      returns (buckets': Buckets, total': nat)
      requires Pending(start, tables, buckets, received)
      modifies this
      ensures buckets' == buckets.Set(k, []) && total' + buckets'.Held() == total + buckets.Held()
      ensures tables == Flushed(old(tables), buckets, k) && Pending(start, tables, buckets', received)
      ensures bulks == old(bulks) + [|buckets.Get(k)|]
    {
      FlushKeepsPending(start, tables, buckets, received, k);
      buckets', total' := Write(k, buckets, total);
    }

    /** The remainder of each bucket. */
    method FlushRest(buckets: Buckets, total: nat, ghost start: Tables, ghost received: seq<Receipt>)
      returns (total': nat)
      requires Pending(start, tables, buckets, received) && total + buckets.Held() == |received|
      modifies this
      ensures tables == InsertEach(start, received) && total' == |received|
      ensures bulks == old(bulks) + [|buckets.accepted|, |buckets.started|, |buckets.finished|]
    {
      var rest;
      rest, total' := Flush(JobAccepted, buckets, total, start, received);
      rest, total' := Flush(JobStarted, rest, total', start, received);
      rest, total' := Flush(JobFinishedReceipt, rest, total', start, received);
      AllFlushed(start, tables, rest, received);
    }

    /** One completed task's receipts, one by one. */
    method Absorb(receipts: seq<Receipt>, buckets: Buckets, total: nat, ghost start: Tables,
                  ghost received: seq<Receipt>)
      returns (buckets': Buckets, total': nat)
      requires Pending(start, tables, buckets, received) && total + buckets.Held() == |received| && buckets.Small()
      modifies this
      ensures Pending(start, tables, buckets', received + receipts) && total' + buckets'.Held() == |received + receipts|
      ensures buckets'.Small() && FullBulks(old(bulks), bulks)
    {
      buckets', total' := buckets, total;
      var i := 0;
      assert received + receipts[..0] == received;
      while i < |receipts|
        invariant 0 <= i <= |receipts| && Pending(start, tables, buckets', received + receipts[..i])
        invariant total' + buckets'.Held() == |received + receipts[..i]|
        invariant buckets'.Small() && FullBulks(old(bulks), bulks)
      {
        assert received + receipts[..i + 1] == (received + receipts[..i]) + [receipts[i]];
        buckets', total' := Place(receipts[i], buckets', total', start, received + receipts[..i]);
        i := i + 1;
      }
      assert receipts[..i] == receipts;
    }

    /** `transfer`, for every order in which its tasks complete: the tables end up as if every receipt had been
        inserted on its own, on arrival; every received receipt is counted; every task is accounted for; and all
        bulk inserts but the last three, one for the rest of each kind, are of 1000 receipts. */
    method Transfer(results: seq<TaskResult>) returns (summary: Summary)
      modifies this
      ensures tables == InsertEach(old(tables), Arrived(results))
      ensures FirstToArriveWins(old(tables), tables, results)
      ensures summary.nReceipts == |Arrived(results)|
      ensures summary.nSuccessful + summary.transferErrors == |results|
      ensures summary.lineErrors == LineErrors(results)
      ensures |bulks| >= 3 && FullBulks(old(bulks), bulks[..|bulks| - 3])
      ensures forall i :: |bulks| - 3 <= i < |bulks| ==> bulks[i] < 1000
    {
      ghost var start := tables;
      var buckets := Buckets([], [], []);
      var total: nat, successful: nat, errors: nat, lineErrors: nat := 0, 0, 0, 0;
      var i := 0;
      while i < |results|
        invariant 0 <= i <= |results| && successful + errors == i && lineErrors == LineErrors(results[..i])
        invariant Pending(start, tables, buckets, Arrived(results[..i]))
        invariant total + buckets.Held() == |Arrived(results[..i])|
        invariant buckets.Small() && FullBulks(old(bulks), bulks)
      {
        assert results[..i + 1][..i] == results[..i];
        if results[i].Transferred? {
          lineErrors := lineErrors + results[i].lineErrors;
          successful := successful + 1;
          buckets, total := Absorb(results[i].receipts, buckets, total, start, Arrived(results[..i]));
        } else {
          errors := errors + 1;
        }
        i := i + 1;
      }
      assert results[..i] == results;
      total := FlushRest(buckets, total, start, Arrived(results));
      FirstWinsByTask(start, results);
      summary := Summary(total, successful, errors, lineErrors);
    }
  }
}
