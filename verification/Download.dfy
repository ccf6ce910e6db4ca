/** The resumable download loop `download_get`
    (compute_horde_sdk/src/compute_horde_core/volume/_downloader.py). The resource is fixed and the server
    answers range requests as sections 14.4, 15.3.7 and 15.5.17 of RFC 9110 prescribe, but it may refuse to
    resume, cut any transfer short and fail in any other way. Local writes succeed. */
module Download {
  import opened Messages
  import opened Octets

  /** An open file: writing replaces what lies at the position and extends the file if need be. */
  class File {
    var content: Bytes
    var pos: nat

    ghost predicate Valid()
      reads this
    {
      pos <= |content|
    }

    constructor ()
      ensures Valid() && content == [] && pos == 0
    {
      content, pos := [], 0;
    }

    /** `seek(0)`: nothing is truncated. */
    method Rewind()
      modifies this`pos
      ensures pos == 0
    {
      pos := 0;
    }

    method Write(chunk: Bytes)
      requires Valid()
      modifies this
      ensures Valid() && pos == old(pos) + |chunk|
      ensures content == Overwritten(old(content), old(pos), chunk)
    {
      content := content[..pos] + chunk + if pos + |chunk| < |content| then content[pos + |chunk|..] else [];
      pos := pos + |chunk|;
    }
  }

  ghost function Overwritten(content: Bytes, pos: nat, chunk: Bytes): Bytes
    requires pos <= |content|
  {
    content[..pos] + chunk + if pos + |chunk| < |content| then content[pos + |chunk|..] else []
  }

  /** Writing what belongs there keeps a prefix of the resource a prefix, and never shortens it. */
  lemma OverwriteKeepsPrefix(resource: Bytes, content: Bytes, pos: nat, chunk: Bytes)
    requires content <= resource && pos <= |content| && chunk <= resource[pos..]
    ensures Overwritten(content, pos, chunk) <= resource
    ensures |Overwritten(content, pos, chunk)| == if pos + |chunk| < |content| then |content| else pos + |chunk|
  {
    var after := Overwritten(content, pos, chunk);
    forall i | 0 <= i < |after|
      ensures after[i] == resource[i]
    {
      if pos <= i < pos + |chunk| { assert chunk[i - pos] == resource[pos..][i - pos]; }
    }
  }

  /** `Broken` is an error raised while connecting; otherwise the status line is in, the body arrives in
      chunks, and then ends or breaks off. */
  datatype Response =
    | Broken
    | Answer(code: nat, contentLength: Option<int>, chunks: seq<Bytes>, complete: bool)

  function Flatten(chunks: seq<Bytes>): Bytes {
    if chunks == [] then [] else Flatten(chunks[..|chunks| - 1]) + chunks[|chunks| - 1]
  }

  lemma {:induction false} FlattenPrefix(chunks: seq<Bytes>, i: nat)
    requires i <= |chunks|
    ensures Flatten(chunks[..i]) <= Flatten(chunks)
  {
    if i == |chunks| {
      assert chunks[..i] == chunks;
    } else {
      FlattenPrefix(chunks[..|chunks| - 1], i);
      assert chunks[..|chunks| - 1][..i] == chunks[..i];
    }
  }

  predicate Success(code: nat) {
    200 <= code < 300
  }

  /** What a conforming server may answer when asked for the resource from byte `from` on (0: no Range
      header). Whole bodies and announced lengths are right; 416 is only for ranges. */
  predicate Conforms(resource: Bytes, from: nat, r: Response) {
    r.Answer? ==>
      if from == 0 then
        && r.code != 416
        && (Success(r.code) ==>
              && Flatten(r.chunks) <= resource && (r.complete ==> Flatten(r.chunks) == resource)
              && (r.contentLength.Some? ==> r.contentLength.value == |resource|))
      else
        r.code == 206 ==>
          && from < |resource|
          && Flatten(r.chunks) <= resource[from..] && (r.complete ==> Flatten(r.chunks) == resource[from..])
  }

  ghost predicate Conforming(resource: Bytes, server: (nat, nat) -> Response) {
    forall n, from :: Conforms(resource, from, server(n, from))
  }

  datatype Outcome = Downloaded | TooLarge | ConnectionError | LastErrorRaised | NoRetriesAllowed

  function Pow2(n: nat): nat {
    if n == 0 then 1 else 2 * Pow2(n - 1)
  }

  function Pow4(n: nat): nat {
    if n == 0 then 1 else 4 * Pow4(n - 1)
  }

  /** Backoff before jitter, with a factor that itself doubles at every retry. */
  function Backoff(factor: int, retries: nat): int {
    factor * Pow2(retries)
  }

  lemma {:induction false} BackoffIsPow4(n: nat)
    ensures Backoff(Pow2(n), n) == Pow4(n)
  {
    if n > 0 {
      BackoffIsPow4(n - 1);
      var p := Pow2(n - 1);
      assert (2 * p) * (2 * p) == 4 * (p * p);
    }
  }

  /** The body of a successful answer, chunk by chunk. */
  method Receive(fp: File, r: Response, from: nat, maxSize: int, ghost resource: Bytes)
    returns (received: nat, tooLarge: bool)
    requires fp.Valid() && r.Answer? && fp.pos == from && fp.content <= resource
    requires Flatten(r.chunks) <= resource[from..] && (r.complete ==> Flatten(r.chunks) == resource[from..])
    requires 0 < maxSize ==> |fp.content| <= maxSize
    modifies fp
    ensures fp.Valid() && fp.content <= resource && |old(fp.content)| <= |fp.content|
    ensures 0 < maxSize ==> |fp.content| <= maxSize
    ensures tooLarge <==> 0 < maxSize < from + |Flatten(r.chunks)|
    ensures !tooLarge ==> fp.pos == received == from + |Flatten(r.chunks)| && (r.complete ==> fp.content == resource)
  {
    received, tooLarge := from, false;
    var i := 0;
    while i < |r.chunks|
      invariant 0 <= i <= |r.chunks| && fp.Valid() && fp.content <= resource
      invariant fp.pos == received == from + |Flatten(r.chunks[..i])|
      invariant |old(fp.content)| <= |fp.content| && (0 < maxSize ==> |fp.content| <= maxSize)
    {
      var chunk := r.chunks[i];
      assert r.chunks[..i + 1][..i] == r.chunks[..i];
      assert Flatten(r.chunks[..i + 1]) == Flatten(r.chunks[..i]) + chunk;
      FlattenPrefix(r.chunks, i + 1);
      ChunkFits(resource, from, Flatten(r.chunks[..i]), chunk, Flatten(r.chunks));
      received := received + |chunk|;
      if 0 < maxSize < received {
        tooLarge := true;
        return;
      }
      OverwriteKeepsPrefix(resource, fp.content, fp.pos, chunk);
      fp.Write(chunk);
      i := i + 1;
    }
    assert r.chunks[..i] == r.chunks;
  }

  lemma ChunkFits(resource: Bytes, from: nat, before: Bytes, chunk: Bytes, all: Bytes)
    requires from <= |resource| && all <= resource[from..] && before + chunk <= all
    ensures from + |before| + |chunk| <= |resource| && chunk <= resource[from + |before|..]
  {
    var tail := resource[from..];
    assert before + chunk <= tail;
    forall i | 0 <= i < |chunk|
      ensures chunk[i] == resource[from + |before| + i]
    {
      assert chunk[i] == (before + chunk)[|before| + i] == tail[|before| + i];
    }
  }

  /** What one request leads to. */
  datatype Verdict = Restart | Retry | Over(outcome: Outcome)

  /** The announced length is checked before the status is: an error page may trip the cap. */
  predicate Oversized(r: Response, maxSize: int) {
    r.Answer? && r.contentLength.Some? && 0 < maxSize < r.contentLength.value
  }

  /** The resource does not exceed the cap, if there is one. */
  predicate Fits(resource: Bytes, maxSize: int) {
    !(0 < maxSize < |resource|)
  }

  predicate Whole(r: Response) {
    r.Answer? && Success(r.code) && r.complete
  }

  // ----- what an answer to a request from byte `from` means

  /** The range was refused, or the whole resource came instead. */
  predicate StartsOver(from: nat, r: Response) {
    r.Answer? && (r.code == 416 || (0 < from && r.code != 206))
  }

  /** Too much was announced, or came. */
  predicate TooBig(from: nat, r: Response, maxSize: int) {
    && r.Answer? && !StartsOver(from, r)
    && ((from == 0 && Oversized(r, maxSize)) || (Success(r.code) && 0 < maxSize < from + |Flatten(r.chunks)|))
  }

  /** All the rest came. */
  predicate Completes(from: nat, r: Response, maxSize: int) {
    r.Answer? && !StartsOver(from, r) && !TooBig(from, r, maxSize) && Success(r.code) && r.complete
  }

  /** An error status, or a body that broke off. */
  predicate Fails(from: nat, r: Response, maxSize: int) {
    r.Answer? && !StartsOver(from, r) && !TooBig(from, r, maxSize) && !(Success(r.code) && r.complete)
  }

  /** Where the next request starts: after all bytes received so far, unless it starts over. */
  function Reached(from: nat, r: Response): nat
    requires r.Answer?
  {
    if StartsOver(from, r) then 0 else if Success(r.code) then from + |Flatten(r.chunks)| else from
  }

  method HandleResponse(fp: File, response: Response, from: nat, maxSize: int, ghost resource: Bytes)
    returns (received: nat, verdict: Verdict)
    requires fp.Valid() && fp.pos == from && fp.content <= resource && Conforms(resource, from, response)
    requires 0 < maxSize ==> |fp.content| <= maxSize
    modifies fp
    ensures fp.Valid() && fp.content <= resource && (0 < maxSize ==> |fp.content| <= maxSize)
    ensures verdict.Over? ==> !verdict.outcome.LastErrorRaised? && !verdict.outcome.NoRetriesAllowed?
    ensures verdict == Over(ConnectionError) <==> response.Broken?
    ensures verdict == Restart <==> StartsOver(from, response)
    ensures verdict == Over(TooLarge) <==> TooBig(from, response, maxSize)
    ensures verdict == Over(Downloaded) <==> Completes(from, response, maxSize)
    ensures verdict == Retry <==> Fails(from, response, maxSize)
    ensures !verdict.Over? ==> fp.pos == received == Reached(from, response)
    ensures verdict == Over(Downloaded) ==> fp.content == resource
  {
    received := from;
    if response.Broken? { return received, Over(ConnectionError); }
    if response.code == 416 || (response.code != 206 && received > 0) {
      fp.Rewind();
      return 0, Restart;
    }
    if received == 0 && response.contentLength.Some? {
      if 0 < maxSize < response.contentLength.value { return received, Over(TooLarge); }
    }
    if !Success(response.code) { return received, Retry; }
    assert resource[0..] == resource;
    var tooLarge;
    received, tooLarge := Receive(fp, response, received, maxSize, resource);
    verdict := if tooLarge then Over(TooLarge) else if response.complete then Over(Downloaded) else Retry;
  }

  // ----- the whole call

  /** How many of the first requests failed. */
  function Failed(server: (nat, nat) -> Response, maxSize: int, froms: seq<nat>): nat {
    if froms == [] then 0
    else
      var n := |froms| - 1;
      Failed(server, maxSize, froms[..n]) + if Fails(froms[n], server(n, froms[n]), maxSize) then 1 else 0
  }

  /** Requests that started where `froms` says all failed or started over, each began where the one before had got
      to, and the next one begins at `next`. */
  ghost predicate Unfinished(server: (nat, nat) -> Response, maxSize: int, froms: seq<nat>, next: nat) {
    if froms == [] then next == 0
    else
      var n := |froms| - 1;
      var from, r := froms[n], server(n, froms[n]);
      && (StartsOver(from, r) || Fails(from, r, maxSize)) && next == Reached(from, r)
      && Unfinished(server, maxSize, froms[..n], from)
  }

  /** The call, request by request: every request but the last left things unfinished; the last one decided the
      outcome, or was the failure that used up the retries; and each failure but that one was followed by a pause. */
  ghost predicate Ran(server: (nat, nat) -> Response, maxSize: int, maxRetries: int,
                      outcome: Outcome, froms: seq<nat>, pauses: seq<int>)
  {
    if maxRetries <= 0 then outcome.NoRetriesAllowed? && froms == [] && pauses == []
    else
      && froms != []
      && var n := |froms| - 1;
         var from, r := froms[n], server(n, froms[n]);
         var failed := Failed(server, maxSize, froms[..n]);
         && Unfinished(server, maxSize, froms[..n], from) && |pauses| == failed < maxRetries
         && if r.Broken? then outcome.ConnectionError?
            else if TooBig(from, r, maxSize) then outcome.TooLarge?
            else if Completes(from, r, maxSize) then outcome.Downloaded?
            else Fails(from, r, maxSize) && failed == maxRetries - 1 && outcome.LastErrorRaised?
  }

  lemma OneMoreRequest(server: (nat, nat) -> Response, maxSize: int, froms: seq<nat>, from: nat)
    requires Unfinished(server, maxSize, froms, from)
    ensures var r := server(|froms|, from);
      && (froms + [from])[..|froms|] == froms
      && (StartsOver(from, r) || Fails(from, r, maxSize) ==> Unfinished(server, maxSize, froms + [from], Reached(from, r)))
      && Failed(server, maxSize, froms + [from]) ==
           Failed(server, maxSize, froms) + if Fails(from, r, maxSize) then 1 else 0
  {
    assert (froms + [from])[..|froms|] == froms;
  }

  /** The last request decides, or is the failure that uses up the retries. */
  lemma LastRequest(server: (nat, nat) -> Response, maxSize: int, maxRetries: int,
                    outcome: Outcome, froms: seq<nat>, from: nat, pauses: seq<int>)
    requires Unfinished(server, maxSize, froms, from) && |pauses| == Failed(server, maxSize, froms) < maxRetries
    requires var r := server(|froms|, from);
      || (r.Broken? && outcome.ConnectionError?)
      || (TooBig(from, r, maxSize) && outcome.TooLarge?)
      || (Completes(from, r, maxSize) && outcome.Downloaded?)
      || (Fails(from, r, maxSize) && |pauses| == maxRetries - 1 && outcome.LastErrorRaised?)
    ensures Ran(server, maxSize, maxRetries, outcome, froms + [from], pauses)
  {
    assert (froms + [from])[..|froms|] == froms;
  }

  /** Each pause is four times the one before. */
  ghost predicate Quadruples(pauses: seq<int>) {
    && (pauses != [] ==> pauses[0] == 1)
    && forall i, j :: 0 <= i < |pauses| && j == i + 1 < |pauses| ==> pauses[j] == 4 * pauses[i]
  }

  lemma LongerPauses(pauses: seq<int>, pause: int)
    requires Quadruples(pauses) && pause == if pauses == [] then 1 else 4 * pauses[|pauses| - 1]
    ensures Quadruples(pauses + [pause])
  {
  }

  lemma OneMorePause(pauses: seq<int>)
    requires Quadruples(pauses) && (pauses != [] ==> pauses[|pauses| - 1] == Pow4(|pauses| - 1))
    ensures Quadruples(pauses + [Backoff(Pow2(|pauses|), |pauses|)])
    ensures Backoff(Pow2(|pauses|), |pauses|) == Pow4(|pauses|)
  {
    BackoffIsPow4(|pauses|);
    LongerPauses(pauses, Pow4(|pauses|));
  }

  /** Restarts are free, but each needs a failure of its own before it. */
  lemma {:induction false} FewRestarts(server: (nat, nat) -> Response, maxSize: int, froms: seq<nat>, next: nat)
    requires Unfinished(server, maxSize, froms, next)
    requires forall n :: server(n, 0).Answer? ==> server(n, 0).code != 416
    ensures |froms| + (if next > 0 then 1 else 0) <= 2 * Failed(server, maxSize, froms)
  {
    if froms != [] { FewRestarts(server, maxSize, froms[..|froms| - 1], froms[|froms| - 1]); }
  }

  lemma RequestsBounded(server: (nat, nat) -> Response, maxSize: int, maxRetries: int,
                        outcome: Outcome, froms: seq<nat>, pauses: seq<int>, resource: Bytes)
    requires Ran(server, maxSize, maxRetries, outcome, froms, pauses) && Conforming(resource, server)
    ensures |froms| <= if maxRetries <= 0 then 0 else 2 * maxRetries - 1
  {
    if 0 < maxRetries {
      var n := |froms| - 1;
      assert forall k :: Conforms(resource, 0, server(k, 0));
      FewRestarts(server, maxSize, froms[..n], froms[n]);
    }
  }

  /** Against every conforming server: the file is always a prefix of the resource, also after a restart that seeks
      without truncating; a normal return means it is the resource; a positive cap is never exceeded; `Ran` says
      what happened, request by request, the k-th of which starts at `froms[k]`; pauses quadruple (before jitter). */
  method DownloadGet(fp: File, server: (nat, nat) -> Response, maxSize: int, maxRetries: int, ghost resource: Bytes)
    returns (outcome: Outcome, froms: seq<nat>, pauses: seq<int>)
    requires fp.Valid() && fp.content == [] && fp.pos == 0 && Conforming(resource, server)
    modifies fp
    ensures fp.content <= resource
    ensures outcome.Downloaded? ==> fp.content == resource
    ensures 0 < maxSize ==> |fp.content| <= maxSize
    ensures Ran(server, maxSize, maxRetries, outcome, froms, pauses)
    ensures Quadruples(pauses)
  {
    froms, pauses := [], [];
    var retries, received, backoffFactor := 0, 0, 1;
    while retries < maxRetries
      invariant 0 <= retries && (if 0 < maxRetries then retries < maxRetries else froms == []) && |pauses| == retries
      invariant fp.Valid() && fp.pos == received && fp.content <= resource
      invariant 0 < maxSize ==> |fp.content| <= maxSize
      invariant Unfinished(server, maxSize, froms, received) && retries == Failed(server, maxSize, froms)
      invariant backoffFactor == Pow2(retries)
      invariant Quadruples(pauses) && (pauses != [] ==> pauses[|pauses| - 1] == Pow4(|pauses| - 1))
      decreases maxRetries - retries, if received > 0 then 1 else 0
    {
      var from := received;
      var response := server(|froms|, from);
      assert Conforms(resource, from, response);
      var verdict;
      received, verdict := HandleResponse(fp, response, from, maxSize, resource);
      OneMoreRequest(server, maxSize, froms, from);
      if verdict.Over? {
        outcome := verdict.outcome;
        LastRequest(server, maxSize, maxRetries, outcome, froms, from, pauses);
        froms := froms + [from];
        return;
      }
      ghost var before := froms;
      froms := froms + [from];
      if verdict.Restart? { continue; }
      retries := retries + 1;
      if retries >= maxRetries {
        outcome := LastErrorRaised;
        LastRequest(server, maxSize, maxRetries, outcome, before, from, pauses);
        return;
      }
      OneMorePause(pauses);
      pauses := pauses + [Backoff(backoffFactor, retries - 1)];
      backoffFactor := backoffFactor * 2;
    }
    outcome := NoRetriesAllowed;
  }

  /** The first request starts at the beginning, and if its answer settles the matter, it is the only one. */
  lemma {:induction false} FirstRequest(server: (nat, nat) -> Response, maxSize: int, froms: seq<nat>, next: nat)
    requires Unfinished(server, maxSize, froms, next)
    ensures if froms == [] then next == 0
      else froms[0] == 0 && (StartsOver(0, server(0, 0)) || Fails(0, server(0, 0), maxSize))
  {
    if |froms| > 1 { FirstRequest(server, maxSize, froms[..|froms| - 1], froms[|froms| - 1]); }
  }

  /** A whole answer to the first request is taken at once, and so is an announcement of too much. */
  lemma FirstAnswerDecides(server: (nat, nat) -> Response, maxSize: int, maxRetries: int,
                           outcome: Outcome, froms: seq<nat>, pauses: seq<int>, resource: Bytes)
    requires Ran(server, maxSize, maxRetries, outcome, froms, pauses) && 0 < maxRetries
    requires Conforms(resource, 0, server(0, 0))
    ensures Oversized(server(0, 0), maxSize) ==> outcome.TooLarge? && froms == [0]
    ensures Whole(server(0, 0)) && Fits(resource, maxSize) ==> outcome.Downloaded? && froms == [0]
  {
    var n := |froms| - 1;
    FirstRequest(server, maxSize, froms[..n], froms[n]);
  }

  /** A resource that fits is called too large exactly if the last request was from the beginning and the answer
      announced too much - which then was an error page; if the server always answers such requests alike, exactly
      if its first answer announced too much. */
  lemma TooLargeExactly(server: (nat, nat) -> Response, maxSize: int, maxRetries: int,
                        outcome: Outcome, froms: seq<nat>, pauses: seq<int>, resource: Bytes)
    requires Ran(server, maxSize, maxRetries, outcome, froms, pauses)
    requires Conforming(resource, server) && Fits(resource, maxSize)
    ensures outcome.TooLarge? <==>
      froms != [] && froms[|froms| - 1] == 0 && Oversized(server(|froms| - 1, 0), maxSize)
    ensures outcome.TooLarge? ==> !Success(server(|froms| - 1, 0).code)
    ensures (forall n :: server(n, 0) == server(0, 0)) ==>
      (outcome.TooLarge? <==> 0 < maxRetries && Oversized(server(0, 0), maxSize))
  {
    if 0 < maxRetries {
      var n := |froms| - 1;
      assert Conforms(resource, froms[n], server(n, froms[n]));
      assert Conforms(resource, 0, server(0, 0));
      FirstAnswerDecides(server, maxSize, maxRetries, outcome, froms, pauses, resource);
    }
  }

  /** Resumption: when the first answer breaks off and the server delivers the rest, two requests are enough. */
  lemma ResumesAfterBreak(server: (nat, nat) -> Response, maxSize: int, maxRetries: int,
                          outcome: Outcome, froms: seq<nat>, pauses: seq<int>, resource: Bytes, b: nat)
    requires Ran(server, maxSize, maxRetries, outcome, froms, pauses) && 2 <= maxRetries
    requires Conforms(resource, 0, server(0, 0)) && Conforms(resource, b, server(1, b)) && Fits(resource, maxSize)
    requires server(0, 0).Answer? && Success(server(0, 0).code) && !server(0, 0).complete
    requires b == |Flatten(server(0, 0).chunks)| > 0
    requires server(1, b).Answer? && server(1, b).code == 206 && server(1, b).complete
    ensures outcome.Downloaded? && froms == [0, b]
  {
    var n := |froms| - 1;
    FirstRequest(server, maxSize, froms[..n], froms[n]);
    assert Fails(0, server(0, 0), maxSize);
    assert Completes(b, server(1, b), maxSize);
    if n > 0 { SecondRequest(server, maxSize, froms[..n], froms[n], b); }
  }

  lemma {:induction false} SecondRequest(server: (nat, nat) -> Response, maxSize: int, froms: seq<nat>, next: nat, b: nat)
    requires Unfinished(server, maxSize, froms, next) && froms != []
    requires server(0, 0).Answer? && Reached(0, server(0, 0)) == b && Completes(b, server(1, b), maxSize)
    ensures froms == [0] && next == b
  {
    if |froms| > 1 {
      SecondRequest(server, maxSize, froms[..|froms| - 1], froms[|froms| - 1], b);
    } else {
      assert froms[..0] == [];
    }
  }

  /** A three-byte resource under a cap of five, behind a server that first answers with a long error page:
      the download is refused as too large. */
  method ErrorPageTripsTheCap() returns (outcome: Outcome)
    ensures outcome == TooLarge
  {
    var resource: Bytes := [1, 2, 3];
    var server := (n: nat, from: nat) =>
      if n == 0 then Answer(500, Some(9), [], true) else Answer(404, None, [], true);
    var fp := new File();
    var froms, pauses;
    outcome, froms, pauses := DownloadGet(fp, server, 5, 3, resource);
    FirstAnswerDecides(server, 5, 3, outcome, froms, pauses, resource);
  }
}
