/** Packing sampled prompts into workloads: `create_sample_workloads`
    (validator/app/src/compute_horde_validator/validator/tasks.py). S3, the database and the random
    choices are given as oracles. */
module Packer {
  import opened Arithmetic
  import opened Messages

  /** `lines` is None when the download fails; `sampled` is what `random.sample` would pick. */
  datatype Series = Series(lines: Option<seq<string>>, sampled: seq<string>)

  datatype Sample = Sample(series: nat, workload: nat)

  /** What is handed to `persist_workload`. Workloads are numbered by the call of `init_workload` that made them. */
  datatype Workload = Workload(id: nat, samples: seq<Sample>, prompts: seq<string>)

  predicate Usable(s: Series, perSample: int) {
    s.lines.Some? && |s.lines.value| > perSample
  }

  /** `random.sample`: as many lines as asked for, none taken more often than it occurs. */
  ghost predicate Sampled(series: seq<Series>, perSample: int) {
    forall i :: 0 <= i < |series| && Usable(series[i], perSample) ==> SampleOf(series[i], perSample)
  }

  ghost predicate SampleOf(s: Series, perSample: int)
    requires s.lines.Some?
  {
    |s.sampled| == perSample && multiset(s.sampled) <= multiset(s.lines.value)
  }

  function UsableCount(series: seq<Series>, perSample: int): nat {
    if series == [] then 0
    else UsableCount(series[..|series| - 1], perSample) + if Usable(series[|series| - 1], perSample) then 1 else 0
  }

  /** A series is usable if it has more lines than are to be sampled. */
  lemma {:induction false} UsableCountIsCardinality(series: seq<Series>, perSample: int)
    ensures UsableCount(series, perSample) ==
      |set i: nat | i < |series| && series[i].lines.Some? && |series[i].lines.value| > perSample|
  {
    var those := set i: nat | i < |series| && series[i].lines.Some? && |series[i].lines.value| > perSample;
    if series == [] {
      assert those == {};
    } else {
      var n := |series| - 1;
      UsableCountIsCardinality(series[..n], perSample);
      var before := set i: nat | i < n && series[..n][i].lines.Some? && |series[..n][i].lines.value| > perSample;
      assert those == if Usable(series[n], perSample) then before + {n} else before;
    }
  }

  lemma {:induction false} SuccessesIsCardinality(uploadOk: nat -> bool, n: nat)
    ensures Successes(uploadOk, n) == |set i: nat | i < n && uploadOk(i)|
  {
    var those := set i: nat | i < n && uploadOk(i);
    if n == 0 {
      assert those == {};
    } else {
      SuccessesIsCardinality(uploadOk, n - 1);
      var before := set i: nat | i < n - 1 && uploadOk(i);
      assert those == if uploadOk(n - 1) then before + {n - 1} else before;
    }
  }

  /** How many of the first n uploads succeed. */
  function Successes(uploadOk: nat -> bool, n: nat): nat {
    if n == 0 then 0 else Successes(uploadOk, n - 1) + if uploadOk(n - 1) then 1 else 0
  }

  function CeilDiv(a: int, m: int): int
    requires 0 < m
  {
    (a + m - 1) / m
  }

  /** `c` full portions reach `a` exactly from the ceiling on. */
  lemma CeilDivReached(a: int, m: int, c: int)
    requires 0 < m
    ensures a <= c * m <==> CeilDiv(a, m) <= c
  {
    var q := CeilDiv(a, m);
    assert a + m - 1 == q * m + (a + m - 1) % m;
    assert (c - q) * m == c * m - q * m;
    MulSign(c - q, m);
  }

  /** n * m by addition, as the loop accumulates it. */
  ghost function Times(n: nat, m: int): int {
    if n == 0 then 0 else Times(n - 1, m) + m
  }

  lemma {:induction false} TimesIsProduct(n: nat, m: int)
    ensures Times(n, m) == n * m
  {
    if n > 0 { TimesIsProduct(n - 1, m); }
  }

  /** One more workload is never too many while the need is not covered. */
  lemma RoomForOneMore(created: nat, q: int, needed: int)
    requires 0 < q && Times(created, q) < needed
    ensures created + 1 <= CeilDiv(needed, q)
  {
    TimesIsProduct(created, q);
    CeilDivReached(needed, q, created);
  }

  lemma FullWhenEnough(perWorkload: int, perSample: int, c: nat)
    requires 0 < perSample
    ensures perWorkload <= Times(c, perSample) <==> CeilDiv(perWorkload, perSample) <= c
  {
    TimesIsProduct(c, perSample);
    CeilDivReached(perWorkload, perSample, c);
  }

  /** q portions are enough and q - 1 are not. */
  ghost predicate IsCeiling(q: int, total: int, portion: int) {
    0 < q && total <= Times(q, portion) && Times(q - 1, portion) < total
  }

  lemma {:induction false} TimesGrows(n: nat, m: nat, portion: int)
    requires 0 < portion && n <= m
    ensures Times(n, portion) <= Times(m, portion)
  {
    if n < m { TimesGrows(n, m - 1, portion); }
  }

  lemma FullExactlyAtCeiling(q: int, total: int, portion: int, c: nat)
    requires 0 < portion && IsCeiling(q, total, portion)
    ensures total <= Times(c, portion) <==> q <= c
  {
    if q <= c { TimesGrows(q, c, portion); } else { TimesGrows(c, q - 1, portion); }
  }

  lemma AllUsed(usable: nat, attempts: nat, left: nat, q: int)
    requires 0 < q && left < q && Times(attempts, q) + left == usable
    ensures attempts == usable / q
  {
    TimesIsProduct(attempts, q);
    DivModUnique(usable, attempts, left, q);
  }

  ghost predicate WellPacked(w: Workload, q: int, perSample: int) {
    && |w.samples| == q && |w.prompts| == Times(|w.samples|, perSample)
    && forall i :: 0 <= i < |w.samples| ==> w.samples[i].workload == w.id
  }

  /** What the sampled series contributed, in order. */
  function PromptsOf(series: seq<Series>, samples: seq<Sample>): seq<string> {
    if samples == [] then []
    else
      var last := samples[|samples| - 1].series;
      PromptsOf(series, samples[..|samples| - 1]) + if last < |series| then series[last].sampled else []
  }

  /** The samples are of usable series, each later than the one before and all earlier than `below`. */
  predicate Ascends(series: seq<Series>, perSample: int, samples: seq<Sample>, below: nat) {
    samples == [] ||
    var last := samples[|samples| - 1].series;
    && last < below && last < |series| && Usable(series[last], perSample)
    && Ascends(series, perSample, samples[..|samples| - 1], last)
  }

  /** Every workload holds the prompts of its own samples, and its series all come after those of the workloads
      before it. */
  predicate AllDrawn(series: seq<Series>, perSample: int, persisted: seq<Workload>, below: nat) {
    persisted == [] ||
    var w := persisted[|persisted| - 1];
    && w.samples != [] && w.prompts == PromptsOf(series, w.samples) && Ascends(series, perSample, w.samples, below)
    && AllDrawn(series, perSample, persisted[..|persisted| - 1], w.samples[0].series)
  }

  /** Everything was drawn from the first `i` series; what is being filled, from later ones than what is done. */
  predicate DrawOk(p: Progress, series: seq<Series>, perSample: int, i: nat, filling: bool) {
    && p.prompts == PromptsOf(series, p.samples) && Ascends(series, perSample, p.samples, i)
    && AllDrawn(series, perSample, p.persisted, if filling && p.samples != [] then p.samples[0].series else i)
  }

  predicate DrawnSoFar(p: Progress, series: seq<Series>, perSample: int, i: nat, needed: int) {
    DrawOk(p, series, perSample, i, Ongoing(p, needed))
  }

  /** A prompt is a line of the series of one of the samples. */
  ghost predicate LineOfSample(series: seq<Series>, samples: seq<Sample>, prompt: string) {
    exists j :: 0 <= j < |samples| && samples[j].series < |series|
      && series[samples[j].series].lines.Some? && prompt in series[samples[j].series].lines.value
  }

  lemma {:induction false} PromptsAreLines(series: seq<Series>, perSample: int, samples: seq<Sample>, below: nat,
                                           prompt: string)
    requires Sampled(series, perSample) && Ascends(series, perSample, samples, below)
    requires prompt in PromptsOf(series, samples)
    ensures LineOfSample(series, samples, prompt)
  {
    if samples != [] {
      var init, last := samples[..|samples| - 1], samples[|samples| - 1].series;
      if prompt in PromptsOf(series, init) {
        PromptsAreLines(series, perSample, init, last, prompt);
        var j :| 0 <= j < |init| && init[j].series < |series|
          && series[init[j].series].lines.Some? && prompt in series[init[j].series].lines.value;
        assert samples[j] == init[j];
      } else {
        assert SampleOf(series[last], perSample);
        assert prompt in multiset(series[last].sampled);
        assert prompt in multiset(series[last].lines.value);
        assert samples[|samples| - 1].series == last;
      }
    }
  }

  lemma {:induction false} AllPromptsAreLines(series: seq<Series>, perSample: int, persisted: seq<Workload>,
                                              below: nat, i: nat, k: nat)
    requires Sampled(series, perSample) && AllDrawn(series, perSample, persisted, below)
    requires i < |persisted| && k < |persisted[i].prompts|
    ensures LineOfSample(series, persisted[i].samples, persisted[i].prompts[k])
  {
    var w := persisted[|persisted| - 1];
    if i == |persisted| - 1 {
      PromptsAreLines(series, perSample, w.samples, below, w.prompts[k]);
    } else {
      AllPromptsAreLines(series, perSample, persisted[..|persisted| - 1], w.samples[0].series, i, k);
    }
  }

  lemma {:induction false} AscendsStart(series: seq<Series>, perSample: int, samples: seq<Sample>, below: nat)
    requires Ascends(series, perSample, samples, below) && samples != []
    ensures samples[0].series < below
  {
    if |samples| > 1 { AscendsStart(series, perSample, samples[..|samples| - 1], samples[|samples| - 1].series); }
  }

  lemma TakeKeepsDraw(p: Progress, series: seq<Series>, perSample: int, i: nat)
    requires DrawOk(p, series, perSample, i, true) && i < |series| && Usable(series[i], perSample)
    ensures DrawOk(p.Take(i, series[i].sampled), series, perSample, i + 1, true)
  {
    assert p.Take(i, series[i].sampled).samples[..|p.samples|] == p.samples;
  }

  lemma UploadKeepsDraw(p: Progress, series: seq<Series>, perSample: int, i: nat, ok: bool)
    requires DrawOk(p, series, perSample, i, true) && p.samples != []
    ensures DrawOk(p.Upload(ok), series, perSample, i, false)
  {
    AscendsStart(series, perSample, p.samples, i);
    if ok { assert p.Upload(ok).persisted[..|p.persisted|] == p.persisted; }
  }

  /** No workload is persisted twice. */
  ghost predicate Ascending(persisted: seq<Workload>) {
    forall i :: 0 < i < |persisted| ==> persisted[i - 1].id < persisted[i].id
  }

  function Bound(needed: int, q: int): int
    requires 0 < q
  {
    if 0 < needed then CeilDiv(needed, q) else 1
  }

  /** When the usable series suffice for enough successful uploads, exactly ceil(needed / q) workloads come out. */
  lemma EnoughSeries(needed: int, q: int, created: nat, attempts: nat, usable: nat, uploadOk: nat -> bool)
    requires 0 < q && created == Successes(uploadOk, attempts) && created <= Bound(needed, q)
    requires Times(created, q) < needed ==> attempts == usable / q
    ensures 0 < needed && CeilDiv(needed, q) <= Successes(uploadOk, usable / q) ==> created == CeilDiv(needed, q)
  {
    TimesIsProduct(created, q);
    CeilDivReached(needed, q, created);
  }

  /** One workload per successful upload; all usable series are used up unless q * created covers the need; never
      more than ceil(needed / q) workloads, and exactly that many when the usable series suffice. */
  predicate Enough(needed: int, q: int, usable: nat, uploadOk: nat -> bool, created: nat, attempts: nat)
    requires 0 < q
  {
    && created == Successes(uploadOk, attempts) && created <= Bound(needed, q)
    && (created * q < needed ==> attempts == usable / q)
    && (0 < needed && CeilDiv(needed, q) <= Successes(uploadOk, usable / q) ==> created == CeilDiv(needed, q))
  }

  /** With q = ceil(P / s) for P prompts per workload and s per sample: every persisted workload has exactly
      q samples, all its own, and q * s prompts, which are those sampled from the lines of its samples' series; no
      series is used for two samples; workloads are persisted once each as long as new ones can be initialised;
      the count is that of the successful uploads; the run stops as soon as q * count covers the need and otherwise
      uses up every usable series; it never creates more than ceil(needed / q), and exactly that many when the
      usable series suffice. */
  method CreateSampleWorkloads(needed: int, perSample: int, perWorkload: int, series: seq<Series>,
                               uploadOk: nat -> bool, initOk: nat -> bool)
    returns (created: nat, persisted: seq<Workload>, attempts: nat)
    requires 0 < perSample && 0 < perWorkload && Sampled(series, perSample)
    ensures created == |persisted| && (!initOk(0) ==> created == 0)
    ensures AllDrawn(series, perSample, persisted, |series|)
    ensures forall i, k :: 0 <= i < |persisted| && 0 <= k < |persisted[i].prompts| ==>
      LineOfSample(series, persisted[i].samples, persisted[i].prompts[k])
    ensures var q := CeilDiv(perWorkload, perSample);
      && 0 < q && (forall i :: 0 <= i < |persisted| ==> WellPacked(persisted[i], q, perSample))
      && (initOk(0) ==> Enough(needed, q, UsableCount(series, perSample), uploadOk, created, attempts))
    ensures (forall n :: initOk(n)) ==> Ascending(persisted)
  {
    created, persisted, attempts := 0, [], 0;
    IsCeilDiv(perWorkload, perSample);
    if !initOk(0) { return; }
    var p, n := Pack(needed, perSample, perWorkload, series, uploadOk, initOk);
    PackedAddsUp(needed, perSample, perWorkload, series, uploadOk, initOk, CeilDiv(perWorkload, perSample), n);
    PersistedDrawn(p, series, perSample, n, needed);
    created, persisted, attempts := |p.persisted|, p.persisted, p.attempts;
    forall i, k | 0 <= i < |persisted| && 0 <= k < |persisted[i].prompts|
      ensures LineOfSample(series, persisted[i].samples, persisted[i].prompts[k])
    {
      AllPromptsAreLines(series, perSample, persisted, |series|, i, k);
    }
  }

  lemma IsCeilDiv(total: int, portion: int)
    requires 0 < portion && 0 < total
    ensures IsCeiling(CeilDiv(total, portion), total, portion)
  {
    var q := CeilDiv(total, portion);
    CeilDivReached(total, portion, 0);
    FullWhenEnough(total, portion, q);
    FullWhenEnough(total, portion, q - 1);
  }

  lemma PackedAddsUp(needed: int, perSample: int, perWorkload: int, series: seq<Series>,
                     uploadOk: nat -> bool, initOk: nat -> bool, q: int, n: nat)
    requires 0 < perSample && IsCeiling(q, perWorkload, perSample) && Sampled(series, perSample) && n <= |series|
    requires Ongoing(Packed(needed, perSample, perWorkload, series, uploadOk, initOk, n), needed) ==> n == |series|
    ensures
      var p := Packed(needed, perSample, perWorkload, series, uploadOk, initOk, n);
      && (forall i :: 0 <= i < |p.persisted| ==> WellPacked(p.persisted[i], q, perSample))
      && Enough(needed, q, UsableCount(series, perSample), uploadOk, |p.persisted|, p.attempts)
      && ((forall n :: initOk(n)) ==> Ascending(p.persisted))
  {
    PackedIsGood(needed, perSample, perWorkload, series, uploadOk, initOk, q, n);
    assert series[..|series|] == series;
    Totals(Packed(needed, perSample, perWorkload, series, uploadOk, initOk, n), needed, perSample, q, uploadOk, initOk,
           UsableCount(series[..n], perSample), UsableCount(series, perSample));
  }

  /** What the accumulators add up to when the loop is left. */
  lemma Totals(p: Progress, needed: int, perSample: int, q: int, uploadOk: nat -> bool, initOk: nat -> bool,
               seen: nat, usable: nat)
    requires 0 < q && Good(p, needed, perSample, q, uploadOk, initOk, seen) && (Ongoing(p, needed) ==> seen == usable)
    ensures Enough(needed, q, usable, uploadOk, |p.persisted|, p.attempts)
  {
    if Times(|p.persisted|, q) < needed { AllUsed(usable, p.attempts, |p.samples|, q); }
    if 1 < |p.persisted| { RoomForOneMore(|p.persisted| - 1, q, needed); }
    TimesIsProduct(|p.persisted|, q);
    CeilDivReached(needed, q, 0);
    EnoughSeries(needed, q, |p.persisted|, p.attempts, usable, uploadOk);
  }

  /** The loop's accumulators: the workload being filled, and what has been done so far. */
  datatype Progress = Progress(
    workload: nat, inits: nat, samples: seq<Sample>, prompts: seq<string>,
    sampledSeries: int, persisted: seq<Workload>, attempts: nat)
  {
    /** One more sampled series goes into the current workload. */
    function Take(series: nat, sampled: seq<string>): Progress {
      this.(samples := samples + [Sample(series, workload)], prompts := prompts + sampled)
    }

    /** The current workload is full: it is uploaded and, if that works, persisted. */
    function Upload(ok: bool): Progress {
      var p := this.(attempts := attempts + 1);
      var w := Workload(workload, samples, prompts);
      if ok then p.(persisted := persisted + [w], sampledSeries := sampledSeries + |samples|) else p
    }

    /** A new workload is started; if that fails, the old one is carried on with. */
    function Reset(ok: bool): Progress {
      this.(samples := [], prompts := [], workload := if ok then inits else workload, inits := inits + 1)
    }

    function Conclude(needed: int, uploadOk: nat -> bool, initOk: nat -> bool): Progress {
      var p := Upload(uploadOk(attempts));
      if p.sampledSeries < needed then p.Reset(initOk(p.inits)) else p
    }

    function Absorb(series: nat, sampled: seq<string>, needed: int, perWorkload: int, uploadOk: nat -> bool,
                    initOk: nat -> bool): Progress {
      var p := Take(series, sampled);
      if |p.prompts| >= perWorkload then p.Conclude(needed, uploadOk, initOk) else p
    }
  }

  predicate Ongoing(p: Progress, needed: int) {
    p.attempts == 0 || p.sampledSeries < needed
  }

  const Begun: Progress := Progress(0, 1, [], [], 0, [], 0)

  /** The accumulators after the first `n` series. */
  function Packed(needed: int, perSample: int, perWorkload: int, series: seq<Series>,
                  uploadOk: nat -> bool, initOk: nat -> bool, n: nat): Progress
    requires n <= |series|
  {
    if n == 0 then Begun
    else
      var p := Packed(needed, perSample, perWorkload, series, uploadOk, initOk, n - 1);
      Considered(p, n - 1, series[n - 1], needed, perSample, perWorkload, uploadOk, initOk)
  }

  /** One series: skipped when unusable, ignored when enough was created. */
  function Considered(p: Progress, i: nat, s: Series, needed: int, perSample: int, perWorkload: int,
                      uploadOk: nat -> bool, initOk: nat -> bool): Progress
  {
    if Ongoing(p, needed) && Usable(s, perSample)
    then p.Absorb(i, s.sampled, needed, perWorkload, uploadOk, initOk)
    else p
  }

  lemma ConsideredKeepsDraw(p: Progress, series: seq<Series>, i: nat, needed: int, perSample: int, perWorkload: int,
                            uploadOk: nat -> bool, initOk: nat -> bool)
    requires DrawnSoFar(p, series, perSample, i, needed) && i < |series|
    ensures DrawnSoFar(Considered(p, i, series[i], needed, perSample, perWorkload, uploadOk, initOk),
                       series, perSample, i + 1, needed)
  {
    if Ongoing(p, needed) && Usable(series[i], perSample) {
      AbsorbKeepsDraw(p, series, perSample, i, needed, perWorkload, uploadOk, initOk);
    } else {
      WaitKeepsDraw(p, series, perSample, i, Ongoing(p, needed));
    }
  }

  lemma PersistedDrawn(p: Progress, series: seq<Series>, perSample: int, i: nat, needed: int)
    requires DrawnSoFar(p, series, perSample, i, needed) && i <= |series|
    ensures AllDrawn(series, perSample, p.persisted, |series|)
  {
    if p.samples != [] { AscendsStart(series, perSample, p.samples, i); }
  }

  lemma AbsorbKeepsDraw(p: Progress, series: seq<Series>, perSample: int, i: nat, needed: int, perWorkload: int,
                        uploadOk: nat -> bool, initOk: nat -> bool)
    requires DrawOk(p, series, perSample, i, true) && i < |series| && Usable(series[i], perSample) && Ongoing(p, needed)
    ensures var t := p.Absorb(i, series[i].sampled, needed, perWorkload, uploadOk, initOk);
      DrawOk(t, series, perSample, i + 1, Ongoing(t, needed))
  {
    TakeKeepsDraw(p, series, perSample, i);
    var t := p.Take(i, series[i].sampled);
    UploadKeepsDraw(t, series, perSample, i + 1, uploadOk(t.attempts));
  }

  /** An unusable series, or one after the end, changes nothing. */
  lemma WaitKeepsDraw(p: Progress, series: seq<Series>, perSample: int, i: nat, filling: bool)
    requires DrawOk(p, series, perSample, i, filling)
    ensures DrawOk(p, series, perSample, i + 1, filling)
  {
  }

  ghost predicate FillingOk(p: Progress, perSample: int) {
    && |p.prompts| == Times(|p.samples|, perSample)
    && forall j :: 0 <= j < |p.samples| ==> p.samples[j].workload == p.workload
  }

  ghost predicate BooksOk(p: Progress, q: int, perSample: int, uploadOk: nat -> bool) {
    && |p.persisted| == Successes(uploadOk, p.attempts) <= p.attempts && p.sampledSeries == Times(|p.persisted|, q)
    && forall j :: 0 <= j < |p.persisted| ==> WellPacked(p.persisted[j], q, perSample)
  }

  ghost predicate IdsOk(p: Progress, filling: bool) {
    && p.workload == p.inits - 1 && Ascending(p.persisted)
    && (p.persisted != [] ==>
          var last := p.persisted[|p.persisted| - 1].id;
          if filling then last < p.workload else last <= p.workload)
  }

  lemma UploadKeepsBooks(p: Progress, q: int, perSample: int, uploadOk: nat -> bool)
    requires FillingOk(p, perSample) && BooksOk(p, q, perSample, uploadOk) && |p.samples| == q
    ensures BooksOk(p.Upload(uploadOk(p.attempts)), q, perSample, uploadOk)
  {
    if uploadOk(p.attempts) { assert WellPacked(Workload(p.workload, p.samples, p.prompts), q, perSample); }
  }

  lemma TakeKeepsBooks(p: Progress, i: nat, sampled: seq<string>, q: int, perSample: int, uploadOk: nat -> bool)
    requires FillingOk(p, perSample) && BooksOk(p, q, perSample, uploadOk) && |sampled| == perSample
    ensures FillingOk(p.Take(i, sampled), perSample) && BooksOk(p.Take(i, sampled), q, perSample, uploadOk)
    ensures IdsOk(p, true) ==> IdsOk(p.Take(i, sampled), true)
  {
  }

  /** A full workload is uploaded and, if that works, persisted; the next one is started if more is needed. */
  lemma ConcludeKeepsBooks(p: Progress, needed: int, perSample: int, uploadOk: nat -> bool, initOk: nat -> bool, q: int)
    requires 0 < q == |p.samples| && FillingOk(p, perSample) && BooksOk(p, q, perSample, uploadOk) && Ongoing(p, needed)
    requires 1 < |p.persisted| ==> Times(|p.persisted| - 1, q) < needed
    ensures var t := p.Conclude(needed, uploadOk, initOk);
      && FillingOk(t, perSample) && BooksOk(t, q, perSample, uploadOk) && t.attempts == p.attempts + 1
      && (t.sampledSeries < needed ==> t.samples == [])
      && (1 < |t.persisted| ==> Times(|t.persisted| - 1, q) < needed)
      && ((forall n :: initOk(n)) && IdsOk(p, true) ==> IdsOk(t, t.sampledSeries < needed))
  {
    UploadKeepsBooks(p, q, perSample, uploadOk);
  }

  /** After `usable` usable series: the books are right, and while the loop goes on every one of them is
      accounted for by an attempted workload or the one being filled. */
  ghost predicate Good(p: Progress, needed: int, perSample: int, q: int, uploadOk: nat -> bool,
                       initOk: nat -> bool, usable: nat) {
    && FillingOk(p, perSample) && BooksOk(p, q, perSample, uploadOk)
    && (Ongoing(p, needed) ==> |p.samples| < q && Times(p.attempts, q) + |p.samples| == usable)
    && (1 < |p.persisted| ==> Times(|p.persisted| - 1, q) < needed)
    && ((forall n :: initOk(n)) ==> IdsOk(p, Ongoing(p, needed)))
  }

  /** One usable series is sampled into the current workload, which is full exactly at q samples. */
  lemma AbsorbKeepsGood(p: Progress, i: nat, sampled: seq<string>, needed: int, perSample: int, perWorkload: int,
                        uploadOk: nat -> bool, initOk: nat -> bool, q: int, usable: nat)
    requires 0 < perSample == |sampled| && IsCeiling(q, perWorkload, perSample)
    requires Good(p, needed, perSample, q, uploadOk, initOk, usable) && Ongoing(p, needed)
    ensures Good(p.Absorb(i, sampled, needed, perWorkload, uploadOk, initOk),
                 needed, perSample, q, uploadOk, initOk, usable + 1)
  {
    TakeKeepsBooks(p, i, sampled, q, perSample, uploadOk);
    var t := p.Take(i, sampled);
    FullExactlyAtCeiling(q, perWorkload, perSample, |t.samples|);
    if |t.prompts| >= perWorkload {
      ConcludeKeepsBooks(t, needed, perSample, uploadOk, initOk, q);
    }
  }

  lemma {:induction false} PackedIsGood(needed: int, perSample: int, perWorkload: int, series: seq<Series>,
                                        uploadOk: nat -> bool, initOk: nat -> bool, q: int, n: nat)
    requires 0 < perSample && IsCeiling(q, perWorkload, perSample) && Sampled(series, perSample) && n <= |series|
    ensures var p := Packed(needed, perSample, perWorkload, series, uploadOk, initOk, n);
      Good(p, needed, perSample, q, uploadOk, initOk, UsableCount(series[..n], perSample))
  {
    if n > 0 {
      PackedIsGood(needed, perSample, perWorkload, series, uploadOk, initOk, q, n - 1);
      assert series[..n][..n - 1] == series[..n - 1];
      ConsideredKeepsGood(Packed(needed, perSample, perWorkload, series, uploadOk, initOk, n - 1), n - 1, series[n - 1],
                          needed, perSample, perWorkload, uploadOk, initOk, q, UsableCount(series[..n - 1], perSample));
    }
  }

  lemma ConsideredKeepsGood(p: Progress, i: nat, s: Series, needed: int, perSample: int, perWorkload: int,
                            uploadOk: nat -> bool, initOk: nat -> bool, q: int, usable: nat)
    requires 0 < perSample && IsCeiling(q, perWorkload, perSample) && (Usable(s, perSample) ==> SampleOf(s, perSample))
    requires Good(p, needed, perSample, q, uploadOk, initOk, usable)
    ensures Good(Considered(p, i, s, needed, perSample, perWorkload, uploadOk, initOk),
                 needed, perSample, q, uploadOk, initOk, usable + if Usable(s, perSample) then 1 else 0)
  {
    if Ongoing(p, needed) && Usable(s, perSample) {
      AbsorbKeepsGood(p, i, s.sampled, needed, perSample, perWorkload, uploadOk, initOk, q, usable);
    }
  }

  /** A workload is initialised at the start and after each attempt that leaves more to do, and never else. */
  lemma {:induction false} InitialisedAsNeeded(needed: int, perSample: int, perWorkload: int, series: seq<Series>,
                                               uploadOk: nat -> bool, initOk: nat -> bool, n: nat)
    requires n <= |series|
    ensures InitsOk(Packed(needed, perSample, perWorkload, series, uploadOk, initOk, n), needed)
  {
    if n > 0 {
      InitialisedAsNeeded(needed, perSample, perWorkload, series, uploadOk, initOk, n - 1);
      ConsideredKeepsInits(Packed(needed, perSample, perWorkload, series, uploadOk, initOk, n - 1), n - 1, series[n - 1],
                           needed, perSample, perWorkload, uploadOk, initOk);
    }
  }

  predicate InitsOk(p: Progress, needed: int) {
    p.inits == if Ongoing(p, needed) then p.attempts + 1 else p.attempts
  }

  lemma ConsideredKeepsInits(p: Progress, i: nat, s: Series, needed: int, perSample: int, perWorkload: int,
                             uploadOk: nat -> bool, initOk: nat -> bool)
    requires InitsOk(p, needed)
    ensures InitsOk(Considered(p, i, s, needed, perSample, perWorkload, uploadOk, initOk), needed)
  {
  }

  /** The loop over the series, for a first workload that could be initialised; it was left after `n` of them. */
  method Pack(needed: int, perSample: int, perWorkload: int, series: seq<Series>, uploadOk: nat -> bool,
              initOk: nat -> bool)
    returns (p: Progress, n: nat)
    ensures n <= |series| && p == Packed(needed, perSample, perWorkload, series, uploadOk, initOk, n)
    ensures Ongoing(p, needed) ==> n == |series|
    ensures DrawnSoFar(p, series, perSample, n, needed)
  {
    p, n := Begun, 0;
    while n < |series| && Ongoing(p, needed)
      invariant n <= |series| && p == Packed(needed, perSample, perWorkload, series, uploadOk, initOk, n)
      invariant DrawnSoFar(p, series, perSample, n, needed)
    {
      ConsideredKeepsDraw(p, series, n, needed, perSample, perWorkload, uploadOk, initOk);
      if Usable(series[n], perSample) {
        p := p.Take(n, series[n].sampled);
        if |p.prompts| >= perWorkload {
          p := p.Upload(uploadOk(p.attempts));
          if p.sampledSeries < needed { p := p.Reset(initOk(p.inits)); }
        }
      }
      n := n + 1;
    }
  }
}
