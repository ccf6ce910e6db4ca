/** The miner's paged receipt files (compute_horde/compute_horde/receipts/store/local.py). Clock readings are
    passed in; a line remembers when its page was chosen. One writer at a time. */
module ReceiptStore {

  const PAGE_TIME := 300
  const N_ACTIVE_PAGES := 2

  datatype Line = Line(receipt: string, at: int)

  type Pages = map<int, seq<Line>>

  function CurrentPageAt(t: int): int {
    t / PAGE_TIME
  }

  function Lines(receipts: seq<string>, times: seq<int>): seq<Line>
    requires |times| == |receipts|
  {
    seq(|receipts|, i requires 0 <= i < |receipts| => Line(receipts[i], times[i]))
  }

  /** The lines a store call assigns to a page, in order. */
  function Assigned(lines: seq<Line>, page: int): seq<Line> {
    if lines == [] then []
    else
      var init, last := Assigned(lines[..|lines| - 1], page), lines[|lines| - 1];
      if CurrentPageAt(last.at) == page then init + [last] else init
  }

  function Content(pages: Pages, page: int): seq<Line> {
    if page in pages then pages[page] else []
  }

  function Appended(pages: Pages, page: int, lines: seq<Line>): Pages {
    pages[page := Content(pages, page) + lines]
  }

  /** Every line is on the page of the moment it was stored. */
  ghost predicate Filed(pages: Pages) {
    forall p :: p in pages ==> OnPage(pages[p], p)
  }

  ghost predicate OnPage(lines: seq<Line>, page: int) {
    forall i :: 0 <= i < |lines| ==> CurrentPageAt(lines[i].at) == page
  }

  /** Every archive is of a page that is no longer active, and equals it. */
  ghost predicate Consistent(pages: Pages, archives: Pages, clock: int) {
    forall p :: p in archives ==> p in pages && archives[p] == pages[p] && p <= CurrentPageAt(clock) - N_ACTIVE_PAGES
  }

  predicate Active(page: int, now: int) {
    CurrentPageAt(now) - page < N_ACTIVE_PAGES
  }

  lemma {:induction false} AssignedOnPage(lines: seq<Line>, page: int)
    ensures OnPage(Assigned(lines, page), page)
    ensures forall i :: 0 <= i < |Assigned(lines, page)| ==> Assigned(lines, page)[i] in lines
  {
    if lines != [] { AssignedOnPage(lines[..|lines| - 1], page); }
  }

  /** Nothing is assigned to a page exactly when no line was stored during it. */
  lemma {:induction false} AssignedNothing(lines: seq<Line>, page: int)
    ensures Assigned(lines, page) == [] <==> forall i :: 0 <= i < |lines| ==> CurrentPageAt(lines[i].at) != page
  {
    if lines != [] {
      var init, last := lines[..|lines| - 1], lines[|lines| - 1];
      AssignedNothing(init, page);
      assert forall i :: 0 <= i < |init| ==> init[i] == lines[i];
      assert lines[|lines| - 1] == last;
    }
  }

  /** Appending to pages keeps the archives right exactly if no archived page gains anything. */
  lemma ConsistentExactlyWhenUntouched(before: Pages, after: Pages, archives: Pages, began: int, now: int,
                                       lines: seq<Line>)
    requires Consistent(before, archives, began) && began <= now
    requires forall p :: Content(after, p) == Content(before, p) + Assigned(lines, p)
    requires forall p :: p in before ==> p in after
    ensures Consistent(after, archives, now) <==> forall i :: 0 <= i < |lines| ==> CurrentPageAt(lines[i].at) !in archives
  {
    forall p | p in archives
      ensures p in after && (archives[p] == after[p] <==> Assigned(lines, p) == [])
      ensures Assigned(lines, p) == [] <==> forall i :: 0 <= i < |lines| ==> CurrentPageAt(lines[i].at) != p
    {
      assert Content(after, p) == Content(before, p) + Assigned(lines, p);
      AssignedNothing(lines, p);
    }
  }

  lemma ConsistentExactlyWhenNoneArchived(before: Pages, after: Pages, archives: Pages, began: int, now: int,
                                          receipts: seq<string>, times: seq<int>)
    requires |times| == |receipts| && Consistent(before, archives, began) && began <= now
    requires forall p :: Content(after, p) == Content(before, p) + Assigned(Lines(receipts, times), p)
    requires forall p :: p in before ==> p in after
    ensures Consistent(after, archives, now) <==>
      forall i :: 0 <= i < |times| ==> CurrentPageAt(times[i]) !in archives
  {
    var lines := Lines(receipts, times);
    ConsistentExactlyWhenUntouched(before, after, archives, began, now, lines);
    assert forall i :: 0 <= i < |times| ==> lines[i].at == times[i];
  }

  /** A page covers five minutes. */
  lemma PageCovers(t: int, page: int)
    ensures CurrentPageAt(t) == page <==> 300 * page <= t < 300 * page + 300
  {
  }

  /** How many of the first `n` instants fall into a page. */
  function CountOn(times: seq<int>, page: int, n: nat): nat
    requires n <= |times|
  {
    if n == 0 then 0 else CountOn(times, page, n - 1) + if CurrentPageAt(times[n - 1]) == page then 1 else 0
  }

  lemma {:induction false} CountOnIsCardinality(times: seq<int>, page: int, n: nat)
    requires n <= |times|
    ensures CountOn(times, page, n) == |set j: nat | j < n && CurrentPageAt(times[j]) == page|
  {
    var those := set j: nat | j < n && CurrentPageAt(times[j]) == page;
    if n == 0 {
      assert those == {};
    } else {
      CountOnIsCardinality(times, page, n - 1);
      var before := set j: nat | j < n - 1 && CurrentPageAt(times[j]) == page;
      assert those == if CurrentPageAt(times[n - 1]) == page then before + {n - 1} else before;
    }
  }

  lemma {:induction false} CountOnPrefix(times: seq<int>, page: int, shorter: nat, n: nat)
    requires n <= shorter <= |times|
    ensures CountOn(times[..shorter], page, n) == CountOn(times, page, n)
  {
    if n > 0 { CountOnPrefix(times, page, shorter, n - 1); }
  }

  /** `lines` are the receipts stored during the page, each one where the count of those before it says. */
  ghost predicate InOrder(receipts: seq<string>, times: seq<int>, page: int, lines: seq<Line>)
    requires |times| == |receipts|
  {
    && |lines| == CountOn(times, page, |times|)
    && forall i :: 0 <= i < |times| && CurrentPageAt(times[i]) == page ==>
         CountOn(times, page, i) < |lines| && lines[CountOn(times, page, i)] == Line(receipts[i], times[i])
  }

  lemma OneMoreReceipt(receipts: seq<string>, times: seq<int>, page: int, lines: seq<Line>, receipt: string, time: int)
    requires |times| == |receipts| && InOrder(receipts, times, page, lines)
    ensures InOrder(receipts + [receipt], times + [time], page,
                    lines + if CurrentPageAt(time) == page then [Line(receipt, time)] else [])
  {
    var n := |times|;
    assert (times + [time])[..n] == times;
    forall i | 0 <= i <= n
      ensures CountOn(times + [time], page, i) == CountOn(times, page, i)
    {
      CountOnPrefix(times + [time], page, n, i);
    }
  }

  lemma {:induction false} AssignedInOrder(receipts: seq<string>, times: seq<int>, page: int)
    requires |times| == |receipts|
    ensures InOrder(receipts, times, page, Assigned(Lines(receipts, times), page))
  {
    if times != [] {
      var n := |times| - 1;
      var rs, ts := receipts[..n], times[..n];
      AssignedInOrder(rs, ts, page);
      OneMoreAssigned(rs, ts, page, receipts[n], times[n]);
      assert rs + [receipts[n]] == receipts;
      assert ts + [times[n]] == times;
    }
  }

  lemma OneMoreAssigned(receipts: seq<string>, times: seq<int>, page: int, receipt: string, time: int)
    requires |times| == |receipts| && InOrder(receipts, times, page, Assigned(Lines(receipts, times), page))
    ensures InOrder(receipts + [receipt], times + [time], page,
                    Assigned(Lines(receipts + [receipt], times + [time]), page))
  {
    OneMoreReceipt(receipts, times, page, Assigned(Lines(receipts, times), page), receipt, time);
    AssignedLast(receipts, times, page, receipt, time);
  }

  lemma AssignedLast(receipts: seq<string>, times: seq<int>, page: int, receipt: string, time: int)
    requires |times| == |receipts|
    ensures Assigned(Lines(receipts + [receipt], times + [time]), page) ==
      Assigned(Lines(receipts, times), page) + if CurrentPageAt(time) == page then [Line(receipt, time)] else []
  {
    assert Lines(receipts + [receipt], times + [time])[..|times|] == Lines(receipts, times);
  }

  /** Every page keeps what it had and gains the receipts stored during it, each once, in order. */
  ghost predicate Gains(before: Pages, after: Pages, receipts: seq<string>, times: seq<int>)
    requires |times| == |receipts|
  {
    forall p :: Content(before, p) <= Content(after, p)
      && InOrder(receipts, times, p, Content(after, p)[|Content(before, p)|..])
  }

  lemma AssignedGains(before: Pages, after: Pages, receipts: seq<string>, times: seq<int>)
    requires |times| == |receipts|
    requires forall p :: Content(after, p) == Content(before, p) + Assigned(Lines(receipts, times), p)
    ensures Gains(before, after, receipts, times)
  {
    forall p
      ensures Content(before, p) <= Content(after, p)
      ensures InOrder(receipts, times, p, Content(after, p)[|Content(before, p)|..])
    {
      AssignedInOrder(receipts, times, p);
      assert Content(after, p)[|Content(before, p)|..] == Assigned(Lines(receipts, times), p);
    }
  }

  // ----- writing several pages

  function WriteAll(pages: Pages, groups: Pages, order: seq<int>): Pages {
    if order == [] then pages
    else Appended(WriteAll(pages, groups, order[..|order| - 1]), order[|order| - 1], Content(groups, order[|order| - 1]))
  }

  ghost predicate Distinct(order: seq<int>) {
    forall j, k :: 0 <= j < k < |order| ==> order[j] != order[k]
  }

  lemma {:induction false} WriteAllContent(pages: Pages, groups: Pages, order: seq<int>, page: int)
    requires Distinct(order)
    ensures Content(WriteAll(pages, groups, order), page)
      == Content(pages, page) + if page in order then Content(groups, page) else []
  {
    if order != [] { WriteAllContent(pages, groups, order[..|order| - 1], page); }
  }

  lemma WriteAllDistributes(pages: Pages, groups: Pages, order: seq<int>, lines: seq<Line>)
    requires Distinct(order) && (forall p :: p in order <==> p in groups)
    requires forall p :: Content(groups, p) == Assigned(lines, p)
    ensures forall p :: Content(WriteAll(pages, groups, order), p) == Content(pages, p) + Assigned(lines, p)
  {
    forall p
      ensures Content(WriteAll(pages, groups, order), p) == Content(pages, p) + Assigned(lines, p)
    {
      WriteAllContent(pages, groups, order, p);
    }
  }

  lemma {:induction false} WriteAllKeepsFiled(pages: Pages, groups: Pages, order: seq<int>)
    requires Filed(pages) && Filed(groups)
    ensures Filed(WriteAll(pages, groups, order))
  {
    if order != [] { WriteAllKeepsFiled(pages, groups, order[..|order| - 1]); }
  }

  class LocalFilesystemPagedReceiptStore {
    var pages: Pages
    var archives: Pages
    /** The latest clock reading any operation has used. */
    ghost var clock: int

    constructor (now: int)
      ensures pages == map[] && archives == map[] && clock == now
    {
      pages, archives, clock := map[], map[], now;
    }

    /** One page written at `now`. A write keeps the archives right exactly unless it adds to a
        page that has been archived; a write to a still active page never does. */
    method AppendToPage(lines: seq<Line>, page: int, now: int)
      requires clock <= now && Filed(pages) && OnPage(lines, page)
      modifies this
      ensures pages == Appended(old(pages), page, lines) && archives == old(archives) && clock == now && Filed(pages)
      ensures old(Consistent(pages, archives, clock)) ==>
        (Consistent(pages, archives, clock) <==> page !in archives || lines == [])
      ensures old(Consistent(pages, archives, clock)) && Active(page, now) ==> Consistent(pages, archives, clock)
    {
      CopyAppendSwap(lines, page);
      clock := now;
    }

    /** Copy the page file, append to the copy, move it over the original. */
    method CopyAppendSwap(lines: seq<Line>, page: int)
      modifies this`pages
      ensures pages == Appended(old(pages), page, lines)
    {
      var copy := if page in pages then pages[page] else [];
      pages := pages[page := copy + lines];
    }

    /** Sort the receipts onto the pages current when each is looked at, then append page by page. Every page
        gains exactly the receipts assigned to it, in order. `times` are when the pages were chosen, `now` is when
        they are written; in between, other tasks may have archived. Archives stay right exactly if no receipt's
        page has been, hence whenever the pages chosen are still active when written. */
    method Store(receipts: seq<string>, times: seq<int>, now: int)
      requires |times| == |receipts| && Filed(pages) && clock <= now
      requires forall i :: 0 <= i < |times| ==> times[i] <= now
      modifies this
      ensures forall p :: Content(pages, p) == Content(old(pages), p) + Assigned(Lines(receipts, times), p)
      ensures Gains(old(pages), pages, receipts, times)
      ensures archives == old(archives) && clock == now && Filed(pages)
      ensures old(Consistent(pages, archives, clock)) ==>
        (Consistent(pages, archives, clock) <==> forall i :: 0 <= i < |times| ==> CurrentPageAt(times[i]) !in archives)
      ensures old(Consistent(pages, archives, clock))
        && (forall i :: 0 <= i < |times| ==> Active(CurrentPageAt(times[i]), now))
        ==> Consistent(pages, archives, clock)
    {
      var groups, order := GroupByPage(receipts, times);
      ghost var before, began := pages, clock;
      WriteAllDistributes(pages, groups, order, Lines(receipts, times));
      WriteGroups(groups, order, now);
      AssignedGains(before, pages, receipts, times);
      if Consistent(before, archives, began) {
        ConsistentExactlyWhenNoneArchived(before, pages, archives, began, now, receipts, times);
      }
    }

    method GroupByPage(receipts: seq<string>, times: seq<int>) returns (groups: Pages, order: seq<int>)
      requires |times| == |receipts|
      ensures forall p :: Content(groups, p) == Assigned(Lines(receipts, times), p)
      ensures Gains(map[], groups, receipts, times)
      ensures Distinct(order) && Filed(groups) && (forall p :: p in order <==> p in groups)
    {
      groups, order := map[], [];
      ghost var all := Lines(receipts, times);
      var i := 0;
      while i < |receipts|
        invariant 0 <= i <= |receipts|
        invariant forall p :: Content(groups, p) == Assigned(all[..i], p)
        invariant Distinct(order) && forall p :: p in order <==> p in groups
      {
        var page := CurrentPageAt(times[i]);
        assert all[..i + 1][..i] == all[..i];
        if page !in groups { order := order + [page]; }
        groups := Appended(groups, page, [Line(receipts[i], times[i])]);
        i := i + 1;
      }
      assert all[..i] == all;
      AssignedGains(map[], groups, receipts, times);
      forall p | p in groups
        ensures OnPage(groups[p], p)
      {
        AssignedOnPage(all, p);
      }
    }

    /** `for page, receipts_in_page in pages.items()`. */
    method WriteGroups(groups: Pages, order: seq<int>, now: int)
      requires clock <= now && Filed(pages) && Filed(groups)
      modifies this
      ensures pages == WriteAll(old(pages), groups, order) && archives == old(archives) && clock == now && Filed(pages)
      ensures forall p :: p in old(pages) ==> p in pages
    {
      ghost var before := pages;
      var k := 0;
      while k < |order|
        invariant 0 <= k <= |order| && pages == WriteAll(before, groups, order[..k]) && archives == old(archives)
        invariant forall p :: p in before ==> p in pages
      {
        assert order[..k + 1][..k] == order[..k];
        CopyAppendSwap(if order[k] in groups then groups[order[k]] else [], order[k]);
        k := k + 1;
      }
      assert order[..k] == order;
      clock := now;
      WriteAllKeepsFiled(before, groups, order);
    }

    /** Pack every page that is no longer active and has no archive yet. */
    method ArchiveOldPages(now: int)
      requires clock <= now
      modifies this`archives, this`clock
      ensures clock == now && (old(Consistent(pages, archives, clock)) ==> Consistent(pages, archives, clock))
      ensures forall p :: p in archives <==>
        p in old(archives) || (p in pages && p <= CurrentPageAt(now) - N_ACTIVE_PAGES)
      ensures forall p :: p in archives ==> archives[p] == if p in old(archives) then old(archives)[p] else pages[p]
    {
      clock := now;
      var cutoff := CurrentPageAt(now) - N_ACTIVE_PAGES;
      var todo := set p | p in pages && p <= cutoff;
      ghost var all := todo;
      while todo != {}
        invariant todo <= all && clock == now
        invariant forall p :: p in archives <==> p in old(archives) || p in all - todo
        invariant forall p :: p in archives ==> archives[p] == if p in old(archives) then old(archives)[p] else pages[p]
      {
        var p :| p in todo;
        todo := todo - {p};
        if p !in archives { archives := archives[p := pages[p]]; }
      }
    }

    /** Evict: delete the pages, and their archives, that are older than the page of the cutoff. No line stored
        at or after the cutoff is lost, and nothing from that page on is touched. */
    method Evict(cutoff: int)
      requires Filed(pages)
      modifies this`pages, this`archives
      ensures Filed(pages) && (old(Consistent(pages, archives, clock)) ==> Consistent(pages, archives, clock))
      ensures forall p :: p in pages <==> p in old(pages) && CurrentPageAt(cutoff) <= p
      ensures forall p :: p in archives <==> p in old(archives) && (CurrentPageAt(cutoff) <= p || p !in old(pages))
      ensures forall p :: p in pages ==> pages[p] == old(pages)[p]
      ensures forall p :: p in archives ==> archives[p] == old(archives)[p]
      ensures forall p, i :: p in old(pages) && 0 <= i < |old(pages)[p]| && cutoff <= old(pages)[p][i].at ==>
        p in pages && old(pages)[p][i] in pages[p]
    {
      var olderThan := CurrentPageAt(cutoff);
      var todo := set p | p in pages && p < olderThan;
      ghost var all := todo;
      while todo != {}
        invariant todo <= all
        invariant pages == old(pages) - (all - todo) && archives == old(archives) - (all - todo)
      {
        var p :| p in todo;
        todo := todo - {p};
        pages := pages - {p};
        archives := archives - {p};
      }
      forall p, i | p in old(pages) && 0 <= i < |old(pages)[p]| && cutoff <= old(pages)[p][i].at
        ensures p in pages && old(pages)[p][i] in pages[p]
      {
        assert OnPage(old(pages)[p], p);
      }
    }
  }

  /** A batch that is written two pages late lands on an archived page: the archive is no longer the page. */
  method LateWriteBreaksArchive() returns (store: LocalFilesystemPagedReceiptStore)
    ensures !Consistent(store.pages, store.archives, store.clock)
  {
    store := new LocalFilesystemPagedReceiptStore(0);
    store.Store(["first"], [0], 0);
    var early := Lines(["first"], [0]);
    assert early[..0] == [] && Assigned(early, 0) == [Line("first", 0)];
    assert Content(store.pages, 0) == [Line("first", 0)];
    store.ArchiveOldPages(600);
    assert 0 in store.archives;
    store.Store(["late"], [10], 600);
  }
}
