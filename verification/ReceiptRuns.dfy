/** The receipt store over whole runs: a writer that chooses pages and later writes them one by one, an archiver
    and an evictor, all interleaved on one clock (compute_horde/compute_horde/receipts/store/local.py). */
module ReceiptRuns {
  import opened Messages
  import opened ReceiptStore

  /** `chosen` holds the receipts whose page was chosen but not written yet; `log` all receipts ever given to the
      store; `deleted` the pages that were ever deleted. */
  datatype State = State(
    pages: Pages, archives: Pages, clock: int, chosen: seq<Line>, log: seq<Line>, deleted: set<int>)

  datatype Step = Tick(d: nat) | Choose(receipt: string) | Write(page: int) | Archive(page: int) | Delete(page: int)

  function Init(now: int): State {
    State(map[], map[], now, [], [], {})
  }

  /** A page is written at most `maxDelay` after any of its receipts was assigned to it. */
  ghost predicate Enabled(maxDelay: int, s: State, step: Step) {
    match step
    case Tick(_) => true
    case Choose(_) => true
    case Write(p) =>
      && Assigned(s.chosen, p) != []
      && forall i :: 0 <= i < |s.chosen| && CurrentPageAt(s.chosen[i].at) == p ==> s.clock - s.chosen[i].at <= maxDelay
    case Archive(p) => p in s.pages && p !in s.archives && p <= CurrentPageAt(s.clock) - N_ACTIVE_PAGES
    case Delete(p) => p in s.pages
  }

  function Without(lines: seq<Line>, page: int): seq<Line> {
    if lines == [] then []
    else
      var init, last := Without(lines[..|lines| - 1], page), lines[|lines| - 1];
      if CurrentPageAt(last.at) == page then init else init + [last]
  }

  function Next(s: State, step: Step): State {
    match step
    case Tick(d) => s.(clock := s.clock + d)
    case Choose(r) => s.(chosen := s.chosen + [Line(r, s.clock)], log := s.log + [Line(r, s.clock)])
    case Write(p) => s.(pages := Appended(s.pages, p, Assigned(s.chosen, p)), chosen := Without(s.chosen, p))
    case Archive(p) => if p in s.pages then s.(archives := s.archives[p := s.pages[p]]) else s
    case Delete(p) => s.(pages := s.pages - {p}, archives := s.archives - {p}, deleted := s.deleted + {p})
  }

  ghost function After(maxDelay: int, now: int, steps: seq<Step>): Option<State> {
    if steps == [] then Some(Init(now))
    else
      var before := After(maxDelay, now, steps[..|steps| - 1]);
      var step := steps[|steps| - 1];
      if before.Some? && Enabled(maxDelay, before.value, step) then Some(Next(before.value, step)) else None
  }

  /** Some archive is not its page. */
  ghost predicate Differs(s: State) {
    exists p :: p in s.archives && p in s.pages && s.archives[p] != s.pages[p]
  }

  ghost predicate CanDiffer(maxDelay: int, now: int) {
    exists steps :: After(maxDelay, now, steps).Some? && Differs(After(maxDelay, now, steps).value)
  }

  /** A receipt written within one page time is written to a page that is still active. */
  lemma PromptWriteIsActive(s: State, maxDelay: int, page: int)
    requires maxDelay <= PAGE_TIME && Enabled(maxDelay, s, Write(page))
    ensures Active(page, s.clock)
  {
    AssignedNothing(s.chosen, page);
    var i :| 0 <= i < |s.chosen| && CurrentPageAt(s.chosen[i].at) == page;
  }

  lemma StepKeepsConsistent(maxDelay: int, s: State, step: Step)
    requires maxDelay <= PAGE_TIME && Consistent(s.pages, s.archives, s.clock) && Enabled(maxDelay, s, step)
    ensures var t := Next(s, step);
      Consistent(t.pages, t.archives, t.clock)
  {
    if step.Write? { PromptWriteIsActive(s, maxDelay, step.page); }
  }

  lemma {:induction false} PromptWritesKeepArchives(maxDelay: int, now: int, steps: seq<Step>)
    requires maxDelay <= PAGE_TIME && After(maxDelay, now, steps).Some?
    ensures var s := After(maxDelay, now, steps).value;
      Consistent(s.pages, s.archives, s.clock)
  {
    if steps != [] {
      PromptWritesKeepArchives(maxDelay, now, steps[..|steps| - 1]);
      StepKeepsConsistent(maxDelay, After(maxDelay, now, steps[..|steps| - 1]).value, steps[|steps| - 1]);
    }
  }

  // ----- nothing is lost but by deletion

  lemma {:induction false} AssignedWithout(lines: seq<Line>, page: int, p: int)
    ensures Assigned(Without(lines, page), p) == if p == page then [] else Assigned(lines, p)
  {
    if lines != [] {
      var init, last := lines[..|lines| - 1], lines[|lines| - 1];
      AssignedWithout(init, page, p);
      assert (Without(init, page) + [last])[..|Without(init, page)|] == Without(init, page);
    }
  }

  lemma AssignedOneMore(lines: seq<Line>, line: Line, p: int)
    ensures Assigned(lines + [line], p) == Assigned(lines, p) + if CurrentPageAt(line.at) == p then [line] else []
  {
    assert (lines + [line])[..|lines|] == lines;
  }

  /** What is on a page, followed by what is yet to be written to it, is all that was stored during it. */
  ghost predicate Complete(s: State, p: int) {
    Content(s.pages, p) + Assigned(s.chosen, p) == Assigned(s.log, p)
  }

  lemma StepKeepsComplete(s: State, step: Step, p: int)
    requires Complete(s, p) && p !in Next(s, step).deleted
    ensures Complete(Next(s, step), p)
  {
    if step.Choose? {
      AssignedOneMore(s.chosen, Line(step.receipt, s.clock), p);
      AssignedOneMore(s.log, Line(step.receipt, s.clock), p);
    } else if step.Write? {
      AssignedWithout(s.chosen, step.page, p);
    }
  }

  /** Over every interleaving: a page that was never deleted holds exactly the receipts stored during it, each once
      and in order, but for those still to be written. */
  lemma {:induction false} NothingLostButByDeletion(maxDelay: int, now: int, steps: seq<Step>, p: int)
    requires After(maxDelay, now, steps).Some? && p !in After(maxDelay, now, steps).value.deleted
    ensures Complete(After(maxDelay, now, steps).value, p)
  {
    if steps != [] {
      NothingLostButByDeletion(maxDelay, now, steps[..|steps| - 1], p);
      StepKeepsComplete(After(maxDelay, now, steps[..|steps| - 1]).value, steps[|steps| - 1], p);
    }
  }

  lemma Go(maxDelay: int, now: int, steps: seq<Step>, s: State, step: Step) returns (longer: seq<Step>, t: State)
    requires After(maxDelay, now, steps) == Some(s) && Enabled(maxDelay, s, step)
    ensures longer == steps + [step] && t == Next(s, step) && After(maxDelay, now, longer) == Some(t)
  {
    longer, t := steps + [step], Next(s, step);
    assert longer[..|longer| - 1] == steps;
  }

  lemma OneLine(line: Line)
    ensures Assigned([line], CurrentPageAt(line.at)) == [line] && Without([line], CurrentPageAt(line.at)) == []
  {
    assert [line][..0] == [];
  }

  /** A receipt chosen and written at the very end of its page's time, and another one chosen ... */
  lemma WriteAtTheEnd(maxDelay: int, now: int) returns (steps: seq<Step>, s: State)
    requires 0 <= maxDelay
    ensures After(maxDelay, now, steps) == Some(s)
    ensures var page := CurrentPageAt(now);
      && s.clock == (page + 1) * PAGE_TIME - 1 && s.chosen == [Line("late", s.clock)]
      && s.archives == map[] && s.pages == map[page := [Line("first", s.clock)]]
  {
    var page := CurrentPageAt(now);
    steps, s := [], Init(now);
    steps, s := Go(maxDelay, now, steps, s, Tick((page + 1) * PAGE_TIME - 1 - now));
    steps, s := Go(maxDelay, now, steps, s, Choose("first"));
    OneLine(Line("first", s.clock));
    assert s.chosen == [Line("first", s.clock)];
    steps, s := Go(maxDelay, now, steps, s, Write(page));
    steps, s := Go(maxDelay, now, steps, s, Choose("late"));
  }

  /** ... which is written one second more than a page time later, when the page has just been archived. */
  lemma LateWriteDiffers(maxDelay: int, now: int)
    requires PAGE_TIME < maxDelay
    ensures CanDiffer(maxDelay, now)
  {
    var page := CurrentPageAt(now);
    var steps, s := WriteAtTheEnd(maxDelay, now);
    steps, s := Go(maxDelay, now, steps, s, Tick(PAGE_TIME + 1));
    assert CurrentPageAt(s.clock) == page + N_ACTIVE_PAGES;
    steps, s := Go(maxDelay, now, steps, s, Archive(page));
    OneLine(s.chosen[0]);
    steps, s := Go(maxDelay, now, steps, s, Write(page));
    assert |s.pages[page]| == 2 && |s.archives[page]| == 1;
    assert Differs(s);
  }

  /** Over every interleaving of writer, archiver and evictor: an archive can come to differ from its page exactly
      when a write may come more than a page time after its page was chosen. */
  lemma ArchivesDifferExactlyWhenLate(maxDelay: int, now: int)
    ensures CanDiffer(maxDelay, now) <==> PAGE_TIME < maxDelay
  {
    if PAGE_TIME < maxDelay {
      LateWriteDiffers(maxDelay, now);
    } else {
      forall steps | After(maxDelay, now, steps).Some?
        ensures !Differs(After(maxDelay, now, steps).value)
      {
        PromptWritesKeepArchives(maxDelay, now, steps);
      }
    }
  }
}
