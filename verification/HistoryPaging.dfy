/** Reading the whole history page by page, while the ledger may grow between pages. */
module HistoryPaging {
  import opened Records
  import opened FirstWrite
  import opened HistorySearch

  /** One answered page: the rows that the index held then, and what the page returned. */
  datatype PageStep = PageStep(rows: seq<Row>, entries: seq<Record>, next: Option<Position>)

  /** Pages answered one after another, each with the cursor of the page before it. Records may be
      appended between two pages. */
  ghost predicate PagesSoFar(steps: seq<PageStep>, q: Query, before: Option<Position>) {
    && steps != []
    && Ordered(steps[0].rows)
    && PageAnswers(steps[0].rows, q, before, steps[0].entries, steps[0].next)
    && (|steps| > 1 ==>
          steps[0].next.Some? && steps[0].rows <= steps[1].rows && PagesSoFar(steps[1..], q, steps[0].next))
  }

  predicate IsFinished(steps: seq<PageStep>) {
    steps != [] && steps[|steps| - 1].next.None?
  }

  /** Pages up to one that gives no cursor. */
  ghost predicate PageRun(steps: seq<PageStep>, q: Query, before: Option<Position>) {
    PagesSoFar(steps, q, before) && IsFinished(steps)
  }

  /** The row down to which the pages have come. */
  ghost function Reached(steps: seq<PageStep>): nat
    requires steps != []
  {
    var last := steps[|steps| - 1];
    if last.next.None? then 0 else Below(last.rows, last.next)
  }

  /** All entries of a run, oldest first: later pages hold older records. */
  ghost function Gathered(steps: seq<PageStep>): seq<Record> {
    if steps == [] then [] else Gathered(steps[1..]) + steps[0].entries
  }

  lemma GrowthKeepsCursor(rows: seq<Row>, grown: seq<Row>, next: Option<Position>)
    requires Ordered(rows) && Ordered(grown) && rows <= grown && next.Some?
    requires Below(rows, next) < |rows| && rows[Below(rows, next)].at == next.value
    ensures Below(grown, next) == Below(rows, next)
  {
    BelowOwnRow(grown, Below(rows, next));
  }

  lemma FirstAndRest(steps: seq<PageStep>, q: Query, before: Option<Position>)
    requires PagesSoFar(steps, q, before) && |steps| > 1
    ensures PagesSoFar(steps[1..], q, steps[0].next) && steps[1..][0] == steps[1]
    ensures Gathered(steps) == Gathered(steps[1..]) + steps[0].entries
    ensures Reached(steps) == Reached(steps[1..]) && IsFinished(steps) == IsFinished(steps[1..])
  {
  }

  lemma OnlyPage(steps: seq<PageStep>)
    requires |steps| == 1
    ensures Gathered(steps) == steps[0].entries
  {
    assert Gathered(steps[1..]) == [];
  }

  /** A page of `rows` joined to older pages of what `rows` has grown to. */
  lemma PagesJoin(rows: seq<Row>, grown: seq<Row>, q: Query, lo: nat, middle: nat, hi: nat)
    requires rows <= grown && lo <= middle <= hi <= |rows|
    ensures Winners(RecordsOf(grown), q, lo, middle) + Winners(RecordsOf(rows), q, middle, hi)
         == Winners(RecordsOf(rows), q, lo, hi)
  {
    WinnersOfPrefix(RecordsOf(rows), RecordsOf(grown), q, lo, middle);
    WinnersSplit(RecordsOf(rows), q, lo, middle, hi);
  }

  /** The pages that have come so far are adjacent, and no more than the rows they have passed: a
      caller that follows cursors comes to the end however long it stays away between pages. */
  lemma {:induction false} PagesGatherWinners(steps: seq<PageStep>, q: Query, before: Option<Position>)
    requires PagesSoFar(steps, q, before)
    ensures var rows, lo := steps[0].rows, Reached(steps);
            var hi := Below(rows, before);
            && lo <= hi
            && Gathered(steps) == Winners(RecordsOf(rows), q, lo, hi)
            && |steps| <= hi - lo + (if IsFinished(steps) then 1 else 0)
  {
    if |steps| == 1 {
      OnlyPage(steps);
    } else {
      var rows, grown, next := steps[0].rows, steps[1].rows, steps[0].next;
      FirstAndRest(steps, q, before);
      PagesGatherWinners(steps[1..], q, next);
      GrowthKeepsCursor(rows, grown, next);
      PagesJoin(rows, grown, q, Reached(steps), Below(rows, next), Below(rows, before));
    }
  }

  /** Every page but the last holds an entry, so there are no more pages than matches. */
  lemma {:induction false} PagesHoldEntries(steps: seq<PageStep>, q: Query, before: Option<Position>)
    requires PagesSoFar(steps, q, before) && 1 <= q.limit
    requires forall s <- steps :: PageWithinLimits(q, s.entries, s.next)
    ensures |steps| <= |Gathered(steps)| + (if IsFinished(steps) then 1 else 0)
  {
    assert PageWithinLimits(q, steps[0].entries, steps[0].next);
    if |steps| == 1 {
      OnlyPage(steps);
    } else {
      FirstAndRest(steps, q, before);
      PagesHoldEntries(steps[1..], q, steps[0].next);
    }
  }

  lemma RunGathersWinners(steps: seq<PageStep>, q: Query, before: Option<Position>)
    requires PageRun(steps, q, before)
    ensures Gathered(steps) == Winners(RecordsOf(steps[0].rows), q, 0, Below(steps[0].rows, before))
    ensures |steps| <= Below(steps[0].rows, before) + 1
  {
    PagesGatherWinners(steps, q, before);
  }

  /** Following cursors from the first page to the last yields every matching first write of
      the ledger as it stood at the first page: each once, in write order, none skipped for the
      character budget, nothing from later appends; and the run is finite. */
  lemma PagesEnumerateHistory(steps: seq<PageStep>, q: Query)
    requires PageRun(steps, q, None)
    ensures Gathered(steps) == Filter(Dedupe(RecordsOf(steps[0].rows)), q)
    ensures |steps| <= |steps[0].rows| + 1
  {
    RunGathersWinners(steps, q, None);
    DedupeThenFilter(RecordsOf(steps[0].rows), q);
  }

  /** Every cursor lies strictly before the one that led to it. */
  lemma CursorsDecrease(rows: seq<Row>, q: Query, before: Option<Position>, entries: seq<Record>,
      next: Option<Position>)
    requires Ordered(rows) && PageAnswers(rows, q, before, entries, next) && before.Some? && next.Some?
    ensures Before(next.value, before.value)
  {
    BelowAt(rows, before, Below(rows, next));
  }
}
