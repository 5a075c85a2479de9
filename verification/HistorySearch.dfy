/** The derived search index: the newest-first walk over indexed rows, its pages and its snapshots. */
module HistorySearch {
  import opened Records
  import opened FirstWrite
  import opened RecentItems
  import opened SearchGrams

  /** Write order: catalog ordinal of the file, then line, then row. */
  datatype Position = Position(sourceOrder: nat, position: nat, rowid: nat)

  predicate Before(a: Position, b: Position) {
    || a.sourceOrder < b.sourceOrder
    || (a.sourceOrder == b.sourceOrder && a.position < b.position)
    || (a.sourceOrder == b.sourceOrder && a.position == b.position && a.rowid < b.rowid)
  }

  datatype Postings = Postings(g1: set<Token>, g2: set<Token>, g3: set<Token>) {
    function Column(size: nat): set<Token> {
      if size == 1 then g1 else if size == 2 then g2 else g3
    }
  }

  datatype Row = Row(at: Position, current: bool, record: Record, postings: Postings)

  /** The row comparison of the cursor clause. */
  predicate Precedes(row: Row, before: Option<Position>) {
    before.Some? ==> Before(row.at, before.value)
  }

  /** What the refresh stores for a record; the walk never reads the source files. */
  function Index(r: Record): Postings {
    Postings(GramSet(r.haystack, 1), GramSet(r.haystack, 2), GramSet(r.haystack, 3))
  }

  ghost predicate Ordered(rows: seq<Row>) {
    forall i, j :: 0 <= i < j < |rows| ==> Before(rows[i].at, rows[j].at)
  }

  ghost predicate UpToDate(rows: seq<Row>) {
    Ordered(rows) && forall row <- rows :: row.postings == Index(row.record)
  }

  ghost function RecordsOf(rows: seq<Row>): (s: seq<Record>)
    ensures |s| == |rows|
    ensures forall i :: 0 <= i < |rows| ==> s[i] == rows[i].record
  {
    seq(|rows|, i requires 0 <= i < |rows| => rows[i].record)
  }

  // ---------------------------------------------------------------- candidate filter

  predicate TermPosted(row: Row, term: Term) {
    GramSet(term, TermSize(term)) <= row.postings.Column(TermSize(term))
  }

  predicate TermsPosted(row: Row, q: Query) {
    || q.terms == []
    || (q.matchAll && forall t <- q.terms :: TermPosted(row, t))
    || (!q.matchAll && exists t <- q.terms :: TermPosted(row, t))
  }

  /** The WHERE clause of the candidate select. */
  predicate Candidate(row: Row, q: Query, before: Option<Position>) {
    && TermsPosted(row, q)
    && FieldsMatch(row.record, q)
    && BoundsMatch(row.record, q)
    && Precedes(row, before)
  }

  lemma TermFilterNeverMisses(row: Row, q: Query)
    requires row.postings == Index(row.record) && TermsMatch(row.record, q)
    ensures TermsPosted(row, q)
  {
    forall t | t in q.terms && Includes(row.record.haystack, t) ensures TermPosted(row, t) {
      GramsNeverMiss(row.record.haystack, t, TermSize(t));
    }
  }

  /** For terms of up to three code units the postings say exactly where they occur. */
  lemma ShortTermsAreExact(row: Row, term: Term)
    requires row.postings == Index(row.record) && |term| <= 3
    ensures TermPosted(row, term) <==> Includes(row.record.haystack, term)
  {
    ShortTermGramsAreExact(row.record.haystack, term);
  }

  /** A matching row is always among the candidates. */
  lemma CandidatesCoverMatches(row: Row, q: Query, before: Option<Position>)
    requires row.postings == Index(row.record) && Matches(row.record, q)
    requires before.Some? ==> Before(row.at, before.value)
    ensures Candidate(row, q, before)
  {
    TermFilterNeverMisses(row, q);
  }

  /** The duplicate lookup: the first eligible row of the key. */
  method FirstRowOf(rows: seq<Row>, i: nat) returns (first: bool)
    requires i < |rows|
    ensures first <==> IsFirstWrite(RecordsOf(rows), i)
  {
    ghost var s := RecordsOf(rows);
    var winner := 0;
    while rows[winner].record.key != rows[i].record.key
      invariant winner <= i && forall j :: 0 <= j < winner ==> s[j].key != s[i].key
      decreases i - winner
    {
      winner := winner + 1;
    }
    if winner < i {
      assert s[winner] in s[..i];
    } else {
      forall r | r in s[..i] ensures r.key != s[i].key {
        var j :| 0 <= j < i && s[..i][j] == r;
      }
    }
    first := winner == i;
  }

  /** What position `i` contributes to the answer. */
  ghost function OwnedMatch(s: seq<Record>, q: Query, i: nat): seq<Record>
    requires i < |s|
  {
    if IsFirstWrite(s, i) && Matches(s[i], q) then [s[i]] else []
  }

  /** One candidate row: is it the owner of its identity, and does the query accept it? */
  method JudgeRow(rows: seq<Row>, q: Query, before: Option<Position>, i: nat) returns (first: bool, matching: bool)
    requires UpToDate(rows) && i < |rows|
    ensures first ==> IsFirstWrite(RecordsOf(rows), i) && Precedes(rows[i], before)
    ensures matching ==> Matches(rows[i].record, q)
    ensures Precedes(rows[i], before) ==>
              OwnedMatch(RecordsOf(rows), q, i) == if first && matching then [rows[i].record] else []
  {
    first, matching := false, false;
    var row := rows[i];
    if Candidate(row, q, before) {
      first := FirstRowOf(rows, i);
      matching := MatchesQuery(row.record, q);
    } else if Matches(row.record, q) && Precedes(row, before) {
      CandidatesCoverMatches(row, q, before);
    }
  }

  // ---------------------------------------------------------------- one result window

  /** What is still to be taken once the walk stands before row `i`. */
  ghost function Rest(s: seq<Record>, q: Query, i: nat, room: int, taken: bool, chars: nat): seq<Record>
    requires i <= |s|
  {
    Newest(Winners(s, q, 0, i), room, taken, chars, CharBudget(q))
  }

  lemma RestStep(s: seq<Record>, q: Query, i: nat, room: int, taken: bool, chars: nat)
    requires i < |s| && 0 < room
    ensures var owns := IsFirstWrite(s, i) && Matches(s[i], q);
            var fits := !taken || chars + CharCost(s[i]) <= CharBudget(q);
            Rest(s, q, i + 1, room, taken, chars)
            == if owns && fits then Rest(s, q, i, room - 1, true, chars + CharCost(s[i])) + [s[i]]
               else Rest(s, q, i, room, taken, chars)
  {
    var older := Winners(s, q, 0, i);
    if IsFirstWrite(s, i) && Matches(s[i], q) {
      assert (older + [s[i]])[..|older|] == older;
    } else {
      assert older + [] == older;
    }
  }

  /** `searchMessageHistoryIndex` without a page: skip over the budget, stop early. */
  method SearchMessageHistory(rows: seq<Row>, q: Query) returns (entries: seq<Record>)
    requires UpToDate(rows)
    ensures entries == Recent(RecordsOf(rows), q)
  {
    entries := [];
    if q.limit <= 0 {
      return;
    }
    ghost var s := RecordsOf(rows);
    var chars: nat := 0;
    WalkStarts(s, q);
    var i := |rows|;
    while i > 0
      invariant 0 <= i <= |rows| && |entries| < q.limit
      invariant Pending(s, q, i, chars, entries) == Recent(s, q)
    {
      i := i - 1;
      var first, matching := JudgeRow(rows, q, None, i);
      if first {
        chars, entries := Collect(s, q, i, rows[i].record, matching, chars, entries);
        if |entries| >= q.limit || (|entries| > 0 && chars + RECORD_OVERHEAD_CHARS > CharBudget(q)) {
          WalkEnds(s, q, i, chars, entries);
          return;
        }
      } else {
        PassOver(s, q, i, chars, entries);
      }
    }
    WalkEnds(s, q, 0, chars, entries);
  }

  /** The final result as seen from row `i`: what was collected, and what is still to come. */
  ghost function Pending(s: seq<Record>, q: Query, i: nat, chars: nat, entries: seq<Record>): seq<Record>
    requires i <= |s|
  {
    Rest(s, q, i, q.limit - |entries|, entries != [], chars) + entries
  }

  lemma WalkStarts(s: seq<Record>, q: Query)
    ensures Pending(s, q, |s|, 0, []) == Recent(s, q)
  {
    DedupeThenFilter(s, q);
  }

  lemma PassOver(s: seq<Record>, q: Query, i: nat, chars: nat, entries: seq<Record>)
    requires i < |s| && |entries| < q.limit && !(IsFirstWrite(s, i) && Matches(s[i], q))
    ensures Pending(s, q, i + 1, chars, entries) == Pending(s, q, i, chars, entries)
  {
    RestStep(s, q, i, q.limit - |entries|, entries != [], chars);
  }

  lemma WalkEnds(s: seq<Record>, q: Query, i: nat, chars: nat, entries: seq<Record>)
    requires i <= |s|
    requires i == 0 || |entries| >= q.limit || (|entries| > 0 && chars + RECORD_OVERHEAD_CHARS > CharBudget(q))
    ensures Pending(s, q, i, chars, entries) == entries
  {
    if i > 0 && |entries| < q.limit {
      NothingFitsBelowOverhead(Winners(s, q, 0, i), q.limit - |entries|, chars, CharBudget(q));
    }
  }

  lemma LeaveOut(s: seq<Record>, q: Query, i: nat, chars: nat, entries: seq<Record>)
    requires i < |s| && |entries| < q.limit
    requires !Matches(s[i], q) || (entries != [] && chars + CharCost(s[i]) > CharBudget(q))
    ensures Pending(s, q, i, chars, entries) == Pending(s, q, i + 1, chars, entries)
  {
    RestStep(s, q, i, q.limit - |entries|, entries != [], chars);
  }

  lemma TakeIn(s: seq<Record>, q: Query, i: nat, chars: nat, entries: seq<Record>)
    requires i < |s| && |entries| < q.limit && IsFirstWrite(s, i) && Matches(s[i], q)
    requires entries == [] || chars + CharCost(s[i]) <= CharBudget(q)
    ensures Pending(s, q, i, chars + CharCost(s[i]), [s[i]] + entries) == Pending(s, q, i + 1, chars, entries)
  {
    RestStep(s, q, i, q.limit - |entries|, entries != [], chars);
    var rest := Rest(s, q, i, q.limit - |entries| - 1, true, chars + CharCost(s[i]));
    assert (rest + [s[i]]) + entries == rest + ([s[i]] + entries);
  }

  /** The `collect` closure: an owned row is taken when it matches and still fits. */
  method Collect(ghost s: seq<Record>, q: Query, ghost i: nat, record: Record, matching: bool, chars: nat,
      entries: seq<Record>)
    returns (chars': nat, entries': seq<Record>)
    requires i < |s| && s[i] == record && IsFirstWrite(s, i) && (matching <==> Matches(record, q))
    requires |entries| < q.limit
    ensures |entries'| <= |entries| + 1
    ensures Pending(s, q, i, chars', entries') == Pending(s, q, i + 1, chars, entries)
  {
    if !matching || (|entries| > 0 && chars + CharCost(record) > CharBudget(q)) {
      LeaveOut(s, q, i, chars, entries);
      return chars, entries;
    }
    TakeIn(s, q, i, chars, entries);
    return chars + CharCost(record), [record] + entries;
  }

  // ---------------------------------------------------------------- pages

  /** How many rows precede the cursor. */
  ghost function Below(rows: seq<Row>, before: Option<Position>): (n: nat)
    ensures n <= |rows|
  {
    if before.None? then |rows|
    else if rows == [] then 0
    else if Before(rows[|rows| - 1].at, before.value) then |rows|
    else Below(rows[..|rows| - 1], before)
  }

  lemma {:induction false} BelowSplits(rows: seq<Row>, before: Option<Position>)
    requires Ordered(rows)
    ensures forall i :: 0 <= i < |rows| ==> (Precedes(rows[i], before) <==> i < Below(rows, before))
  {
    if before.Some? && rows != [] {
      var n := |rows| - 1;
      if Precedes(rows[n], before) {
        forall i | 0 <= i < |rows| ensures Precedes(rows[i], before) {
          assert i < n ==> Before(rows[i].at, rows[n].at);
        }
      } else {
        BelowSplits(rows[..n], before);
        forall i | 0 <= i < n ensures Precedes(rows[i], before) <==> i < Below(rows[..n], before) {
          assert rows[i] == rows[..n][i];
        }
      }
    }
  }

  lemma BelowOwnRow(rows: seq<Row>, i: nat)
    requires Ordered(rows) && i < |rows|
    ensures Below(rows, Some(rows[i].at)) == i
  {
    BelowSplits(rows, Some(rows[i].at));
    assert !Precedes(rows[i], Some(rows[i].at));
    if 0 < i {
      assert Before(rows[i - 1].at, rows[i].at);
      assert Precedes(rows[i - 1], Some(rows[i].at));
    }
  }

  /** One page holds every matching first write between its cursor and the next cursor,
      and no next cursor means that nothing older is left. */
  ghost predicate PageAnswers(rows: seq<Row>, q: Query, before: Option<Position>,
                              entries: seq<Record>, next: Option<Position>) {
    var hi := Below(rows, before);
    var lo := if next.None? then 0 else Below(rows, next);
    && lo <= hi
    && entries == Winners(RecordsOf(rows), q, lo, hi)
    && (next.Some? ==> lo < hi && rows[lo].at == next.value)
  }

  lemma BelowAt(rows: seq<Row>, before: Option<Position>, i: nat)
    requires Ordered(rows) && i < |rows|
    ensures Precedes(rows[i], before) <==> i < Below(rows, before)
  {
    BelowSplits(rows, before);
  }

  /** While a page with upper end `hi` is filled: everything from row `c` on is taken, and
      nothing between rows `i` and `c` is a match. */
  ghost predicate TakenDownTo(s: seq<Record>, q: Query, i: nat, c: nat, hi: nat, entries: seq<Record>) {
    && c <= hi <= |s|
    && (i < c ==> Winners(s, q, i, c) == [])
    && entries == Winners(s, q, c, hi)
  }

  lemma WinnersStep(s: seq<Record>, q: Query, i: nat, hi: nat)
    requires i < hi <= |s|
    ensures Winners(s, q, i, hi) == OwnedMatch(s, q, i) + Winners(s, q, i + 1, hi)
  {
    WinnersSplit(s, q, i, i + 1, hi);
  }

  lemma TakenSkips(s: seq<Record>, q: Query, i: nat, c: nat, hi: nat, entries: seq<Record>)
    requires i < |s| && TakenDownTo(s, q, i + 1, c, hi, entries)
    requires i < hi ==> OwnedMatch(s, q, i) == []
    ensures TakenDownTo(s, q, i, c, hi, entries)
  {
    if i < c {
      WinnersStep(s, q, i, c);
    }
  }

  lemma TakenAdds(s: seq<Record>, q: Query, i: nat, c: nat, hi: nat, entries: seq<Record>)
    requires i < hi <= |s| && i < c && TakenDownTo(s, q, i + 1, c, hi, entries)
    ensures TakenDownTo(s, q, i, i, hi, OwnedMatch(s, q, i) + entries)
  {
    WinnersStep(s, q, i, hi);
    WinnersSplit(s, q, i + 1, c, hi);
  }

  method TakeRow(record: Record, matching: bool, chars: nat, entries: seq<Record>)
    returns (chars': nat, entries': seq<Record>)
    requires chars == TotalCost(entries)
    ensures chars' == TotalCost(entries') == if matching then chars + CharCost(record) else chars
    ensures entries' == (if matching then [record] else []) + entries
  {
    chars', entries' := chars, entries;
    if matching {
      PrependCost(record, entries);
      chars', entries' := chars + CharCost(record), [record] + entries;
    }
  }

  /** The state of a page walk that has reached row `row`; `next` names row `c`. */
  datatype Walk = Walk(entries: seq<Record>, chars: nat, next: Option<Position>)

  /** `s` names the records, so that the loop carries what was taken without taking it apart. */
  ghost predicate Filling(rows: seq<Row>, q: Query, before: Option<Position>, row: nat, c: nat, w: Walk) {
    && (forall s :: s == RecordsOf(rows) ==> TakenDownTo(s, q, row, c, Below(rows, before), w.entries))
    && (if w.next.None? then c == Below(rows, before)
        else row <= c < Below(rows, before) && w.next.value == rows[c].at)
    && Costed(q, w)
  }

  /** The walk knows what its entries cost, and only a single one may cost more than the budget. */
  ghost predicate Costed(q: Query, w: Walk) {
    w.chars == TotalCost(w.entries) && (w.chars <= CharBudget(q) || |w.entries| == 1)
  }

  lemma FillingTakes(rows: seq<Row>, q: Query, before: Option<Position>, row: nat, c: nat, w: Walk)
    requires Filling(rows, q, before, row, c, w)
    ensures TakenDownTo(RecordsOf(rows), q, row, c, Below(rows, before), w.entries)
  {
    var s := RecordsOf(rows);
    assert TakenDownTo(s, q, row, c, Below(rows, before), w.entries);
  }

  /** A walk that stops at a full page answers up to its own cursor; one that reaches the
      oldest row answers everything. */
  lemma WalkAnswers(rows: seq<Row>, q: Query, before: Option<Position>, row: nat, c: nat, w: Walk)
    requires Ordered(rows) && Filling(rows, q, before, row, c, w)
    ensures w.next.Some? ==> PageAnswers(rows, q, before, w.entries, w.next)
    ensures row == 0 ==> PageAnswers(rows, q, before, w.entries, None)
  {
    FillingTakes(rows, q, before, row, c, w);
    if w.next.Some? {
      BelowOwnRow(rows, c);
    }
    if row == 0 {
      WinnersSplit(RecordsOf(rows), q, 0, c, Below(rows, before));
    }
  }

  lemma FillSkips(rows: seq<Row>, q: Query, before: Option<Position>, row: nat, c: nat, w: Walk)
    requires row < |rows| && Filling(rows, q, before, row + 1, c, w)
    requires row < Below(rows, before) ==> OwnedMatch(RecordsOf(rows), q, row) == []
    ensures Filling(rows, q, before, row, c, w)
  {
    TakenSkips(RecordsOf(rows), q, row, c, Below(rows, before), w.entries);
  }

  lemma FillTakes(rows: seq<Row>, q: Query, before: Option<Position>, row: nat, c: nat, w: Walk, taken: seq<Record>,
      chars: nat)
    requires row < |rows| && Filling(rows, q, before, row + 1, c, w) && row < Below(rows, before)
    requires taken == OwnedMatch(RecordsOf(rows), q, row)
    requires chars == TotalCost(taken + w.entries) && (chars <= CharBudget(q) || |taken + w.entries| == 1)
    ensures Filling(rows, q, before, row, row, Walk(taken + w.entries, chars, Some(rows[row].at)))
  {
    TakenAdds(RecordsOf(rows), q, row, c, Below(rows, before), w.entries);
  }

  /** A row is passed over, or refused because it would overflow the page, or taken into it. */
  datatype Verdict = Passed | Refused | Taken

  ghost predicate RowStep(rows: seq<Row>, q: Query, before: Option<Position>, row: nat, w: Walk, verdict: Verdict,
      full: bool, w': Walk)
    requires row < |rows|
  {
    match verdict
    case Passed => !full && w' == w && (row < Below(rows, before) ==> OwnedMatch(RecordsOf(rows), q, row) == [])
    case Refused => full && w' == w && w.entries != []
    case Taken =>
      && row < Below(rows, before)
      && w'.entries == OwnedMatch(RecordsOf(rows), q, row) + w.entries
      && w'.next == Some(rows[row].at)
      && w'.chars == TotalCost(w'.entries) && (w'.chars <= CharBudget(q) || |w'.entries| == 1)
      && (full ==> w'.entries != [] || q.limit <= 0)
      && (!full ==> |w'.entries| < q.limit)
  }

  /** One row of the page loop, after the candidate filter and the duplicate lookup. */
  method PageRow(rows: seq<Row>, q: Query, before: Option<Position>, row: nat, w: Walk)
      returns (full: bool, w': Walk, verdict: Verdict)
    requires UpToDate(rows) && row < |rows|
    requires Costed(q, w)
    ensures RowStep(rows, q, before, row, w, verdict, full, w')
  {
    var first, matching := JudgeRow(rows, q, before, row);
    BelowAt(rows, before, row);
    if !first {
      return false, w, Passed;
    }
    var record := rows[row].record;
    if |w.entries| > 0 && w.chars + CharCost(record) > CharBudget(q) {
      return true, w, Refused;
    }
    var chars, entries := TakeRow(record, matching, w.chars, w.entries);
    full := |entries| >= q.limit || (|entries| > 0 && chars + RECORD_OVERHEAD_CHARS > CharBudget(q));
    return full, Walk(entries, chars, Some(rows[row].at)), Taken;
  }

  lemma TakenFills(rows: seq<Row>, q: Query, before: Option<Position>, row: nat, c: nat, w: Walk, full: bool, w': Walk)
    requires row < |rows| && Filling(rows, q, before, row + 1, c, w)
    requires RowStep(rows, q, before, row, w, Taken, full, w')
    ensures Filling(rows, q, before, row, row, w')
  {
    var own := OwnedMatch(RecordsOf(rows), q, row);
    FillTakes(rows, q, before, row, c, w, own, w'.chars);
    assert w' == Walk(own + w.entries, w'.chars, Some(rows[row].at));
  }

  lemma RefusedIsFull(rows: seq<Row>, q: Query, before: Option<Position>, row: nat, c: nat, w: Walk)
    requires row < |rows| && Filling(rows, q, before, row + 1, c, w) && w.entries != []
    ensures w.next.Some?
  {
    FillingTakes(rows, q, before, row + 1, c, w);
  }

  lemma StepIsSmall(rows: seq<Row>, q: Query, before: Option<Position>, row: nat, c: nat, w: Walk, verdict: Verdict,
      full: bool, w': Walk)
    requires row < |rows| && Filling(rows, q, before, row + 1, c, w)
    requires RowStep(rows, q, before, row, w, verdict, full, w')
    ensures |w'.entries| <= |w.entries| + 1
    ensures full ==> w'.next.Some? && (w'.entries != [] || q.limit <= 0)
  {
    if verdict.Refused? {
      RefusedIsFull(rows, q, before, row, c, w);
    }
  }

  /** What a caller of a page may rely on besides its contents. */
  ghost predicate PageWithinLimits(q: Query, entries: seq<Record>, next: Option<Position>) {
    && |entries| <= (if q.limit < 1 then 1 else q.limit)
    && (TotalCost(entries) <= CharBudget(q) || |entries| == 1)
    && (next.Some? && 1 <= q.limit ==> entries != [])
  }

  lemma FillStarts(rows: seq<Row>, q: Query, before: Option<Position>)
    ensures Filling(rows, q, before, |rows|, Below(rows, before), Walk([], 0, None))
  {
  }

  lemma PageDone(rows: seq<Row>, q: Query, before: Option<Position>, row: nat, c: nat, w: Walk)
    requires Ordered(rows) && Filling(rows, q, before, row, c, w)
    requires |w.entries| <= 1 || |w.entries| <= q.limit
    ensures w.next.Some? ==>
              PageAnswers(rows, q, before, w.entries, w.next)
                && (w.entries != [] || q.limit <= 0 ==> PageWithinLimits(q, w.entries, w.next))
    ensures row == 0 ==> PageAnswers(rows, q, before, w.entries, None) && PageWithinLimits(q, w.entries, None)
  {
    WalkAnswers(rows, q, before, row, c, w);
  }

  /** The page is still being filled, and has room for another entry. */
  ghost predicate Going(rows: seq<Row>, q: Query, before: Option<Position>, row: nat, c: nat, w: Walk) {
    Filling(rows, q, before, row, c, w) && (w.entries == [] || |w.entries| < q.limit)
  }

  /** The answer to a page request. */
  ghost predicate IsPage(rows: seq<Row>, q: Query, before: Option<Position>, entries: seq<Record>,
      next: Option<Position>) {
    PageAnswers(rows, q, before, entries, next) && PageWithinLimits(q, entries, next)
  }

  lemma RefusedLeads(rows: seq<Row>, q: Query, before: Option<Position>, above: nat, c: nat, w: Walk)
    requires Ordered(rows) && 0 < above <= |rows| && Going(rows, q, before, above, c, w) && w.entries != []
    ensures IsPage(rows, q, before, w.entries, w.next)
  {
    RefusedIsFull(rows, q, before, above - 1, c, w);
    PageDone(rows, q, before, above, c, w);
  }

  lemma TakenLeads(rows: seq<Row>, q: Query, before: Option<Position>, above: nat, row: nat, c: nat, w: Walk,
      full: bool, w': Walk)
    requires Ordered(rows) && above == row + 1 <= |rows| && Going(rows, q, before, above, c, w)
    requires RowStep(rows, q, before, row, w, Taken, full, w')
    ensures if full then IsPage(rows, q, before, w'.entries, w'.next) else Going(rows, q, before, row, row, w')
  {
    TakenFills(rows, q, before, row, c, w, full, w');
    StepIsSmall(rows, q, before, row, c, w, Taken, full, w');
    if full {
      PageDone(rows, q, before, row, row, w');
    }
  }

  /** One row further the page is still being filled, or it is done. */
  lemma StepLeads(rows: seq<Row>, q: Query, before: Option<Position>, above: nat, row: nat, c: nat, w: Walk,
                  verdict: Verdict, full: bool, w': Walk)
    requires Ordered(rows) && above == row + 1 <= |rows| && Going(rows, q, before, above, c, w)
    requires RowStep(rows, q, before, row, w, verdict, full, w')
    ensures if full then IsPage(rows, q, before, w'.entries, w'.next)
            else Going(rows, q, before, row, if verdict.Taken? then row else c, w')
  {
    match verdict
    case Passed => FillSkips(rows, q, before, row, c, w);
    case Refused => RefusedLeads(rows, q, before, above, c, w);
    case Taken => TakenLeads(rows, q, before, above, row, c, w, full, w');
  }

  lemma GoingIsCosted(rows: seq<Row>, q: Query, before: Option<Position>, row: nat, c: nat, w: Walk)
    requires Going(rows, q, before, row, c, w)
    ensures Costed(q, w)
  {
  }

  lemma PageStarts(rows: seq<Row>, q: Query, before: Option<Position>)
    ensures Going(rows, q, before, |rows|, Below(rows, before), Walk([], 0, None))
  {
    FillStarts(rows, q, before);
  }

  lemma PageEnds(rows: seq<Row>, q: Query, before: Option<Position>, row: nat, c: nat, w: Walk)
    requires UpToDate(rows) && row == 0 && Going(rows, q, before, row, c, w)
    ensures IsPage(rows, q, before, w.entries, None)
  {
    PageDone(rows, q, before, row, c, w);
  }

  /** The body of the page loop. */
  method AdvancePage(rows: seq<Row>, q: Query, before: Option<Position>, row: nat, ghost c: nat, w: Walk)
    returns (full: bool, w': Walk, ghost c': nat)
    requires UpToDate(rows) && row < |rows| && Going(rows, q, before, row + 1, c, w)
    ensures if full then IsPage(rows, q, before, w'.entries, w'.next) else Going(rows, q, before, row, c', w')
  {
    GoingIsCosted(rows, q, before, row + 1, c, w);
    var verdict;
    full, w', verdict := PageRow(rows, q, before, row, w);
    StepLeads(rows, q, before, row + 1, row, c, w, verdict, full, w');
    c' := if verdict.Taken? then row else c;
  }

  /** `searchMessageHistoryIndexResult` with a page: a record over the budget waits for the next page. */
  method SearchPage(rows: seq<Row>, q: Query, before: Option<Position>)
    returns (entries: seq<Record>, next: Option<Position>)
    requires UpToDate(rows)
    ensures IsPage(rows, q, before, entries, next)
  {
    var w := Walk([], 0, None);
    ghost var c: nat := Below(rows, before);
    var row := |rows|;
    PageStarts(rows, q, before);
    while row > 0
      invariant 0 <= row <= |rows| && Going(rows, q, before, row, c, w)
    {
      row := row - 1;
      var full;
      full, w, c := AdvancePage(rows, q, before, row, c, w);
      if full {
        return w.entries, w.next;
      }
    }
    PageEnds(rows, q, before, row, c, w);
    return w.entries, None;
  }

  lemma {:induction false} PrependCost(r: Record, s: seq<Record>)
    ensures TotalCost([r] + s) == CharCost(r) + TotalCost(s)
  {
    if s == [] {
      assert [r] + s == [r] && [r][..0] == [];
    } else {
      PrependCost(r, s[..|s| - 1]);
      assert ([r] + s)[..|s|] == [r] + s[..|s| - 1];
    }
  }
}
