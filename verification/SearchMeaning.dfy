/** What every reader and search answers, field by field. */
module SearchMeaning {
  import opened Records
  import opened FirstWrite
  import opened RecentItems
  import OrderedSets

  /** The text is somewhere in the haystack. */
  ghost predicate IsIn(text: Text, haystack: Text) {
    exists i, j :: 0 <= i <= j <= |haystack| && haystack[i..j] == text
  }

  /** The record is the first write of its key and has every field that the query asks for. */
  ghost predicate IsWanted(records: seq<Record>, q: Query, r: Record) {
    && IsFirst(records, r)
    && (q.adapter != "" ==> r.adapter == q.adapter)
    && (q.channel != "" ==> r.channel == q.channel)
    && (q.kind != "" ==> r.kind == q.kind)
    && (q.sender != "" ==> r.sender == q.sender)
    && (q.target != "" ==> r.target == q.target)
    && (q.conversationKey != "" ==> r.conversationKey == q.conversationKey)
    && (q.afterSequence.Some? ==> r.sequence > q.afterSequence.value)
    && (q.beforeSequence.Some? ==> r.sequence <= q.beforeSequence.value)
    && (q.from.Some? ==> r.time >= q.from.value)
    && (q.to.Some? ==> r.time <= q.to.value)
    && (q.terms != [] && q.matchAll ==> forall t <- q.terms :: IsIn(t, r.haystack))
    && (q.terms != [] && !q.matchAll ==> exists t <- q.terms :: IsIn(t, r.haystack))
    && (forall id <- q.excludedMessageIds :: id != r.messageId)
  }

  lemma IncludesIff(haystack: Text, term: Text)
    ensures Includes(haystack, term) <==> IsIn(term, haystack)
  {
    if i :| OccursAt(haystack, term, i) {
      assert haystack[i..i + |term|] == term;
    }
    if i, j :| 0 <= i <= j <= |haystack| && haystack[i..j] == term {
      assert OccursAt(haystack, term, i);
    }
  }

  lemma TermsIff(r: Record, q: Query)
    ensures TermsMatch(r, q)
            <==> && (q.terms != [] && q.matchAll ==> forall t <- q.terms :: IsIn(t, r.haystack))
                 && (q.terms != [] && !q.matchAll ==> exists t <- q.terms :: IsIn(t, r.haystack))
  {
    forall t | t in q.terms ensures Includes(r.haystack, t) <==> IsIn(t, r.haystack) {
      IncludesIff(r.haystack, t);
    }
  }

  lemma {:induction false} FilterMembers(s: seq<Record>, q: Query, r: Record)
    ensures r in Filter(s, q) <==> r in s && Matches(r, q)
  {
    if s != [] {
      var n := |s| - 1;
      FilterMembers(s[..n], q, r);
      assert s == s[..n] + [s[n]];
    }
  }

  ghost predicate IsFirst(s: seq<Record>, r: Record) {
    exists i :: 0 <= i < |s| && s[i] == r && forall j :: 0 <= j < i ==> s[j].key != r.key
  }

  lemma FirstOfLonger(s: seq<Record>, x: Record, r: Record)
    ensures IsFirst(s + [x], r) <==> IsFirst(s, r) || (r == x && forall j :: 0 <= j < |s| ==> s[j].key != x.key)
  {
    var t := s + [x];
    if i :| 0 <= i < |s| && s[i] == r && forall j :: 0 <= j < i ==> s[j].key != r.key {
      assert t[i] == r && forall j :: 0 <= j < i ==> t[j].key != r.key;
    }
    if r == x && forall j :: 0 <= j < |s| ==> s[j].key != x.key {
      assert t[|s|] == r && forall j :: 0 <= j < |s| ==> t[j].key != r.key;
    }
    if i :| 0 <= i < |t| && t[i] == r && forall j :: 0 <= j < i ==> t[j].key != r.key {
      assert forall j :: 0 <= j < i ==> t[j] == s[j];
      assert i < |s| ==> s[i] == r;
    }
  }

  lemma {:induction false} DedupeMembers(s: seq<Record>, r: Record)
    ensures r in Dedupe(s) <==> IsFirst(s, r)
  {
    if s != [] {
      var n := |s| - 1;
      DedupeMembers(s[..n], r);
      assert s == s[..n] + [s[n]];
      FirstOfLonger(s[..n], s[n], r);
      assert forall j :: 0 <= j < n ==> s[..n][j] == s[j];
    }
  }

  lemma WantedIff(records: seq<Record>, q: Query, r: Record)
    ensures r in Filter(Dedupe(records), q) <==> IsWanted(records, q, r)
  {
    FilterMembers(Dedupe(records), q, r);
    DedupeMembers(records, r);
    TermsIff(r, q);
  }

  /** Every record that is answered is wanted. */
  lemma AnswersAreWanted(records: seq<Record>, q: Query, r: Record)
    requires r in Recent(records, q)
    ensures IsWanted(records, q, r)
  {
    var pool := Filter(Dedupe(records), q);
    if q.limit >= 0 {
      NewestRespectsLimits(pool, q.limit, false, 0, CharBudget(q));
    }
    WantedIff(records, q, r);
  }

  /** When all that is wanted fits, it is all answered. */
  lemma WantedIsAnswered(records: seq<Record>, q: Query, r: Record)
    requires |Filter(Dedupe(records), q)| <= q.limit && TotalCost(Filter(Dedupe(records), q)) <= CharBudget(q)
    ensures r in Recent(records, q) <==> IsWanted(records, q, r)
  {
    var pool := Filter(Dedupe(records), q);
    NewestWithinBudgetIsSuffix(pool, q.limit, false, 0, CharBudget(q));
    OrderedSets.ShortIsLast(pool, q.limit);
    WantedIff(records, q, r);
  }

  /** Older records are selected as what the newer ones leave of places and budget. */
  ghost predicate Splits(older: seq<Record>, newer: seq<Record>, room: nat, taken: bool, chars: nat, budget: int) {
    var n := Newest(newer, room, taken, chars, budget);
    && |n| <= room
    && Newest(older + newer, room, taken, chars, budget)
       == Newest(older, room - |n|, taken || n != [], chars + TotalCost(n), budget) + n
  }

  /** The newest record is taken: the others have one place less. */
  lemma NewestTaken(s: seq<Record>, r: Record, room: nat, taken: bool, chars: nat, budget: int)
    requires 0 < room && (!taken || chars + CharCost(r) <= budget)
    ensures Newest(s + [r], room, taken, chars, budget)
         == Newest(s, room - 1, true, chars + CharCost(r), budget) + [r]
  {
    assert (s + [r])[..|s|] == s;
  }

  lemma NewestPassed(s: seq<Record>, r: Record, room: nat, chars: nat, budget: int)
    requires 0 < room && chars + CharCost(r) > budget
    ensures Newest(s + [r], room, true, chars, budget) == Newest(s, room, true, chars, budget)
  {
    assert (s + [r])[..|s|] == s;
  }

  lemma SplitsTaken(older: seq<Record>, newer: seq<Record>, r: Record, room: nat, taken: bool, chars: nat, budget: int)
    requires 0 < room && (!taken || chars + CharCost(r) <= budget)
    requires Splits(older, newer, room - 1, true, chars + CharCost(r), budget)
    ensures Splits(older, newer + [r], room, taken, chars, budget)
  {
    assert older + (newer + [r]) == (older + newer) + [r];
    NewestTaken(newer, r, room, taken, chars, budget);
    NewestTaken(older + newer, r, room, taken, chars, budget);
    TotalCostAppend(Newest(newer, room - 1, true, chars + CharCost(r), budget), r);
  }

  lemma SplitsPassed(older: seq<Record>, newer: seq<Record>, r: Record, room: nat, chars: nat, budget: int)
    requires 0 < room && chars + CharCost(r) > budget
    requires Splits(older, newer, room, true, chars, budget)
    ensures Splits(older, newer + [r], room, true, chars, budget)
  {
    assert older + (newer + [r]) == (older + newer) + [r];
    NewestPassed(newer, r, room, chars, budget);
    NewestPassed(older + newer, r, room, chars, budget);
  }

  lemma SplitsTrivially(older: seq<Record>, newer: seq<Record>, room: nat, taken: bool, chars: nat, budget: int)
    requires newer == [] || room == 0
    ensures Splits(older, newer, room, taken, chars, budget)
  {
    NoRoom(newer, room, taken, chars, budget);
    if room == 0 {
      NoRoom(older, room, taken, chars, budget);
      NoRoom(older + newer, room, taken, chars, budget);
    } else {
      assert older + newer == older;
    }
  }

  lemma {:induction false} NewestSplits(older: seq<Record>, newer: seq<Record>, room: nat, taken: bool, chars: nat,
      budget: int)
    ensures Splits(older, newer, room, taken, chars, budget)
    decreases |newer|
  {
    if newer == [] || room == 0 {
      SplitsTrivially(older, newer, room, taken, chars, budget);
    } else {
      var k := |newer| - 1;
      var front, r := newer[..k], newer[k];
      assert newer == front + [r];
      if taken && chars + CharCost(r) > budget {
        NewestSplits(older, front, room, taken, chars, budget);
        SplitsPassed(older, front, r, room, chars, budget);
      } else {
        NewestSplits(older, front, room - 1, true, chars + CharCost(r), budget);
        SplitsTaken(older, front, r, room, taken, chars, budget);
      }
    }
  }

  lemma NoRoom(s: seq<Record>, room: nat, taken: bool, chars: nat, budget: int)
    requires s == [] || room == 0
    ensures Newest(s, room, taken, chars, budget) == []
  {
  }

  lemma NewestOfOne(r: Record, room: nat, taken: bool, chars: nat, budget: int)
    ensures Newest([r], room, taken, chars, budget)
         == if 0 < room && (!taken || chars + CharCost(r) <= budget) then [r] else []
  {
    assert [r][..0] == [];
  }

  /** A record is left out exactly when its places are gone, or something newer was taken and it
      does not fit behind that; one that does not fit never keeps an older one out. */
  lemma SelectionIsGreedy(older: seq<Record>, r: Record, newer: seq<Record>, limit: nat, budget: int)
    returns (more: seq<Record>)
    ensures var n := Newest(newer, limit, false, 0, budget);
            var fits := |n| < limit && (n == [] || TotalCost(n) + CharCost(r) <= budget);
            Newest(older + ([r] + newer), limit, false, 0, budget) == more + ((if fits then [r] else []) + n)
  {
    var n := Newest(newer, limit, false, 0, budget);
    NewestSplits([r], newer, limit, false, 0, budget);
    NewestOfOne(r, limit - |n|, n != [], TotalCost(n), budget);
    more := RestIsOlder(older, [r] + newer, limit, budget);
  }

  lemma RestIsOlder(older: seq<Record>, newer: seq<Record>, limit: nat, budget: int) returns (more: seq<Record>)
    ensures Newest(older + newer, limit, false, 0, budget) == more + Newest(newer, limit, false, 0, budget)
  {
    NewestSplits(older, newer, limit, false, 0, budget);
    var n := Newest(newer, limit, false, 0, budget);
    more := Newest(older, limit - |n|, n != [], TotalCost(n), budget);
  }

  /** A record costs its text, the overhead, and for each segment its text and forty more. */
  lemma CostCountsSegments(r: Record, length: nat)
    ensures CharCost(r.(segmentLengths := [])) == r.textLength + 160
    ensures CharCost(r.(segmentLengths := r.segmentLengths + [length])) == CharCost(r) + length + 40
  {
    assert (r.segmentLengths + [length])[..|r.segmentLengths|] == r.segmentLengths;
  }

  lemma {:induction false} EachCosts(s: seq<Record>)
    ensures RECORD_OVERHEAD_CHARS * |s| <= TotalCost(s)
  {
    if s != [] {
      EachCosts(s[..|s| - 1]);
    }
  }

  /** A budget below what any record costs, even none at all, still shows the newest match and no more. */
  lemma TinyBudgetShowsOne(records: seq<Record>, q: Query)
    requires q.maxChars.Some? && q.maxChars.value <= RECORD_OVERHEAD_CHARS && 1 <= q.limit
    requires Filter(Dedupe(records), q) != []
    ensures var m := Filter(Dedupe(records), q); Recent(records, q) == [m[|m| - 1]]
  {
    var m := Filter(Dedupe(records), q);
    NewestRespectsLimits(m, q.limit, false, 0, CharBudget(q));
    EachCosts(Recent(records, q));
  }
}
