/** The plain scan over the ledger: dedupe, filter, then take the newest matches that fit. */
module RecentItems {
  import opened Records
  import opened FirstWrite
  import OrderedSets

  /** Walk `s` from its newest end with `room` places and the cost `chars` already spent.
      An item that overflows the budget is passed over, except as the very first one taken.
      The result is oldest first. */
  ghost function Newest(s: seq<Record>, room: int, taken: bool, chars: nat, budget: int): seq<Record> {
    if s == [] || room <= 0 then []
    else
      var n := |s| - 1;
      if taken && chars + CharCost(s[n]) > budget then Newest(s[..n], room, taken, chars, budget)
      else Newest(s[..n], room - 1, true, chars + CharCost(s[n]), budget) + [s[n]]
  }

  /** What `recentMessageContextItems` promises over the records of one or more directories. */
  ghost function Recent(records: seq<Record>, q: Query): seq<Record> {
    Newest(Filter(Dedupe(records), q), q.limit, false, 0, CharBudget(q))
  }

  ghost function TotalCost(s: seq<Record>): nat {
    if s == [] then 0 else TotalCost(s[..|s| - 1]) + CharCost(s[|s| - 1])
  }

  lemma TotalCostAppend(s: seq<Record>, r: Record)
    ensures TotalCost(s + [r]) == TotalCost(s) + CharCost(r)
  {
    assert (s + [r])[..|s|] == s;
  }

  lemma {:induction false} NewestRespectsLimits(s: seq<Record>, room: int, taken: bool, chars: nat, budget: int)
    requires 0 <= room
    ensures var r := Newest(s, room, taken, chars, budget);
            && |r| <= room
            && (chars + TotalCost(r) <= budget || r == [] || (!taken && |r| == 1))
            && (!taken && s != [] && 0 < room ==> r != [] && r[|r| - 1] == s[|s| - 1])
            && forall x <- r :: x in s
  {
    if s != [] && room > 0 {
      var n := |s| - 1;
      if taken && chars + CharCost(s[n]) > budget {
        NewestRespectsLimits(s[..n], room, taken, chars, budget);
      } else {
        var spent := chars + CharCost(s[n]);
        NewestRespectsLimits(s[..n], room - 1, true, spent, budget);
        TotalCostAppend(Newest(s[..n], room - 1, true, spent, budget), s[n]);
      }
    }
  }

  lemma LastStep(s: seq<Record>, n: nat)
    requires s != [] && n > 0
    ensures OrderedSets.Last(s, n) == OrderedSets.Last(s[..|s| - 1], n - 1) + [s[|s| - 1]]
  {
    var front := s[..|s| - 1];
    if n < |s| {
      assert front[|front| - (n - 1)..] + [s[|s| - 1]] == s[|s| - n..];
    }
  }

  lemma NewestTakes(s: seq<Record>, room: nat, taken: bool, chars: nat, budget: int)
    requires s != [] && room > 0 && chars + CharCost(s[|s| - 1]) <= budget
    ensures var n := |s| - 1;
            Newest(s, room, taken, chars, budget)
            == Newest(s[..n], room - 1, true, chars + CharCost(s[n]), budget) + [s[n]]
  {
  }

  lemma LastOfNone(s: seq<Record>, n: nat)
    requires s == [] || n == 0
    ensures OrderedSets.Last(s, n) == []
  {
  }

  /** When the budget covers everything, the result is exactly the last `room` items. */
  lemma {:induction false} NewestWithinBudgetIsSuffix(s: seq<Record>, room: nat, taken: bool, chars: nat, budget: int)
    requires chars + TotalCost(s) <= budget
    ensures Newest(s, room, taken, chars, budget) == OrderedSets.Last(s, room)
  {
    if s == [] || room == 0 {
      LastOfNone(s, room);
    } else {
      var n := |s| - 1;
      NewestTakes(s, room, taken, chars, budget);
      NewestWithinBudgetIsSuffix(s[..n], room - 1, true, chars + CharCost(s[n]), budget);
      LastStep(s, room);
    }
  }

  /** The early stop of the index walk: no record is cheaper than the storage overhead. */
  lemma {:induction false} NothingFitsBelowOverhead(s: seq<Record>, room: int, chars: nat, budget: int)
    requires chars + RECORD_OVERHEAD_CHARS > budget
    ensures Newest(s, room, true, chars, budget) == []
  {
    if s != [] && room > 0 {
      NothingFitsBelowOverhead(s[..|s| - 1], room, chars, budget);
    }
  }

  /** `dedupeRecords`: a map remembers the keys already written. */
  method DedupeRecords(records: seq<Record>) returns (kept: seq<Record>)
    ensures kept == Dedupe(records)
  {
    var byId: set<string> := {};
    kept := [];
    for i := 0 to |records|
      invariant byId == Keys(records[..i])
      invariant kept == Dedupe(records[..i])
    {
      assert records[..i + 1] == records[..i] + [records[i]];
      DedupeAppendOne(records[..i], records[i]);
      KeysAppendOne(records[..i], records[i]);
      if records[i].key !in byId {
        byId := byId + {records[i].key};
        kept := kept + [records[i]];
      }
    }
    assert records[..|records|] == records;
  }

  method IncludesTerm(haystack: Text, term: Text) returns (found: bool)
    ensures found <==> Includes(haystack, term)
  {
    found := false;
    for i := 0 to |haystack| + 1
      invariant !found && forall j :: 0 <= j < i ==> !OccursAt(haystack, term, j)
    {
      if i + |term| <= |haystack| && haystack[i..i + |term|] == term {
        assert OccursAt(haystack, term, i);
        return true;
      }
    }
  }

  /** `matchesMessageQuery` with its every/some loop over the terms. */
  method MatchesQuery(r: Record, q: Query) returns (yes: bool)
    ensures yes <==> Matches(r, q)
  {
    if !FieldsMatch(r, q) || !BoundsMatch(r, q) || r.messageId in q.excludedMessageIds {
      return false;
    }
    var every, some := true, false;
    for i := 0 to |q.terms|
      invariant every <==> forall t <- q.terms[..i] :: Includes(r.haystack, t)
      invariant some <==> exists t <- q.terms[..i] :: Includes(r.haystack, t)
    {
      var found := IncludesTerm(r.haystack, q.terms[i]);
      assert q.terms[..i + 1] == q.terms[..i] + [q.terms[i]];
      every, some := every && found, some || found;
    }
    assert q.terms[..|q.terms|] == q.terms;
    yes := q.terms == [] || if q.matchAll then every else some;
  }

  method FilterRecords(records: seq<Record>, q: Query) returns (filtered: seq<Record>)
    ensures filtered == Filter(records, q)
  {
    filtered := [];
    for i := 0 to |records|
      invariant filtered == Filter(records[..i], q)
    {
      assert records[..i + 1][..i] == records[..i];
      var yes := MatchesQuery(records[i], q);
      if yes {
        filtered := filtered + [records[i]];
      }
    }
    assert records[..|records|] == records;
  }

  /** The walk from the newest match back, with its budget. */
  method SelectNewest(filtered: seq<Record>, limit: nat, budget: int) returns (selected: seq<Record>)
    ensures selected == Newest(filtered, limit, false, 0, budget)
  {
    selected := [];
    var chars: nat := 0;
    var index := |filtered|;
    assert filtered[..index] == filtered;
    while index > 0 && |selected| < limit
      invariant 0 <= index <= |filtered| && |selected| <= limit
      invariant Newest(filtered[..index], limit - |selected|, selected != [], chars, budget) + selected
             == Newest(filtered, limit, false, 0, budget)
    {
      index := index - 1;
      var item := filtered[index];
      assert filtered[..index + 1][..index] == filtered[..index];
      var cost := CharCost(item);
      if |selected| == 0 || chars + cost <= budget {
        ghost var rest := Newest(filtered[..index], limit - |selected| - 1, true, chars + cost, budget);
        assert (rest + [item]) + selected == rest + ([item] + selected);
        selected := [item] + selected;
        chars := chars + cost;
      }
    }
    assert [] + selected == selected;
  }

  /** `recentMessageContextItems`: the records are the directories' archives and current files
      in catalog order. */
  method RecentMessageContextItems(records: seq<Record>, q: Query) returns (entries: seq<Record>)
    ensures entries == Recent(records, q)
  {
    if q.limit <= 0 {
      return [];
    }
    var byId := DedupeRecords(records);
    var filtered := FilterRecords(byId, q);
    entries := SelectNewest(filtered, q.limit, CharBudget(q));
  }
}
