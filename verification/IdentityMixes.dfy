/** Logs that mix events with and without citations: exactly when their order does not matter. An
    event without citations replaces whatever is current before it, so it depends on its place. */
module IdentityMixes {
  import opened Records
  import opened IdentityHeads
  import opened IdentityViews

  type Log = seq<Event<Entry>>

  /** Every event is there once, under an id of its own. */
  ghost predicate DistinctEvents(log: Log) {
    IdsIdentify(log) && forall e <- log :: multiset(log)[e] == 1
  }

  ghost predicate Uncited(log: Log, e: Event<Entry>) {
    e in log && e.id !in Explicit(log)
  }

  /** Some event is not cited, and an event without citations has no other uncited one beside it. */
  ghost predicate OrderFree(log: Log) {
    || |log| <= 1
    || ((exists e :: Uncited(log, e))
        && forall x <- log, e | Uncited(log, e) :: x.supersedes.None? ==> x == e)
  }

  lemma DistinctInAnyOrder(log: Log, other: Log)
    requires DistinctEvents(log) && multiset(other) == multiset(log)
    ensures DistinctEvents(other)
  {
    forall e ensures e in other <==> e in log {
      SameMembers(other, log, e);
    }
  }

  lemma UncitedInAnyOrder(log: Log, other: Log, e: Event<Entry>)
    requires multiset(other) == multiset(log)
    ensures Uncited(other, e) <==> Uncited(log, e)
  {
    ExplicitIgnoresOrder(other, log);
    SameMembers(other, log, e);
  }

  // ---------------------------------------------------------------- what one order shows

  /** After the pass every event is cited, replaced or current, and nothing else is replaced. */
  lemma {:induction false} WalkedCovers(s: Log, explicit: set<string>)
    requires forall e <- s :: Cited(e) <= explicit
    ensures forall e <- s :: e.id in explicit + Walked(s, explicit).inferred + Walked(s, explicit).current
    ensures Walked(s, explicit).inferred + Walked(s, explicit).current <= explicit + Ids(s)
  {
    if s != [] {
      var n := |s| - 1;
      WalkedCovers(s[..n], explicit);
      assert s == s[..n] + [s[n]];
      assert Ids(s) == Ids(s[..n]) + {s[n].id};
    }
  }

  lemma AllCitesAreExplicit(log: Log)
    ensures forall e <- log :: Cited(e) <= Explicit(log)
  {
    forall e | e in log ensures Cited(e) <= Explicit(log) {
      CitedIsExplicit(log, e);
    }
  }

  lemma WalkedEnd(s: Log, e: Event<Entry>, explicit: set<string>)
    ensures Walked(s + [e], explicit) == Advance(Walked(s, explicit), e, explicit)
  {
    assert (s + [e])[..|s|] == s;
  }

  lemma LiveEnd(s: Log, e: Event<Entry>, superseded: set<string>)
    ensures Live(s + [e], superseded) == Live(s, superseded) + if e.id in superseded then [] else [e]
  {
    assert (s + [e])[..|s|] == s;
  }

  lemma EndIsNew(s: Log, e: Event<Entry>)
    requires DistinctEvents(s + [e])
    ensures e.id !in Ids(s)
  {
    assert e in s + [e] && multiset(s + [e])[e] == multiset(s)[e] + 1;
    assert e !in s;
    forall d | d in s ensures d.id != e.id {
      assert d in s + [e];
    }
  }

  /** An event without citations at the end replaces everything before it. */
  lemma ImplicitLast(s: Log, x: Event<Entry>)
    requires DistinctEvents(s + [x]) && x.supersedes.None?
    ensures Heads(s + [x]) == [x]
  {
    var log := s + [x];
    var explicit, dead := Explicit(log), Superseded(log);
    AllCitesAreExplicit(log);
    assert forall e <- s :: e in log;
    WalkedCovers(s, explicit);
    WalkedEnd(s, x, explicit);
    EndIsNew(s, x);
    LiveEnd(s, x, dead);
    NoneLive(s, dead);
    assert x in log;
  }

  /** An uncited event at the end is a head. */
  lemma UncitedLast(s: Log, e: Event<Entry>)
    requires DistinctEvents(s + [e]) && Uncited(s + [e], e)
    ensures e in Heads(s + [e]) && e.id !in Superseded(s + [e])
  {
    var log := s + [e];
    var explicit := Explicit(log);
    AllCitesAreExplicit(log);
    assert forall d <- s :: d in log;
    WalkedCovers(s, explicit);
    WalkedEnd(s, e, explicit);
    EndIsNew(s, e);
    LiveEnd(s, e, Superseded(log));
  }

  /** When all events are cited the last one is shown. */
  lemma AllCited(log: Log)
    requires log != [] && forall e :: !Uncited(log, e)
    ensures Heads(log) == [log[|log| - 1]]
  {
    forall e | e in log ensures e.id in Superseded(log) {
      assert !Uncited(log, e);
    }
    NoneLive(log, Superseded(log));
  }

  /** Only `x` lacks citations and only `x` is uncited: nothing is current when it comes. */
  lemma {:induction false} WalkedAroundOne(s: Log, x: Event<Entry>, explicit: set<string>)
    requires multiset(s)[x] <= 1
    requires forall e <- s :: Cited(e) <= explicit && (e.supersedes.None? ==> e == x) && (e.id in explicit || e == x)
    ensures Walked(s, explicit).inferred <= explicit
    ensures Walked(s, explicit).current <= if x in s then {x.id} else {}
  {
    if s != [] {
      var n := |s| - 1;
      assert s == s[..n] + [s[n]];
      assert multiset(s) == multiset(s[..n]) + multiset{s[n]};
      WalkedAroundOne(s[..n], x, explicit);
    }
  }

  lemma OneUncited(log: Log, x: Event<Entry>)
    requires DistinctEvents(log) && Uncited(log, x)
    requires forall e :: Uncited(log, e) ==> e == x
    requires forall e <- log :: e.supersedes.None? ==> e == x
    ensures multiset(Heads(log)) == multiset{x}
  {
    var explicit := Explicit(log);
    AllCitesAreExplicit(log);
    forall e | e in log ensures e.id in explicit || e == x {
      assert Uncited(log, e) || e.id in explicit;
    }
    WalkedAroundOne(log, x, explicit);
    var live := Live(log, Superseded(log));
    forall e ensures multiset(live)[e] == multiset{x}[e] {
      LiveCounts(log, Superseded(log), e);
      assert e !in log ==> multiset(log)[e] == 0;
    }
    assert x in multiset(live);
  }

  // ---------------------------------------------------------------- heads

  lemma OrderFreeHeads(log: Log, other: Log)
    requires DistinctEvents(log) && OrderFree(log) && multiset(other) == multiset(log)
    ensures multiset(Heads(other)) == multiset(Heads(log))
  {
    if |log| <= 1 {
      SameLength(other, log);
      if log != [] {
        OneEventHasOneOrder(log, other, log[0]);
      }
    } else if x :| x in log && x.supersedes.None? {
      var e :| Uncited(log, e);
      assert x == e;
      DistinctInAnyOrder(log, other);
      forall d ensures Uncited(other, d) <==> Uncited(log, d) {
        UncitedInAnyOrder(log, other, d);
      }
      forall d | d in other && d.supersedes.None? ensures d == x {
        SameMembers(other, log, d);
        assert d in log && Uncited(log, x);
      }
      OneUncited(log, x);
      OneUncited(other, x);
    } else {
      var e :| Uncited(log, e);
      ExplicitLogIsItsCitations(log);
      assert e.id !in Superseded(log);
      HeadsIgnoreOrder(log, other);
    }
  }

  lemma MovedToEnd(log: Log, e: Event<Entry>) returns (s: Log)
    requires e in log
    ensures multiset(s + [e]) == multiset(log)
  {
    var other := MovedLast(log, e);
    s := other[..|other| - 1];
    assert s + [e] == other;
  }

  /** When the condition fails, one order shows only `x`, and another one has `e` among its heads. */
  lemma OrderDecides(log: Log) returns (x: Event<Entry>, e: Event<Entry>, first: Log, second: Log)
    requires DistinctEvents(log) && !OrderFree(log)
    ensures x in log && e in log && x != e
    ensures multiset(first) == multiset(second) == multiset(log)
    ensures Heads(first) == [x] && e in Heads(second)
  {
    if a, b :| a in log && Uncited(log, b) && a.supersedes.None? && a != b {
      x, e := a, b;
      var s := MovedToEnd(log, x);
      var t := MovedToEnd(log, e);
      first, second := s + [x], t + [e];
      DistinctInAnyOrder(log, first);
      DistinctInAnyOrder(log, second);
      ImplicitLast(s, x);
      UncitedInAnyOrder(log, second, e);
      UncitedLast(t, e);
    } else {
      x, e := log[0], log[1];
      TwoPlaces(log);
      var s := MovedToEnd(log, x);
      var t := MovedToEnd(log, e);
      first, second := s + [x], t + [e];
      forall d ensures !Uncited(log, d) && !Uncited(first, d) && !Uncited(second, d) {
        UncitedInAnyOrder(log, first, d);
        UncitedInAnyOrder(log, second, d);
      }
      AllCited(first);
      AllCited(second);
    }
  }

  lemma TwoPlaces(log: Log)
    requires DistinctEvents(log) && 2 <= |log|
    ensures log[0] != log[1]
  {
    assert log == [log[0], log[1]] + log[2..];
    assert log[0] in log;
  }

  /** The heads of a log are the same for every order if and only if it has one event, or some
      event is not cited and none without citations has another uncited one beside it. */
  lemma HeadsConvergeExactly(log: Log)
    requires DistinctEvents(log)
    ensures HeadsConverge(log) <==> OrderFree(log)
  {
    if OrderFree(log) {
      forall other | multiset(other) == multiset(log) ensures multiset(Heads(other)) == multiset(Heads(log)) {
        OrderFreeHeads(log, other);
      }
    } else {
      var x, e, first, second := OrderDecides(log);
      assert e !in multiset(Heads(first)) && e in multiset(Heads(second));
    }
  }

  // ---------------------------------------------------------------- what is shown

  ghost predicate DistinctSubstance(log: Log) {
    forall a <- log, b <- log :: a != b ==> Substance(a.record) != Substance(b.record)
  }

  lemma DisagreeingHeads(heads: Log, a: Event<Entry>, b: Event<Entry>)
    requires a in heads && b in heads && Substance(a.record) != Substance(b.record)
    ensures Collapsed(heads).conflict.Some?
  {
    SortSorts(ById, heads);
    SameMembers(Sort(ById, heads), heads, a);
    SameMembers(Sort(ById, heads), heads, b);
  }

  lemma OneOrAnother(x: Event<Entry>, e: Event<Entry>, heads: Log)
    requires e in heads && Substance(x.record) != Substance(e.record)
    ensures Collapsed(heads) != Collapsed([x])
  {
    SingleHead(x);
    SingleSubstance(x);
    if Collapsed(heads).conflict.None? {
      forall h | h in heads ensures Substance(h.record) == Substance(e.record) {
        if Substance(h.record) != Substance(e.record) {
          DisagreeingHeads(heads, h, e);
        }
      }
      CollapsedSubstance(heads, e);
    }
  }

  lemma CollapsedSubstance(heads: Log, e: Event<Entry>)
    requires e in heads && forall h <- heads :: Substance(h.record) == Substance(e.record)
    ensures Substance(Collapsed(heads).record) == Substance(e.record)
  {
    SortSorts(ById, heads);
    var sorted := Sort(ById, heads);
    SameLength(sorted, heads);
    var latest := MergedIsLatest(sorted);
    SameMembers(sorted, heads, latest);
  }

  /** Between events that all differ in substance, the same condition decides about the view. */
  lemma ShownConvergesExactly(log: Log)
    requires DistinctEvents(log) && DistinctSubstance(log)
    ensures ShownConverges(log) <==> OrderFree(log)
  {
    if OrderFree(log) {
      forall other | multiset(other) == multiset(log) ensures Shown(other) == Shown(log) {
        SameShown(log, other);
      }
    } else {
      var x, e, first, second := OrderDecides(log);
      OneOrAnother(x, e, Heads(second));
      assert Shown(first) != Shown(second);
    }
  }

  lemma SameShown(log: Log, other: Log)
    requires DistinctEvents(log) && OrderFree(log) && multiset(other) == multiset(log)
    ensures Shown(other) == Shown(log)
  {
    SameLength(other, log);
    if log != [] {
      OrderFreeHeads(log, other);
      HeadsAreEvents(log);
      SameLength(Heads(other), Heads(log));
      CollapsedIgnoresOrder(Heads(log), Heads(other));
    }
  }

  lemma {:induction false} NothingCited(log: Log)
    requires forall e <- log :: e.supersedes.None?
    ensures Explicit(log) == {}
  {
    if log != [] {
      NothingCited(log[..|log| - 1]);
      assert log[|log| - 1] in log;
    }
  }

  lemma TwoEvents(a: Event<Entry>, b: Event<Entry>)
    requires a.id != b.id && Substance(a.record) != Substance(b.record)
    ensures DistinctEvents([a, b]) && DistinctSubstance([a, b])
  {
    assert multiset([a, b]) == multiset{a, b};
  }

  /** Two events without citations: the later one is live, and which one that is the order decides. */
  lemma MixedLogsDiverge(r: Entry, r': Entry)
    requires Substance(r) != Substance(r')
    ensures var log := [Event("a", r, None), Event("b", r', None)];
            HasLiveEvent(log) && !ShownConverges(log) && !HeadsConverge(log)
  {
    var a, b := Event("a", r, None), Event("b", r', None);
    var log := [a, b];
    assert log == [a] + [b] && a in log && b in log;
    TwoEvents(a, b);
    NothingCited(log);
    UncitedLast([a], b);
    assert Uncited(log, a) && Uncited(log, b);
    HeadsConvergeExactly(log);
    ShownConvergesExactly(log);
  }
}
