/** What agreeing heads of an unjudged participant are merged into: nothing that any of them knows
    is lost while there is room. */
module IdentityMerges {
  import opened Records
  import opened OrderedSets
  import opened IdentityHeads
  import opened IdentityViews
  import IdentityRetention

  type Log = seq<Event<Entry>>

  /** What the heads know together. */
  ghost function AliasesOf(heads: Log): set<string> {
    set h, x | h in heads && h.record.body.ParticipantBody? && x in h.record.body.aliases :: x
  }

  ghost function EvidenceOf(heads: Log): set<Evidence> {
    set h, e | h in heads && h.record.body.ParticipantBody? && e in h.record.body.evidence :: e
  }

  ghost function Elements<T>(s: seq<T>): set<T> { set x | x in s }

  lemma ElementsAppend<T>(s: seq<T>, x: T)
    ensures Elements(s + [x]) == Elements(s) + {x}
    ensures |Elements(s + [x])| == |Elements(s)| + if x in s then 0 else 1
  {
    assert Elements(s + [x]) == Elements(s) + {x};
    assert x in s ==> Elements(s) + {x} == Elements(s);
  }

  lemma {:induction false} DistinctCounts<T>(s: seq<T>)
    ensures |Distinct(s)| == |Elements(s)|
  {
    if s != [] {
      var n := |s| - 1;
      DistinctCounts(s[..n]);
      assert s == s[..n] + [s[n]];
      ElementsAppend(s[..n], s[n]);
      DistinctAppend(s[..n], s[n]);
    }
  }

  lemma {:induction false} AliasMembers(s: Log, x: string)
    ensures x in AllAliases(s) <==> x in AliasesOf(s)
  {
    if s != [] {
      var n := |s| - 1;
      AliasMembers(s[..n], x);
      assert s == s[..n] + [s[n]];
    }
  }

  lemma {:induction false} EvidenceMembers(s: Log, e: Evidence)
    ensures e in AllEvidence(s) <==> e in EvidenceOf(s)
  {
    if s != [] {
      var n := |s| - 1;
      EvidenceMembers(s[..n], e);
      assert s == s[..n] + [s[n]];
    }
  }

  lemma SameKnowledge(s: Log, t: Log)
    requires multiset(s) == multiset(t)
    ensures AliasesOf(s) == AliasesOf(t) && EvidenceOf(s) == EvidenceOf(t)
  {
    forall e ensures e in s <==> e in t {
      SameMembers(s, t, e);
    }
  }

  /** The first fifty of a list without repeats hold all of a set that has no more. */
  lemma FirstFiftyOfSet<T>(s: seq<T>, all: set<T>)
    requires forall x :: x in s <==> x in all
    ensures forall x <- FirstFifty(Distinct(s)) :: x in all
    ensures |all| <= MAX_LIST ==> forall x <- all :: x in FirstFifty(Distinct(s))
    ensures |all| > MAX_LIST ==> |FirstFifty(Distinct(s))| == MAX_LIST
  {
    DistinctCounts(s);
    assert Elements(s) == all;
    forall x | x in FirstFifty(Distinct(s)) ensures x in all {
      assert x in Distinct(s);
    }
  }

  lemma LastFiftyOfSet<T>(s: seq<T>, all: set<T>)
    requires forall x :: x in s <==> x in all
    ensures forall x <- LastFifty(Distinct(s)) :: x in all
    ensures |all| <= MAX_LIST ==> forall x <- all :: x in LastFifty(Distinct(s))
    ensures |all| > MAX_LIST ==> |LastFifty(Distinct(s))| == MAX_LIST
  {
    DistinctCounts(s);
    assert Elements(s) == all;
  }

  /** The merged record of an unjudged participant knows nothing that no head knows, and everything
      that some head knows as long as that is at most fifty aliases and fifty pieces of evidence. */
  lemma MergedKnowsAll(heads: Log)
    requires heads != [] && Tentative(Merged(heads).body)
    ensures var b := Merged(heads).body;
            && (forall x <- b.aliases :: x in AliasesOf(heads))
            && (forall e <- b.evidence :: e in EvidenceOf(heads))
            && (|AliasesOf(heads)| <= MAX_LIST ==> forall x <- AliasesOf(heads) :: x in b.aliases)
            && (|EvidenceOf(heads)| <= MAX_LIST ==> forall e <- EvidenceOf(heads) :: e in b.evidence)
            && (|AliasesOf(heads)| > MAX_LIST ==> |b.aliases| == MAX_LIST)
            && (|EvidenceOf(heads)| > MAX_LIST ==> |b.evidence| == MAX_LIST)
  {
    var byTime := Sort(ByTime, heads);
    SortSorts(ByTime, heads);
    SameLength(byTime, heads);
    SameKnowledge(byTime, heads);
    forall x ensures x in AllAliases(byTime) <==> x in AliasesOf(heads) {
      AliasMembers(byTime, x);
    }
    forall e ensures e in AllEvidence(byTime) <==> e in EvidenceOf(heads) {
      EvidenceMembers(byTime, e);
    }
    FirstFiftyOfSet(AllAliases(byTime), AliasesOf(heads));
    LastFiftyOfSet(AllEvidence(byTime), EvidenceOf(heads));
  }

  lemma {:induction false} FirstAliasesLead(s: Log)
    requires s != [] && s[0].record.body.ParticipantBody?
    ensures s[0].record.body.aliases <= AllAliases(s)
  {
    var n := |s| - 1;
    if n > 0 {
      FirstAliasesLead(s[..n]);
    } else {
      assert s[..0] == [];
    }
  }

  lemma NewestStay<T>(s: seq<T>, t: seq<T>, x: T)
    requires x in t && x !in s && |t| <= MAX_LIST
    ensures x in LastFifty(Distinct(s + t))
  {
    var d, all := Distinct(s), Distinct(s + t);
    DistinctGrows(s, t);
    assert x in s + t && x in all;
    var i :| 0 <= i < |all| && all[i] == x;
    assert x !in d && forall k :: 0 <= k < |d| ==> all[k] == d[k];
    if |all| > MAX_LIST {
      assert LastFifty(all)[i - (|all| - MAX_LIST)] == x;
    }
  }

  /** Beyond fifty, the aliases of the earliest head stay, and what only the latest head gives as
      evidence. */
  lemma MergedKeepsEnds(heads: Log) returns (byTime: Log)
    requires heads != [] && Tentative(Merged(heads).body) && forall h <- heads :: h.record.body.ParticipantBody?
    ensures multiset(byTime) == multiset(heads) && Sorted(ByTime, byTime) && byTime != []
    ensures byTime[0].record.body.ParticipantBody? && byTime[|byTime| - 1].record.body.ParticipantBody?
    ensures var n, b := |byTime| - 1, Merged(heads).body;
            var first, last := byTime[0].record.body.aliases, byTime[n].record.body.evidence;
            && (forall x <- FirstFifty(Distinct(first)) :: x in b.aliases)
            && (|last| <= MAX_LIST ==> forall e <- last :: e !in EvidenceOf(byTime[..n]) ==> e in b.evidence)
  {
    byTime := Sort(ByTime, heads);
    SortSorts(ByTime, heads);
    SameLength(byTime, heads);
    var n := |byTime| - 1;
    SameMembers(byTime, heads, byTime[0]);
    SameMembers(byTime, heads, byTime[n]);
    var first, last := byTime[0].record.body.aliases, byTime[n].record.body.evidence;
    FirstAliasesLead(byTime);
    var all := AllAliases(byTime);
    assert all == first + all[|first|..];
    IdentityRetention.FirstStay(first, all[|first|..]);
    forall e | e in last && |last| <= MAX_LIST && e !in EvidenceOf(byTime[..n])
      ensures e in LastFifty(Distinct(AllEvidence(byTime)))
    {
      EvidenceMembers(byTime[..n], e);
      NewestStay(AllEvidence(byTime[..n]), last, e);
    }
  }

  /** It shows the latest name that any head carries, and none when none does. */
  lemma MergedParticipantName(heads: Log) returns (named: Option<Event<Entry>>)
    requires heads != [] && Tentative(Merged(heads).body)
    ensures if named.None? then Merged(heads).body.displayName == None && forall e <- heads :: !HasName(e)
            else
              && named.value in heads && HasName(named.value)
              && Merged(heads).body.displayName == NameOf(named.value.record.body)
              && forall e <- heads :: HasName(e) ==> Before(ByTime, e, named.value)
  {
    named := LatestNamed(heads);
  }

  /** Heads that agree are shown without conflict, as their merge in some order. */
  lemma AgreementIsShown(heads: Log) returns (s: Log)
    requires heads != [] && forall a <- heads, b <- heads :: Substance(a.record) == Substance(b.record)
    ensures multiset(s) == multiset(heads) && s != []
    ensures Collapsed(heads) == View(Merged(s), None)
  {
    s := Sort(ById, heads);
    SortSorts(ById, heads);
    SameLength(s, heads);
    forall a, b | a in s && b in s ensures Substance(a.record) == Substance(b.record) {
      SameMembers(s, heads, a);
      SameMembers(s, heads, b);
    }
  }
}
