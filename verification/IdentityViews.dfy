/** The current state of an identity record: the fold of its heads, which shows a conflict when
    concurrent heads disagree. */
module IdentityViews {
  import opened Records
  import opened TextOrder
  import opened OrderedSets
  import Sorting
  import opened IdentityHeads

  const MAX_LIST := 50

  datatype Status = Candidate | Confirmed | Corrected | Retired

  predicate Authoritative(s: Status) { s == Confirmed || s == Corrected }
  predicate Active(s: Status) { s == Candidate || Authoritative(s) }

  /** A stable message account; its record id is a digest of the three fields. */
  datatype Account = Account(platform: string, namespace: string, sender: string)

  /** Participants that were created for an account have recognizable ids. */
  datatype ParticipantId = Observed(account: Account) | ObservedAgain(uuid: string) | Named(name: string)

  datatype TargetKind = ParticipantTarget | OrganizationTarget | ProjectTarget
  datatype Scope = Scope(conversations: seq<string>, projects: seq<string>)

  datatype RelationId =
    | Derived(subject: ParticipantId, kind: TargetKind, target: ParticipantId, relationship: string, scope: Scope)
    | Chosen(name: string)

  datatype Evidence = Evidence(endpoint: string, conversation: string, messageId: string, note: string)
  datatype Link = Link(participant: ParticipantId, status: Status, confidence: real, evidence: seq<Evidence>)

  datatype Kind = Person | Organization | SharedAccount | Automated | Unknown

  datatype Body =
    | AccountBody(account: Account, accountName: Option<string>, isSelf: Option<bool>, links: seq<Link>)
    | ParticipantBody(participant: ParticipantId, kind: Kind, displayName: Option<string>, aliases: seq<string>,
                      habits: seq<string>, status: Status, evidence: seq<Evidence>)
    | RelationBody(relation: RelationId, subject: ParticipantId, targetKind: TargetKind, target: ParticipantId,
                   relationship: string, status: Status, scope: Scope, evidence: seq<Evidence>)

  datatype Entry = Entry(body: Body, updatedAt: string)

  datatype Target =
    | OfAccount(account: Account)
    | OfParticipant(participant: ParticipantId)
    | OfRelation(relation: RelationId)

  function TargetOf(b: Body): Target {
    match b
    case AccountBody(account, _, _, _) => OfAccount(account)
    case ParticipantBody(participant, _, _, _, _, _, _) => OfParticipant(participant)
    case RelationBody(relation, _, _, _, _, _, _, _) => OfRelation(relation)
  }

  datatype Alternative = Alternative(eventId: string, record: Entry)

  /** `conflict` lists the disagreeing heads in id order. */
  datatype View = View(record: Entry, conflict: Option<seq<Alternative>>)

  // ---------------------------------------------------------------- orders

  datatype Order = ById | ByTime

  predicate Before(o: Order, a: Event<Entry>, b: Event<Entry>) {
    match o
    case ById => Leq(a.id, b.id)
    case ByTime =>
      || Less(a.record.updatedAt, b.record.updatedAt)
      || (a.record.updatedAt == b.record.updatedAt && Leq(a.id, b.id))
  }

  function Ordering(o: Order): (Event<Entry>, Event<Entry>) -> bool {
    (a: Event<Entry>, b: Event<Entry>) => Before(o, a, b)
  }

  ghost predicate Sorted(o: Order, s: seq<Event<Entry>>) {
    Sorting.Sorted(s, Ordering(o))
  }

  function Sort(o: Order, s: seq<Event<Entry>>): seq<Event<Entry>> {
    Sorting.Sort(s, Ordering(o))
  }

  lemma BeforeTotal(o: Order, a: Event<Entry>, b: Event<Entry>)
    ensures Before(o, a, b) || Before(o, b, a)
  {
    LeqTotal(a.id, b.id);
    LeqTotal(a.record.updatedAt, b.record.updatedAt);
  }

  lemma BeforeTransitive(o: Order, a: Event<Entry>, b: Event<Entry>, c: Event<Entry>)
    requires Before(o, a, b) && Before(o, b, c)
    ensures Before(o, a, c)
  {
    var x, y, z := a.record.updatedAt, b.record.updatedAt, c.record.updatedAt;
    if o == ById || x == y == z {
      LeqTransitive(a.id, b.id, c.id);
    } else {
      LeqReflexive(y);
      LeqTransitive(x, y, z);
      if x == z {
        LeqAntisymmetric(x, y);
      }
    }
  }

  lemma SortSorts(o: Order, s: seq<Event<Entry>>)
    ensures Sorted(o, Sort(o, s)) && multiset(Sort(o, s)) == multiset(s)
  {
    OrderingOrders(o);
    Sorting.SortSorts(s, Ordering(o));
  }

  lemma OrderingOrders(o: Order)
    ensures Sorting.Orders(Ordering(o))
  {
    var before := Ordering(o);
    forall a, b ensures before(a, b) || before(b, a) {
      BeforeTotal(o, a, b);
    }
    forall a, b, c | before(a, b) && before(b, c) ensures before(a, c) {
      BeforeTransitive(o, a, b, c);
    }
  }

  ghost predicate IdsIdentify(s: seq<Event<Entry>>) {
    forall a <- s, b <- s :: a.id == b.id ==> a == b
  }

  lemma SameMembers(s: seq<Event<Entry>>, t: seq<Event<Entry>>, e: Event<Entry>)
    requires multiset(s) == multiset(t)
    ensures e in s <==> e in t
  {
    Sorting.SameMembers(s, t);
  }

  lemma SortedEndsAgree(s: seq<Event<Entry>>, t: seq<Event<Entry>>)
    requires Sorted(ById, s) && Sorted(ById, t) && multiset(s) == multiset(t) && s != [] && t != []
    requires IdsIdentify(s)
    ensures s[|s| - 1] == t[|t| - 1]
  {
    var a, b := s[|s| - 1], t[|t| - 1];
    SameMembers(s, t, a);
    SameMembers(s, t, b);
    var i :| 0 <= i < |t| && t[i] == a;
    var j :| 0 <= j < |s| && s[j] == b;
    if i < |t| - 1 && j < |s| - 1 {
      LeqAntisymmetric(a.id, b.id);
    }
  }

  lemma WithoutLast(s: seq<Event<Entry>>)
    requires s != []
    ensures multiset(s[..|s| - 1]) == multiset(s) - multiset{s[|s| - 1]}
  {
    assert s == s[..|s| - 1] + [s[|s| - 1]];
  }

  lemma SameLength(s: seq<Event<Entry>>, t: seq<Event<Entry>>)
    requires multiset(s) == multiset(t)
    ensures |s| == |t|
  {
    assert |multiset(s)| == |s| && |multiset(t)| == |t|;
  }

  lemma WithoutLastIdsIdentify(s: seq<Event<Entry>>)
    requires s != [] && IdsIdentify(s)
    ensures IdsIdentify(s[..|s| - 1])
  {
  }

  /** Events with identifying ids have only one order by id. */
  lemma {:induction false} SortedIsUnique(s: seq<Event<Entry>>, t: seq<Event<Entry>>)
    requires Sorted(ById, s) && Sorted(ById, t) && multiset(s) == multiset(t)
    requires IdsIdentify(s)
    ensures s == t
    decreases |s|
  {
    SameLength(s, t);
    if s != [] {
      var n := |s| - 1;
      SortedEndsAgree(s, t);
      WithoutLast(s);
      WithoutLast(t);
      WithoutLastIdsIdentify(s);
      SortedIsUnique(s[..n], t[..n]);
      assert s == s[..n] + [s[n]] && t == t[..n] + [t[n]];
    }
  }

  // ---------------------------------------------------------------- the fold

  function FirstFifty<T>(s: seq<T>): seq<T> {
    if |s| <= MAX_LIST then s else s[..MAX_LIST]
  }

  function LastFifty<T>(s: seq<T>): seq<T> {
    Last(s, MAX_LIST)
  }

  /** A participant that automatic observation made and nobody has judged yet. */
  predicate Tentative(b: Body) {
    b.ParticipantBody? && !b.participant.Named? && b.kind == Unknown && b.status == Candidate
  }

  function NameOf(b: Body): Option<string> {
    if b.AccountBody? then b.accountName else if b.ParticipantBody? then b.displayName else None
  }

  function LatestName(byTime: seq<Event<Entry>>): Option<string> {
    if byTime == [] then None
    else
      var name := NameOf(byTime[|byTime| - 1].record.body);
      if name.Some? && name.value != "" then name else LatestName(byTime[..|byTime| - 1])
  }

  function AllAliases(byTime: seq<Event<Entry>>): seq<string> {
    if byTime == [] then []
    else
      var b := byTime[|byTime| - 1].record.body;
      AllAliases(byTime[..|byTime| - 1]) + if b.ParticipantBody? then b.aliases else []
  }

  function AllEvidence(byTime: seq<Event<Entry>>): seq<Evidence> {
    if byTime == [] then []
    else
      var b := byTime[|byTime| - 1].record.body;
      AllEvidence(byTime[..|byTime| - 1]) + if b.ParticipantBody? then b.evidence else []
  }

  /** `mergedEquivalentRecord`. */
  function Merged(heads: seq<Event<Entry>>): Entry
    requires heads != []
  {
    SortSorts(ByTime, heads);
    assert |multiset(Sort(ByTime, heads))| == |Sort(ByTime, heads)|;
    var byTime := Sort(ByTime, heads);
    var selected := byTime[|byTime| - 1].record;
    var b := selected.body;
    if b.AccountBody? then selected.(body := b.(accountName := LatestName(byTime)))
    else if Tentative(b) then
      selected.(body := b.(displayName := LatestName(byTime), aliases := FirstFifty(Distinct(AllAliases(byTime))),
                           evidence := LastFifty(Distinct(AllEvidence(byTime)))))
    else selected
  }

  /** `conflictComparableRecord`: what heads must agree on. */
  function Substance(r: Entry): Body {
    var b := r.body;
    if b.AccountBody? then b.(accountName := None)
    else if Tentative(b) then b.(displayName := None, aliases := [], evidence := [])
    else b
  }

  function Alternatives(heads: seq<Event<Entry>>): seq<Alternative> {
    if heads == [] then []
    else
      var n := |heads| - 1;
      Alternatives(heads[..n]) + [Alternative(heads[n].id, heads[n].record)]
  }

  predicate Disagree(heads: seq<Event<Entry>>) {
    exists a <- heads, b <- heads :: Substance(a.record) != Substance(b.record)
  }

  function Folded(sorted: seq<Event<Entry>>): View
    requires sorted != []
  {
    View(Merged(sorted), if Disagree(sorted) then Some(Alternatives(sorted)) else None)
  }

  /** `collapseRecordState`. */
  function Collapsed(heads: seq<Event<Entry>>): View
    requires heads != []
  {
    SortSorts(ById, heads);
    assert |multiset(Sort(ById, heads))| == |Sort(ById, heads)|;
    Folded(Sort(ById, heads))
  }

  /** What the program shows for a record with the events `group`. */
  function Shown(group: seq<Event<Entry>>): Option<View> {
    if group == [] then None else Some(Collapsed(Heads(group)))
  }

  /** The participant was made by automatic observation and nobody has judged it yet. */
  predicate IsUnjudgedObservation(b: Body) {
    && b.ParticipantBody? && (b.participant.Observed? || b.participant.ObservedAgain?)
    && b.kind == Unknown && b.status == Candidate
  }

  /** Heads agree when nothing differs but the time, an account's name, and what was only observed of
      a participant that nobody has judged. */
  lemma SubstanceIff(a: Entry, b: Entry)
    ensures Substance(a) == Substance(b)
            <==> || a.body == b.body
                 || (a.body.AccountBody? && b.body.AccountBody? && a.body.account == b.body.account
                     && a.body.isSelf == b.body.isSelf && a.body.links == b.body.links)
                 || (IsUnjudgedObservation(a.body) && IsUnjudgedObservation(b.body)
                     && a.body.participant == b.body.participant && a.body.habits == b.body.habits)
  {
  }

  // ---------------------------------------------------------------- convergence

  lemma CollapsedIgnoresOrder(s: seq<Event<Entry>>, t: seq<Event<Entry>>)
    requires multiset(s) == multiset(t) && IdsIdentify(s) && s != [] && t != []
    ensures Collapsed(s) == Collapsed(t)
  {
    SortSorts(ById, s);
    SortSorts(ById, t);
    forall a, b | a in Sort(ById, s) && b in Sort(ById, s) && a.id == b.id ensures a == b {
      SameMembers(Sort(ById, s), s, a);
      SameMembers(Sort(ById, s), s, b);
    }
    SortedIsUnique(Sort(ById, s), Sort(ById, t));
  }

  lemma {:induction false} CitedIsExplicit(log: seq<Event<Entry>>, e: Event<Entry>)
    requires e in log
    ensures Cited(e) <= Explicit(log)
  {
    var n := |log| - 1;
    if e != log[n] {
      assert e in log[..n];
      CitedIsExplicit(log[..n], e);
    }
  }

  lemma {:induction false} ExplicitIsCited(log: seq<Event<Entry>>, id: string) returns (e: Event<Entry>)
    requires id in Explicit(log)
    ensures e in log && id in Cited(e)
  {
    e := log[|log| - 1];
    if id !in Cited(e) {
      e := ExplicitIsCited(log[..|log| - 1], id);
    }
  }

  lemma ExplicitMembers(log: seq<Event<Entry>>, id: string)
    ensures id in Explicit(log) <==> exists e <- log :: id in Cited(e)
  {
    if id in Explicit(log) {
      var e := ExplicitIsCited(log, id);
    } else {
      forall e | e in log ensures id !in Cited(e) {
        CitedIsExplicit(log, e);
      }
    }
  }

  lemma ExplicitStays(log: seq<Event<Entry>>, other: seq<Event<Entry>>, id: string)
    requires multiset(log) == multiset(other) && id in Explicit(log)
    ensures id in Explicit(other)
  {
    var e := ExplicitIsCited(log, id);
    SameMembers(log, other, e);
    CitedIsExplicit(other, e);
  }

  lemma ExplicitIgnoresOrder(log: seq<Event<Entry>>, other: seq<Event<Entry>>)
    requires multiset(log) == multiset(other)
    ensures Explicit(log) == Explicit(other)
  {
    forall id ensures id in Explicit(log) <==> id in Explicit(other) {
      if id in Explicit(log) {
        ExplicitStays(log, other, id);
      } else if id in Explicit(other) {
        ExplicitStays(other, log, id);
      }
    }
  }

  lemma {:induction false} LiveCounts(s: seq<Event<Entry>>, superseded: set<string>, e: Event<Entry>)
    ensures multiset(Live(s, superseded))[e] == if e.id in superseded then 0 else multiset(s)[e]
  {
    if s != [] {
      LiveCounts(s[..|s| - 1], superseded, e);
      assert s == s[..|s| - 1] + [s[|s| - 1]];
    }
  }

  lemma ExplicitLogIsItsCitations(log: seq<Event<Entry>>)
    requires AllExplicit(log)
    ensures Superseded(log) == Explicit(log)
  {
    var nothing: seq<Event<Entry>> := [];
    SupersededByBlock(nothing, log);
    assert nothing + log == log;
    assert Superseded(nothing) == {};
  }

  ghost predicate HasLiveEvent(log: seq<Event<Entry>>) {
    exists e <- log :: e.id !in Superseded(log)
  }

  /** With every citation written down, the heads do not depend on the order of the log. */
  lemma HeadsIgnoreOrder(log: seq<Event<Entry>>, other: seq<Event<Entry>>)
    requires multiset(log) == multiset(other) && AllExplicit(log) && HasLiveEvent(log)
    ensures multiset(Heads(log)) == multiset(Heads(other)) && Heads(log) != [] && Heads(other) != []
  {
    forall e | e in other ensures e.supersedes.Some? {
      SameMembers(log, other, e);
    }
    ExplicitLogIsItsCitations(log);
    ExplicitLogIsItsCitations(other);
    ExplicitIgnoresOrder(log, other);
    var dead := Superseded(log);
    forall e ensures multiset(Live(log, dead))[e] == multiset(Live(other, dead))[e] {
      LiveCounts(log, dead, e);
      LiveCounts(other, dead, e);
    }
    assert multiset(Live(log, dead)) == multiset(Live(other, dead));
    var e :| e in log && e.id !in dead;
    LiveMembers(log, dead);
    assert |multiset(Live(log, dead))| == |multiset(Live(other, dead))|;
  }

  /** Record, conflict flag and alternatives are the same for every order of the log. */
  lemma ViewsConverge(log: seq<Event<Entry>>, other: seq<Event<Entry>>)
    requires multiset(log) == multiset(other) && AllExplicit(log) && IdsIdentify(log) && HasLiveEvent(log)
    ensures Shown(log) == Shown(other)
  {
    HeadsIgnoreOrder(log, other);
    HeadsAreEvents(log);
    CollapsedIgnoresOrder(Heads(log), Heads(other));
    assert |multiset(log)| == |multiset(other)|;
  }

  /** Each event is ranked above every event that it cites. */
  ghost predicate Acyclic(log: seq<Event<Entry>>, rank: map<string, nat>) {
    forall e <- log :: e.id in rank && forall d <- log :: d.id in rank && (d.id in Cited(e) ==> rank[d.id] < rank[e.id])
  }

  lemma {:induction false} HighestRank(log: seq<Event<Entry>>, rank: map<string, nat>) returns (top: Event<Entry>)
    requires log != [] && forall e <- log :: e.id in rank
    ensures top in log && forall e <- log :: rank[e.id] <= rank[top.id]
  {
    var n := |log| - 1;
    assert log == log[..n] + [log[n]];
    top := log[n];
    if n > 0 {
      var other := HighestRank(log[..n], rank);
      if rank[top.id] < rank[other.id] {
        top := other;
      }
    }
  }

  /** An acyclic log always has a live event, so its view never falls back on the order. */
  lemma AcyclicLogsHaveLiveEvents(log: seq<Event<Entry>>, rank: map<string, nat>)
    requires log != [] && AllExplicit(log) && Acyclic(log, rank)
    ensures HasLiveEvent(log)
  {
    var top := HighestRank(log, rank);
    ExplicitLogIsItsCitations(log);
    ExplicitMembers(log, top.id);
  }

  /** When every event cites what it replaces, ids are distinct and the citations have no cycle,
      the record, its conflict flag and its alternatives are the same for every order of the log. */
  lemma AcyclicLogsConverge(log: seq<Event<Entry>>, other: seq<Event<Entry>>, rank: map<string, nat>)
    requires log != [] && multiset(log) == multiset(other) && AllExplicit(log) && IdsIdentify(log) && Acyclic(log, rank)
    ensures Shown(log) == Shown(other) && Shown(log).Some?
  {
    AcyclicLogsHaveLiveEvents(log, rank);
    ViewsConverge(log, other);
  }

  lemma NothingLive(s: seq<Event<Entry>>, superseded: set<string>)
    requires forall e <- s :: e.id in superseded
    ensures Live(s, superseded) == []
  {
    NoneLive(s, superseded);
  }

  lemma NothingLiveInAnyOrder(log: seq<Event<Entry>>, other: seq<Event<Entry>>)
    requires multiset(log) == multiset(other) && AllExplicit(log) && !HasLiveEvent(log) && other != []
    ensures Heads(other) == [other[|other| - 1]]
  {
    forall e | e in other ensures e.supersedes.Some? {
      SameMembers(log, other, e);
    }
    ExplicitLogIsItsCitations(log);
    ExplicitLogIsItsCitations(other);
    ExplicitIgnoresOrder(log, other);
    forall e | e in other ensures e.id in Superseded(other) {
      SameMembers(log, other, e);
    }
    NothingLive(other, Superseded(other));
  }

  lemma MovedLast(log: seq<Event<Entry>>, e: Event<Entry>) returns (other: seq<Event<Entry>>)
    requires e in log
    ensures multiset(other) == multiset(log) && other != [] && other[|other| - 1] == e
  {
    var i :| 0 <= i < |log| && log[i] == e;
    other := log[..i] + log[i + 1..] + [e];
    assert log == log[..i] + [e] + log[i + 1..];
  }

  /** The heads are the same for every order of the log. */
  ghost predicate HeadsConverge(log: seq<Event<Entry>>) {
    forall other | multiset(other) == multiset(log) :: multiset(Heads(other)) == multiset(Heads(log))
  }

  /** The view is the same for every order of the log. */
  ghost predicate ShownConverges(log: seq<Event<Entry>>) {
    forall other | multiset(other) == multiset(log) :: Shown(other) == Shown(log)
  }

  /** When every event is superseded the last one is shown, so any event can be made the head. */
  lemma CyclicLogShowsAny(log: seq<Event<Entry>>, e: Event<Entry>) returns (other: seq<Event<Entry>>)
    requires AllExplicit(log) && !HasLiveEvent(log) && e in log
    ensures multiset(other) == multiset(log) && Heads(other) == [e] && Shown(other) == Some(Collapsed([e]))
  {
    other := MovedLast(log, e);
    NothingLiveInAnyOrder(log, other);
  }

  /** The heads are the same for every order exactly when something is live, or all events are one. */
  lemma HeadsConvergeIff(log: seq<Event<Entry>>)
    requires AllExplicit(log)
    ensures HeadsConverge(log) <==> HasLiveEvent(log) || forall a <- log, b <- log :: a == b
  {
    if HasLiveEvent(log) {
      forall other | multiset(other) == multiset(log) ensures multiset(Heads(other)) == multiset(Heads(log)) {
        HeadsIgnoreOrder(log, other);
      }
    } else if HeadsConverge(log) {
      forall a, b | a in log && b in log ensures a == b {
        var first := CyclicLogShowsAny(log, a);
        var second := CyclicLogShowsAny(log, b);
        assert multiset(Heads(first)) == multiset(Heads(second));
        assert a in multiset([a]) && multiset([a]) == multiset([b]);
      }
    } else {
      var other :| multiset(other) == multiset(log) && multiset(Heads(other)) != multiset(Heads(log));
      OneEventDiverges(log, other);
    }
  }

  lemma OneEventHasOneOrder(log: seq<Event<Entry>>, other: seq<Event<Entry>>, e: Event<Entry>)
    requires multiset(other) == multiset(log) && forall x <- log :: x == e
    ensures other == log
  {
    SameLength(other, log);
    forall i | 0 <= i < |log| ensures other[i] == log[i] {
      assert other[i] in other && log[i] in log;
      SameMembers(other, log, other[i]);
      assert other[i] == e && log[i] == e;
    }
  }

  lemma OneEventDiverges(log: seq<Event<Entry>>, other: seq<Event<Entry>>)
    requires multiset(other) == multiset(log) && multiset(Heads(other)) != multiset(Heads(log))
    ensures exists a <- log, b <- log :: a != b
  {
    SameLength(other, log);
    assert log != [];
    assert log[0] in log;
    if forall x <- log :: x == log[0] {
      OneEventHasOneOrder(log, other, log[0]);
      assert false;
    }
    var x :| x in log && x != log[0];
  }

  /** The view is the same for every order exactly when something is live, or every event alone
      would be shown alike. */
  lemma ShownConvergesIff(log: seq<Event<Entry>>)
    requires AllExplicit(log) && IdsIdentify(log)
    ensures ShownConverges(log) <==> HasLiveEvent(log) || forall a <- log, b <- log :: Collapsed([a]) == Collapsed([b])
  {
    if HasLiveEvent(log) {
      forall other | multiset(other) == multiset(log) ensures Shown(other) == Shown(log) {
        ViewsConverge(log, other);
      }
    } else if ShownConverges(log) {
      forall a, b | a in log && b in log ensures Collapsed([a]) == Collapsed([b]) {
        var first := CyclicLogShowsAny(log, a);
        var second := CyclicLogShowsAny(log, b);
        assert Shown(first) == Shown(second);
      }
    } else {
      var other :| multiset(other) == multiset(log) && Shown(other) != Shown(log);
      DivergingViews(log, other);
    }
  }

  lemma DivergingViews(log: seq<Event<Entry>>, other: seq<Event<Entry>>)
    requires AllExplicit(log) && !HasLiveEvent(log)
    requires multiset(other) == multiset(log) && Shown(other) != Shown(log)
    ensures exists a <- log, b <- log :: Collapsed([a]) != Collapsed([b])
  {
    SameLength(other, log);
    if log != [] {
      NothingLiveInAnyOrder(log, other);
      NothingLiveInAnyOrder(log, log);
      var a, b := log[|log| - 1], other[|other| - 1];
      SameMembers(other, log, b);
      assert a in log && b in log;
    }
  }

  /** Two events that name each other: nothing is live. */
  lemma CyclicLogExists(r: Entry, r': Entry)
    ensures var log := [Event("a", r, Some(["b"])), Event("b", r', Some(["a"]))];
            AllExplicit(log) && IdsIdentify(log) && !HasLiveEvent(log)
  {
    var a, b := Event("a", r, Some(["b"])), Event("b", r', Some(["a"]));
    var log := [a, b];
    assert !IsSpace('a') && !IsSpace('b');
    GeneratedIdsAreCanonical("a");
    GeneratedIdsAreCanonical("b");
    ExplicitLogIsItsCitations(log);
    assert "b" in ["b"] && "a" in ["a"];
    assert "b" in Cited(a) && "a" in Cited(b);
    assert a in log && b in log;
    ExplicitMembers(log, "a");
    ExplicitMembers(log, "b");
    assert forall e <- log :: e == a || e == b;
  }

  /** So the order can matter: two events of different substance that replace each other. */
  lemma CyclicLogsDiverge(r: Entry, r': Entry)
    requires Substance(r) != Substance(r')
    ensures var log := [Event("a", r, Some(["b"])), Event("b", r', Some(["a"]))];
            !ShownConverges(log) && !HeadsConverge(log)
  {
    var a, b := Event("a", r, Some(["b"])), Event("b", r', Some(["a"]));
    var log := [a, b];
    CyclicLogExists(r, r');
    HeadsConvergeIff(log);
    ShownConvergesIff(log);
    assert a in log && b in log;
    SingleSubstance(a);
    SingleSubstance(b);
  }

  lemma SingleSubstance(e: Event<Entry>)
    ensures Substance(Collapsed([e]).record) == Substance(e.record)
  {
    SingleHead(e);
    var latest := MergedIsLatest([e]);
  }

  // ---------------------------------------------------------------- one and two heads

  /** The one alternative: a single head is shown without conflict. */
  lemma SingleHead(e: Event<Entry>)
    ensures Collapsed([e]) == View(Merged([e]), None)
  {
    Sorting.SortOne(e, Ordering(ById));
  }

  /** Records as the program writes them come back unchanged. */
  predicate Tidy(b: Body) {
    && (b.AccountBody? ==> b.accountName != Some(""))
    && (Tentative(b) ==>
          && b.displayName != Some("")
          && |b.aliases| <= MAX_LIST && Distinct(b.aliases) == b.aliases
          && |b.evidence| <= MAX_LIST && Distinct(b.evidence) == b.evidence)
  }

  lemma SingleHeadIsShown(e: Event<Entry>)
    requires Tidy(e.record.body)
    ensures Collapsed([e]) == View(e.record, None)
  {
    SingleHead(e);
    Sorting.SortOne(e, Ordering(ByTime));
    assert [e][..0] == [];
    assert LatestName([e]) == if NameOf(e.record.body) == Some("") then None else NameOf(e.record.body);
    if Tentative(e.record.body) {
      assert AllAliases([e]) == AllAliases([e][..0]) + e.record.body.aliases == e.record.body.aliases;
      assert AllEvidence([e]) == AllEvidence([e][..0]) + e.record.body.evidence == e.record.body.evidence;
    }
  }

  /** Two concurrent heads conflict exactly when they differ in substance, and the conflict
      lists both, in id order. */
  lemma TwoHeads(a: Event<Entry>, b: Event<Entry>)
    requires Leq(a.id, b.id)
    ensures Collapsed([a, b]).conflict
         == if Substance(a.record) == Substance(b.record) then None
            else Some([Alternative(a.id, a.record), Alternative(b.id, b.record)])
  {
    assert [a, b][1..] == [b] && [b][1..] == [];
    Sorting.SortOne(b, Ordering(ById));
    var both := [a, b];
    assert Before(ById, a, b) && both[0] == a && both[1..] == [b];
    assert Sorting.Insert([b], a, Ordering(ById)) == [a] + [b] == both;
    assert Sort(ById, both) == both;
    assert a in both && b in both;
    assert forall e <- both :: e == a || e == b;
    assert both[..1] == [a] && [a][..0] == [];
    assert Alternatives([a]) == [Alternative(a.id, a.record)];
    assert Alternatives(both) == [Alternative(a.id, a.record), Alternative(b.id, b.record)];
  }

  // ---------------------------------------------------------------- what equivalent heads merge into

  lemma BeforeReflexive(o: Order, e: Event<Entry>)
    ensures Before(o, e, e)
  {
    LeqReflexive(e.id);
  }

  /** The merged record is the latest head's, up to what equivalent heads may differ in. */
  lemma MergedIsLatest(heads: seq<Event<Entry>>) returns (latest: Event<Entry>)
    requires heads != []
    ensures latest in heads && forall e <- heads :: Before(ByTime, e, latest)
    ensures forall e <- heads :: Leq(e.record.updatedAt, latest.record.updatedAt)
    ensures Merged(heads).updatedAt == latest.record.updatedAt && Substance(Merged(heads)) == Substance(latest.record)
    ensures TargetOf(Merged(heads).body) == TargetOf(latest.record.body)
    ensures !latest.record.body.AccountBody? && !Tentative(latest.record.body) ==> Merged(heads) == latest.record
  {
    var byTime := Sort(ByTime, heads);
    SortSorts(ByTime, heads);
    SameLength(byTime, heads);
    latest := byTime[|byTime| - 1];
    assert latest in byTime;
    SameMembers(byTime, heads, latest);
    forall e | e in heads ensures Before(ByTime, e, latest) {
      SameMembers(byTime, heads, e);
      var i :| 0 <= i < |byTime| && byTime[i] == e;
      if i == |byTime| - 1 {
        BeforeReflexive(ByTime, e);
      }
    }
    LeqReflexive(latest.record.updatedAt);
  }

  predicate HasName(e: Event<Entry>) {
    var name := NameOf(e.record.body);
    name.Some? && name.value != ""
  }

  lemma {:induction false} LatestNameIsLast(s: seq<Event<Entry>>) returns (i: int)
    ensures -1 <= i < |s|
    ensures LatestName(s) == if i < 0 then None else NameOf(s[i].record.body)
    ensures 0 <= i ==> HasName(s[i])
    ensures forall j :: i < j < |s| ==> !HasName(s[j])
  {
    i := -1;
    if s != [] {
      i := |s| - 1;
      if !HasName(s[i]) {
        i := LatestNameIsLast(s[..|s| - 1]);
      }
    }
  }

  /** The latest of the heads that carry a name. */
  lemma LatestNamed(heads: seq<Event<Entry>>) returns (named: Option<Event<Entry>>)
    requires heads != []
    ensures LatestName(Sort(ByTime, heads)) == if named.None? then None else NameOf(named.value.record.body)
    ensures if named.None? then forall e <- heads :: !HasName(e)
            else
              && named.value in heads && HasName(named.value)
              && forall e <- heads :: HasName(e) ==> Before(ByTime, e, named.value)
  {
    var byTime := Sort(ByTime, heads);
    SortSorts(ByTime, heads);
    SameLength(byTime, heads);
    var i := LatestNameIsLast(byTime);
    named := if i < 0 then None else Some(byTime[i]);
    forall e | e in heads ensures HasName(e) ==> 0 <= i && Before(ByTime, e, byTime[i]) {
      SameMembers(byTime, heads, e);
      var j :| 0 <= j < |byTime| && byTime[j] == e;
      if i == j {
        BeforeReflexive(ByTime, e);
      }
    }
    if 0 <= i {
      SameMembers(byTime, heads, byTime[i]);
    }
  }

  /** An account shows the latest name that any of its heads carries, and none when none does. */
  lemma MergedAccountName(heads: seq<Event<Entry>>) returns (named: Option<Event<Entry>>)
    requires heads != [] && Merged(heads).body.AccountBody?
    ensures if named.None? then Merged(heads).body.accountName == None && forall e <- heads :: !HasName(e)
            else
              && named.value in heads && HasName(named.value)
              && Merged(heads).body.accountName == NameOf(named.value.record.body)
              && forall e <- heads :: HasName(e) ==> Before(ByTime, e, named.value)
                                                     && Leq(e.record.updatedAt, named.value.record.updatedAt)
  {
    named := LatestNamed(heads);
    if named.Some? {
      LeqReflexive(named.value.record.updatedAt);
    }
  }
}
