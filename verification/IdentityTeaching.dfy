/** What an observation and a clue write: about whom, and which fields. */
module IdentityTeaching {
  import opened Records
  import opened OrderedSets
  import opened IdentityHeads
  import opened IdentityViews
  import opened IdentityStore
  import opened IdentityLearning
  import opened IdentityRepeats
  import opened IdentityRetention
  import IdentityFailures

  // ---------------------------------------------------------------- candidate links

  predicate IsCandidate(links: seq<Link>, i: int) {
    0 <= i < |links| && links[i].status == Candidate
  }

  /** Link `i` is the one candidate. */
  ghost predicate OnlyCandidate(links: seq<Link>, i: int) {
    IsCandidate(links, i) && forall j | IsCandidate(links, j) :: j == i
  }

  lemma CandidateInFront(links: seq<Link>, i: int)
    requires links != []
    ensures IsCandidate(links, i)
            <==> IsCandidate(links[..|links| - 1], i) || (i == |links| - 1 && links[i].status == Candidate)
  {
  }

  lemma {:induction false} NoCandidates(links: seq<Link>)
    ensures CandidateLinks(links) == [] <==> forall i :: !IsCandidate(links, i)
  {
    if links != [] {
      NoCandidates(links[..|links| - 1]);
      forall i ensures IsCandidate(links, i)
        <==> IsCandidate(links[..|links| - 1], i) || (i == |links| - 1 && links[i].status == Candidate)
      {
        CandidateInFront(links, i);
      }
      assert links[|links| - 1].status == Candidate ==> IsCandidate(links, |links| - 1);
    }
  }

  lemma {:induction false} OnlyIsSingle(links: seq<Link>, i: int)
    requires OnlyCandidate(links, i)
    ensures CandidateLinks(links) == [links[i]]
  {
    var n := |links| - 1;
    var front := links[..n];
    forall j | IsCandidate(front, j) ensures j == i {
      CandidateInFront(links, j);
    }
    if i == n {
      NoCandidates(front);
    } else {
      CandidateInFront(links, n);
      OnlyIsSingle(front, i);
    }
  }

  lemma {:induction false} SingleIsOnly(links: seq<Link>) returns (i: int)
    requires |CandidateLinks(links)| == 1
    ensures OnlyCandidate(links, i)
  {
    var n := |links| - 1;
    if links[n].status == Candidate {
      i := n;
      NoCandidates(links[..n]);
    } else {
      i := SingleIsOnly(links[..n]);
    }
    forall j | IsCandidate(links, j) ensures j == i {
      CandidateInFront(links, j);
    }
  }

  // ---------------------------------------------------------------- whom an observation is about

  /** The account may be learned from: nobody mapped it, it is not the persona's own, its heads agree. */
  ghost predicate OpenAccount(v: Option<View>) {
    v.Some? ==>
      && v.value.conflict.None? && v.value.record.body.AccountBody?
      && v.value.record.body.isSelf != Some(true)
      && forall l <- v.value.record.body.links :: l.status != Confirmed && l.status != Corrected
  }

  /** The one candidate that the account has, or, when it has none, the account's own participant,
      or a new one when that is known already. */
  ghost predicate IsSubject(log: Log, a: Account, uuid: string, p: ParticipantId) {
    var links := AccountAt(log, a).record.body.links;
    && a.platform != "" && a.namespace != "" && a.sender != ""
    && OpenAccount(At(log, OfAccount(a)))
    && if exists i :: IsCandidate(links, i)
       then exists i :: OnlyCandidate(links, i) && links[i].participant == p
       else p == if At(log, OfParticipant(Observed(a))).None? then Observed(a) else ObservedAgain(uuid)
  }

  lemma OpenIffNotSettled(log: Log, a: Account)
    ensures OpenAccount(At(log, OfAccount(a))) <==> !Settled(AccountAt(log, a))
  {
  }

  lemma OneCandidateIff(links: seq<Link>, p: ParticipantId)
    ensures (|CandidateLinks(links)| == 1 && CandidateLinks(links)[0].participant == p)
            <==> exists i :: OnlyCandidate(links, i) && links[i].participant == p
  {
    if i :| OnlyCandidate(links, i) && links[i].participant == p {
      OnlyIsSingle(links, i);
    }
    if |CandidateLinks(links)| == 1 {
      var i := SingleIsOnly(links);
      OnlyIsSingle(links, i);
    }
  }

  lemma SubjectIff(log: Log, lookup: Lookup, uuid: string, p: ParticipantId)
    ensures Subject(log, lookup, uuid) == Some(p) <==> IsSubject(log, lookup.account, uuid, p)
  {
    var links := AccountAt(log, lookup.account).record.body.links;
    OpenIffNotSettled(log, lookup.account);
    NoCandidates(links);
    OneCandidateIff(links, p);
  }

  // ---------------------------------------------------------------- what an observation teaches

  /** A participant as an observation makes it. */
  ghost predicate IsNew(v: Option<View>, p: ParticipantId, name: Option<string>, e: Evidence) {
    && v.Some? && v.value.conflict.None?
    && v.value.record.body
       == ParticipantBody(p, Unknown, name, if name.Some? then [name.value] else [], [], Candidate, [e])
  }

  /** The name is taken where there was none, and joins the aliases and the evidence while there is
      room; nothing else changes. */
  ghost predicate LearnedOf(b: Body, b': Body, name: Option<string>, e: Evidence) {
    && KeepsParticipant(b, b', None, None, 1)
    && (b.displayName.None? ==> b'.displayName == name)
    && (|b.aliases| < MAX_LIST && name.Some? ==> name.value in b'.aliases)
    && (|b.evidence| <= MAX_LIST ==> e in b'.evidence)
    && (forall x <- b'.aliases :: x in b.aliases || Some(x) == name)
    && (forall x <- b'.evidence :: x in b.evidence || x == e)
  }

  /** Only an unjudged participant without a conflict learns. */
  ghost predicate TaughtParticipant(v: Option<View>, v': Option<View>, p: ParticipantId, name: Option<string>,
      e: Evidence) {
    if v.None? then v'.Some? && IsNew(v', p, name, e)
    else if v.value.conflict.None? && v.value.record.body.ParticipantBody? && v.value.record.body.status == Candidate
    then v'.Some? && v'.value.conflict.None? && LearnedOf(v.value.record.body, v'.value.record.body, name, e)
    else v' == v
  }

  /** The account shows the name that it was seen under, keeps what it was, and links the participant. */
  ghost predicate TaughtAccount(view: View, v': Option<View>, p: ParticipantId, name: Option<string>, e: Evidence)
    requires view.record.body.AccountBody?
  {
    var b := view.record.body;
    && v'.Some? && v'.value.conflict.None? && v'.value.record.body.AccountBody?
    && var b' := v'.value.record.body;
       && b'.account == b.account && b'.isSelf == b.isSelf
       && (name.Some? ==> b'.accountName == name)
       && (name.None? && b.accountName != Some("") ==> b'.accountName == b.accountName)
       && b'.links == FirstFifty(if exists i :: IsCandidate(b.links, i) then b.links
                                 else b.links + [Link(p, Candidate, 0.1, [e])])
  }

  lemma NewBodyIs(p: ParticipantId, name: Option<string>, e: Evidence)
    requires name != Some("")
    ensures ObservedBody(None, p, name, e)
         == ParticipantBody(p, Unknown, name, if name.Some? then [name.value] else [], [], Candidate, [e])
  {
    AtMostOne([e]);
    AtMostOne(NameList(name));
  }

  lemma AtMostOne<T>(s: seq<T>)
    requires |s| <= 1
    ensures FirstFifty(Distinct(s)) == s && LastFifty(Distinct(s)) == s
  {
    DistinctOfDistinct(s);
  }

  lemma LearnedBodyIs(view: View, p: ParticipantId, name: Option<string>, e: Evidence)
    requires view.record.body.ParticipantBody? && view.record.body.participant == p && name != Some("")
    requires view.record.body.status == Candidate
    ensures LearnedOf(view.record.body, ObservedBody(Some(view), p, name, e), name, e)
  {
    var b, b' := view.record.body, ObservedBody(Some(view), p, name, e);
    ObservedKeeps(view, p, name, e);
    if |b.aliases| < MAX_LIST {
      FirstHave(b.aliases, NameList(name));
    }
    if |b.evidence| <= MAX_LIST {
      LastFiftyHolds(b.evidence, e);
    }
    forall x | x in b'.aliases ensures x in b.aliases || Some(x) == name {
      assert x in Distinct(b.aliases + NameList(name));
    }
  }

  lemma ParticipantIsTaught(log: Log, p: ParticipantId, lookup: Lookup, stamp: Stamp)
    requires Canonical(log) && Fresh(log, stamp.eventId) && lookup.name != Some("")
    ensures TaughtParticipant(At(log, OfParticipant(p)),
              At(ObservedParticipantLog(log, p, lookup, stamp), OfParticipant(p)), p, lookup.name,
              AutomaticEvidence(lookup.account))
  {
    var known, e := At(log, OfParticipant(p)), AutomaticEvidence(lookup.account);
    ParticipantIsShown(log, p, lookup, stamp);
    if known.None? {
      NewBodyIs(p, lookup.name, e);
    } else if known.value.record.body.status == Candidate {
      LearnedBodyIs(known.value, p, lookup.name, e);
    }
  }

  lemma AccountBodyIs(view: View, v': Option<View>, p: ParticipantId, lookup: Lookup)
    requires view.record.body.AccountBody? && view.record.body.account == lookup.account && lookup.name != Some("")
    requires About(view.record.body.links, p)
    requires v'.Some? && v'.value.conflict.None? && v'.value.record.body == ObservedAccount(view, p, lookup)
    ensures TaughtAccount(view, v', p, lookup.name, AutomaticEvidence(lookup.account))
  {
    NoCandidates(view.record.body.links);
  }

  /** A call with a subject teaches its participant, and, when it does not fail, its account; a call
      without one writes nothing. */
  lemma ObserveTeaches(log: Log, lookup: Lookup, uuid: string, first: Stamp, second: Stamp)
    requires Canonical(log) && FreshStamps(log, first, second) && lookup.name != Some("")
    ensures var a, o := lookup.account, Observe(log, lookup, uuid, first, second);
            && (forall p | IsSubject(log, a, uuid, p) ::
                  && TaughtParticipant(At(log, OfParticipant(p)), At(o.log, OfParticipant(p)), p, lookup.name,
                                       AutomaticEvidence(a))
                  && (!o.failed ==>
                        TaughtAccount(AccountAt(log, a), At(o.log, OfAccount(a)), p, lookup.name,
                                      AutomaticEvidence(a))))
            && ((forall p :: !IsSubject(log, a, uuid, p)) ==> o.log == log && !o.failed)
  {
    var s := Subject(log, lookup, uuid);
    forall p ensures s == Some(p) <==> IsSubject(log, lookup.account, uuid, p) {
      SubjectIff(log, lookup, uuid, p);
    }
    if s.Some? {
      SubjectIsTaught(log, lookup, uuid, s.value, first, second);
    } else {
      NoSubjectIsQuiet(log, lookup, uuid, uuid, first, second);
    }
  }

  lemma SubjectIsTaught(log: Log, lookup: Lookup, uuid: string, p: ParticipantId, first: Stamp, second: Stamp)
    requires Canonical(log) && FreshStamps(log, first, second) && lookup.name != Some("")
    requires Subject(log, lookup, uuid) == Some(p)
    ensures var a, o := lookup.account, Observe(log, lookup, uuid, first, second);
            && TaughtParticipant(At(log, OfParticipant(p)), At(o.log, OfParticipant(p)), p, lookup.name,
                                 AutomaticEvidence(a))
            && (!o.failed ==>
                  TaughtAccount(AccountAt(log, a), At(o.log, OfAccount(a)), p, lookup.name, AutomaticEvidence(a)))
  {
    var learned, view := ObservedParticipantLog(log, p, lookup, first), AccountAt(log, lookup.account);
    ParticipantIsTaught(log, p, lookup, first);
    SubjectIsAbout(log, lookup, uuid);
    if Observe(log, lookup, uuid, first, second).failed {
      IdentityFailures.FailedLeavesLearned(log, lookup, p, uuid, first, second);
    } else {
      SuccessfulWrites(log, lookup, uuid, first, second);
      ObservedLogKeepsAuthority(log, p, lookup, first);
      FreshAfterObserved(log, p, lookup, first, second.eventId);
      AccountIsShown(learned, view, p, lookup, second);
      AccountBodyIs(view, At(Updated(learned, ObservedAccount(view, p, lookup), second), OfAccount(lookup.account)), p,
        lookup);
    }
  }

  // ---------------------------------------------------------------- which clues are accepted

  /** Nobody has judged the record, and its heads agree. */
  predicate Unjudged(v: Option<View>) {
    v.Some? && v.value.conflict.None?
    && match v.value.record.body
       case AccountBody(_, _, _, _) => false
       case ParticipantBody(_, _, _, _, _, status, _) => status == Candidate
       case RelationBody(_, _, _, _, _, status, _, _) => status == Candidate
  }

  /** `p` is linked as a candidate: the wanted one, or else the only one. */
  ghost predicate IsLinkedFor(links: seq<Link>, wanted: Option<ParticipantId>, p: ParticipantId) {
    if wanted.None? then exists i :: OnlyCandidate(links, i) && links[i].participant == p
    else wanted == Some(p) && exists i :: IsCandidate(links, i) && links[i].participant == p
  }

  /** No relation of the clue has been judged, and their heads agree. */
  ghost predicate RelationsAreOpen(log: Log, p: ParticipantId, rs: seq<ClueRelation>) {
    forall r <- rs :: At(log, OfRelation(IdOf(p, r))).Some? ==> Unjudged(At(log, OfRelation(IdOf(p, r))))
  }

  /** An observed account without authority links `p` as a candidate, `p` is unjudged, some evidence
      names a message, and no relation of the clue has been judged. */
  ghost predicate ClueIsFor(log: Log, clue: Clue, p: ParticipantId) {
    && At(log, OfAccount(clue.account)).Some? && OpenAccount(At(log, OfAccount(clue.account)))
    && IsLinkedFor(AccountAt(log, clue.account).record.body.links, clue.participant, p)
    && Unjudged(At(log, OfParticipant(p)))
    && (exists e <- clue.evidence :: e.messageId != "")
    && RelationsAreOpen(log, p, FirstFifty(clue.relations))
  }

  lemma LinkForClueIff(links: seq<Link>, wanted: Option<ParticipantId>, p: ParticipantId)
    ensures ClueLink(links, wanted) == Some(p) <==> IsLinkedFor(links, wanted, p)
  {
    OneCandidateIff(links, p);
    IdentityFailures.CandidateLinksHaveAll(links);
    if wanted.Some? {
      if l :| l in CandidateLinks(links) && l.participant == p {
        var i :| 0 <= i < |links| && links[i] == l;
        assert IsCandidate(links, i);
      }
    }
  }

  lemma OpenRelationsIff(log: Log, p: ParticipantId, rs: seq<ClueRelation>)
    ensures RelationsAreOpen(log, p, rs) <==> forall r <- rs :: RelationIsOpen(log, IdOf(p, r))
  {
    forall r | r in rs ensures RelationIsOpen(log, IdOf(p, r))
      <==> (At(log, OfRelation(IdOf(p, r))).Some? ==> Unjudged(At(log, OfRelation(IdOf(p, r)))))
    {
    }
  }

  lemma UnjudgedIff(log: Log, p: ParticipantId)
    ensures Unjudged(At(log, OfParticipant(p)))
            <==> At(log, OfParticipant(p)).Some? && Learnable(At(log, OfParticipant(p)))
  {
  }

  lemma StudentIff(log: Log, clue: Clue, p: ParticipantId)
    ensures Student(log, clue) == Some(p) <==> ClueIsFor(log, clue, p)
  {
    var view := At(log, OfAccount(clue.account));
    OpenIffNotSettled(log, clue.account);
    if view.Some? {
      LinkForClueIff(view.value.record.body.links, clue.participant, p);
      UnjudgedIff(log, p);
      OpenRelationsIff(log, p, FirstFifty(clue.relations));
    }
  }

  /** Exactly these clues are accepted; every other call fails before it writes. */
  lemma LearnAcceptsIff(log: Log, clue: Clue, stamp: Stamp, stamps: seq<Stamp>, p: ParticipantId)
    requires |stamps| == |FirstFifty(clue.relations)|
    ensures Learn(log, clue, stamp, stamps).participant == Some(p) <==> ClueIsFor(log, clue, p)
    ensures Learn(log, clue, stamp, stamps).participant.None?
            ==> Learn(log, clue, stamp, stamps) == Outcome(log, None, true)
  {
    StudentIff(log, clue, p);
    StudentLearns(log, clue, stamp, stamps);
  }

  lemma StudentLearns(log: Log, clue: Clue, stamp: Stamp, stamps: seq<Stamp>)
    requires |stamps| == |FirstFifty(clue.relations)|
    ensures Learn(log, clue, stamp, stamps).participant == Student(log, clue)
    ensures Student(log, clue).None? ==> Learn(log, clue, stamp, stamps) == Outcome(log, None, true)
  {
  }

  // ---------------------------------------------------------------- what a clue teaches

  /** What the clue says replaces kind and name; aliases and evidence join while there is room. */
  ghost predicate LearnedFrom(b: Body, b': Body, clue: Clue) {
    && KeepsParticipant(b, b', clue.kind, clue.name, |clue.evidence|)
    && TakesAliases(b.aliases, b'.aliases, clue.aliases + NameList(Or(clue.name, b.displayName)))
    && TakesEvidence(b.evidence, b'.evidence, clue.evidence)
  }

  /** Evidence joins while there is room; the newest of the old stays as far as the new leaves room. */
  ghost predicate TakesEvidence(was: seq<Evidence>, kept: seq<Evidence>, more: seq<Evidence>) {
    && (|more| <= MAX_LIST ==> forall e <- Last(Distinct(was), MAX_LIST - |more|) :: e in kept)
    && (|was| + |more| <= MAX_LIST ==> forall e <- more :: e in kept)
    && (forall e <- kept :: e in was || e in more)
  }

  lemma EvidenceIsTaken(was: seq<Evidence>, more: seq<Evidence>)
    ensures TakesEvidence(was, LastFifty(Distinct(was + more)), more)
  {
    if |more| <= MAX_LIST {
      LastStay(was, more);
    }
    if |was| + |more| <= MAX_LIST {
      LastHave(was, more);
    }
  }

  ghost predicate TakesAliases(was: seq<string>, kept: seq<string>, more: seq<string>) {
    && (forall x <- FirstFifty(Distinct(was)) :: x in kept)
    && (|was| + |more| <= MAX_LIST ==> forall x <- more :: x in kept)
    && (forall x <- kept :: x in was || x in more)
  }

  lemma AliasesAreTaken(was: seq<string>, more: seq<string>)
    ensures TakesAliases(was, FirstFifty(Distinct(was + more)), more)
  {
    FirstStay(was, more);
    if |was| + |more| <= MAX_LIST {
      FirstHave(was, more);
    }
    forall x | x in FirstFifty(Distinct(was + more)) ensures x in was || x in more {
      assert x in Distinct(was + more);
    }
  }

  lemma ClueBodyIs(b: Body, clue: Clue)
    requires b.ParticipantBody? && b.status == Candidate && clue.name != Some("")
    ensures LearnedFrom(b, ClueBody(b, clue), clue)
  {
    var name := Or(clue.name, b.displayName);
    var more := clue.aliases + NameList(name);
    assert b.aliases + clue.aliases + NameList(name) == b.aliases + more;
    AliasesAreTaken(b.aliases, more);
    EvidenceIsTaken(b.evidence, clue.evidence);
    assert forall x <- clue.aliases :: x in more;
    assert clue.name.Some? ==> more[|more| - 1] == clue.name.value;
  }

  lemma LastHave<T>(s: seq<T>, t: seq<T>)
    requires |s| + |t| <= MAX_LIST
    ensures forall x :: x in s || x in t ==> x in LastFifty(Distinct(s + t))
  {
    DistinctIsShorter(s + t);
    ShortIsLast(Distinct(s + t), MAX_LIST);
    forall x | x in s || x in t ensures x in Distinct(s + t) {
      assert x in s + t;
    }
  }

  lemma UpdatedElsewhere(log: Log, body: Body, stamp: Stamp, t: Target)
    requires t != TargetOf(body)
    ensures At(Updated(log, body, stamp), t) == At(log, t)
  {
    if !AlreadyShown(log, body) {
      OthersStayShown(log, NewEvent(log, body, stamp), t);
    }
  }

  lemma {:induction false} RelationsElsewhere(log: Log, bodies: seq<Body>, stamps: seq<Stamp>, t: Target)
    requires |stamps| == |bodies| && forall b <- bodies :: TargetOf(b) != t
    ensures At(WrittenRelations(log, bodies, stamps).0, t) == At(log, t)
    decreases |bodies|
  {
    if bodies != [] && RelationIsValid(log, bodies[0]) {
      assert bodies[0] in bodies;
      UpdatedElsewhere(log, bodies[0], stamps[0], t);
      RelationsElsewhere(Updated(log, bodies[0], stamps[0]), bodies[1..], stamps[1..], t);
    }
  }

  /** The record is shown as some of these bodies says. */
  ghost predicate ShowsOneOf(v: Option<View>, t: Target, bodies: seq<Body>) {
    v.Some? && v.value.conflict.None? && v.value.record.body in bodies && TargetOf(v.value.record.body) == t
  }

  /** A call that does not fail has written every relation; the last of one id stays. */
  lemma {:induction false} WrittenAreShown(log: Log, bodies: seq<Body>, stamps: seq<Stamp>, t: Target)
    requires |stamps| == |bodies| && Canonical(log) && AllFresh(log, stamps)
    requires forall b <- bodies :: b.RelationBody?
    requires !WrittenRelations(log, bodies, stamps).1
    ensures (exists b <- bodies :: TargetOf(b) == t)
            ==> ShowsOneOf(At(WrittenRelations(log, bodies, stamps).0, t), t, bodies)
    decreases |bodies|
  {
    if bodies != [] {
      var next, rest := Updated(log, bodies[0], stamps[0]), bodies[1..];
      assert [stamps[0]] + stamps[1..] == stamps && bodies == [bodies[0]] + rest;
      AllFreshAfterUpdate(log, bodies[0], stamps[0], stamps[1..]);
      UpdateIsShown(log, bodies[0], stamps[0]);
      WrittenAreShown(next, rest, stamps[1..], t);
      if !(exists b <- rest :: TargetOf(b) == t) {
        RelationsElsewhere(next, rest, stamps[1..], t);
      }
    }
  }

  /** A relation as a clue tells it; its evidence is that of one telling under this id. */
  ghost predicate RelationTold(known: Option<View>, v: Option<View>, p: ParticipantId, r: ClueRelation,
      rs: seq<ClueRelation>, evidence: seq<Evidence>) {
    && v.Some? && v.value.conflict.None? && v.value.record.body.RelationBody?
    && var b := v.value.record.body;
       && b.subject == p && b.targetKind == r.kind && b.target == r.target && b.relationship == r.relationship
       && b.scope == r.scope && b.status == Candidate
       && exists told <- rs :: IdOf(p, told) == IdOf(p, r)
            && TakesEvidence(EvidenceOf(known), b.evidence, told.evidence + evidence)
  }

  function EvidenceOf(v: Option<View>): seq<Evidence> {
    if v.None? then []
    else
      match v.value.record.body
      case AccountBody(_, _, _, _) => []
      case ParticipantBody(_, _, _, _, _, _, evidence) => evidence
      case RelationBody(_, _, _, _, _, _, _, evidence) => evidence
  }

  lemma RelationBodyIs(log: Log, p: ParticipantId, told: ClueRelation, r: ClueRelation, rs: seq<ClueRelation>,
      evidence: seq<Evidence>, v: Option<View>)
    requires told in rs && IdOf(p, told) == IdOf(p, r)
    requires v.Some? && v.value.conflict.None? && v.value.record.body == RelationFromClue(log, p, told, evidence)
    ensures RelationTold(At(log, OfRelation(IdOf(p, r))), v, p, r, rs, evidence)
  {
    var known := EvidenceOf(At(log, OfRelation(IdOf(p, r))));
    assert known + told.evidence + evidence == known + (told.evidence + evidence);
    EvidenceIsTaken(known, told.evidence + evidence);
  }

  lemma {:induction false} PreparedIsTold(log: Log, p: ParticipantId, rs: seq<ClueRelation>, evidence: seq<Evidence>,
      b: Body) returns (r: ClueRelation)
    requires b in PreparedRelations(log, p, rs, evidence)
    ensures r in rs && b == RelationFromClue(log, p, r, evidence)
  {
    var n := |rs| - 1;
    r := rs[n];
    if b != RelationFromClue(log, p, r, evidence) {
      r := PreparedIsTold(log, p, rs[..n], evidence, b);
    }
  }

  lemma PreparedStep(log: Log, p: ParticipantId, rs: seq<ClueRelation>, evidence: seq<Evidence>)
    requires rs != []
    ensures var n := |rs| - 1;
            PreparedRelations(log, p, rs, evidence)
            == PreparedRelations(log, p, rs[..n], evidence) + [RelationFromClue(log, p, rs[n], evidence)]
  {
  }

  lemma {:induction false} ToldIsPrepared(log: Log, p: ParticipantId, rs: seq<ClueRelation>, evidence: seq<Evidence>,
      r: ClueRelation)
    requires r in rs
    ensures RelationFromClue(log, p, r, evidence) in PreparedRelations(log, p, rs, evidence)
  {
    var n := |rs| - 1;
    PreparedStep(log, p, rs, evidence);
    if r != rs[n] {
      assert r in rs[..n];
      ToldIsPrepared(log, p, rs[..n], evidence, r);
    }
  }

  lemma {:induction false} LearnedRelation(log: Log, learned: Log, p: ParticipantId, rs: seq<ClueRelation>,
      evidence: seq<Evidence>, stamps: seq<Stamp>, r: ClueRelation)
    requires Canonical(learned) && AllFresh(learned, stamps) && |stamps| == |rs| && r in rs
    requires !WrittenRelations(learned, PreparedRelations(log, p, rs, evidence), stamps).1
    ensures RelationTold(At(log, OfRelation(IdOf(p, r))),
              At(WrittenRelations(learned, PreparedRelations(log, p, rs, evidence), stamps).0, OfRelation(IdOf(p, r))),
              p, r, rs, evidence)
  {
    var bodies, t := PreparedRelations(log, p, rs, evidence), OfRelation(IdOf(p, r));
    ToldIsPrepared(log, p, rs, evidence, r);
    assert TargetOf(RelationFromClue(log, p, r, evidence)) == t;
    WrittenAreShown(learned, bodies, stamps, t);
    var v := At(WrittenRelations(learned, bodies, stamps).0, t);
    var told := PreparedIsTold(log, p, rs, evidence, v.value.record.body);
    RelationBodyIs(log, p, told, r, rs, evidence, v);
  }

  ghost predicate IsOfClue(t: Target, p: ParticipantId, rs: seq<ClueRelation>) {
    t == OfParticipant(p) || exists r <- rs :: t == OfRelation(IdOf(p, r))
  }

  /** The writes of a clue after its participant. */
  lemma {:induction false} RelationsOfClue(log: Log, learned: Log, p: ParticipantId, rs: seq<ClueRelation>,
      evidence: seq<Evidence>, stamps: seq<Stamp>)
    requires Canonical(learned) && AllFresh(learned, stamps) && |stamps| == |rs|
    ensures var w := WrittenRelations(learned, PreparedRelations(log, p, rs, evidence), stamps);
            && At(w.0, OfParticipant(p)) == At(learned, OfParticipant(p))
            && (forall t | !IsOfClue(t, p, rs) :: At(w.0, t) == At(learned, t))
            && (!w.1 ==> forall r <- rs ::
                  RelationTold(At(log, OfRelation(IdOf(p, r))), At(w.0, OfRelation(IdOf(p, r))), p, r, rs, evidence))
  {
    var bodies := PreparedRelations(log, p, rs, evidence);
    RelationsElsewhere(learned, bodies, stamps, OfParticipant(p));
    forall t | !IsOfClue(t, p, rs) ensures At(WrittenRelations(learned, bodies, stamps).0, t) == At(learned, t) {
      forall c | c in bodies ensures TargetOf(c) != t {
        var r := PreparedIsTold(log, p, rs, evidence, c);
      }
      RelationsElsewhere(learned, bodies, stamps, t);
    }
    if !WrittenRelations(learned, bodies, stamps).1 {
      forall r | r in rs ensures RelationTold(At(log, OfRelation(IdOf(p, r))),
        At(WrittenRelations(learned, bodies, stamps).0, OfRelation(IdOf(p, r))), p, r, rs, evidence)
      {
        LearnedRelation(log, learned, p, rs, evidence, stamps, r);
      }
    }
  }

  lemma ParticipantOfClue(log: Log, clue: Clue, p: ParticipantId, stamp: Stamp)
    requires Canonical(log) && Fresh(log, stamp.eventId) && clue.name != Some("")
    requires At(log, OfParticipant(p)).Some? && Learnable(At(log, OfParticipant(p)))
    ensures var b := At(log, OfParticipant(p)).value.record.body;
            var learned := Updated(log, ClueBody(b, clue), stamp);
            && Canonical(learned)
            && (forall t :: t != OfParticipant(p) ==> At(learned, t) == At(log, t))
            && At(learned, OfParticipant(p)).Some? && At(learned, OfParticipant(p)).value.conflict.None?
            && LearnedFrom(b, At(learned, OfParticipant(p)).value.record.body, clue)
  {
    var b := At(log, OfParticipant(p)).value.record.body;
    ClueBodyIs(b, clue);
    ClueBodyIsWritable(log, p, clue);
    UpdateIsShown(log, ClueBody(b, clue), stamp);
  }

  /** An accepted clue teaches its participant what it says, and, when it does not fail on the way,
      all its relations; every other record is shown as before. */
  lemma LearnTeaches(log: Log, clue: Clue, stamp: Stamp, stamps: seq<Stamp>, p: ParticipantId)
    requires |stamps| == |FirstFifty(clue.relations)| && Canonical(log) && AllFresh(log, [stamp] + stamps)
    requires ClueIsFor(log, clue, p) && clue.name != Some("")
    ensures var o, rs := Learn(log, clue, stamp, stamps), FirstFifty(clue.relations);
            var v, v' := At(log, OfParticipant(p)), At(o.log, OfParticipant(p));
            && v'.Some? && v'.value.conflict.None? && LearnedFrom(v.value.record.body, v'.value.record.body, clue)
            && (forall t | !IsOfClue(t, p, rs) :: At(o.log, t) == At(log, t))
            && (!o.failed ==> forall r <- rs ::
                  RelationTold(At(log, OfRelation(IdOf(p, r))), At(o.log, OfRelation(IdOf(p, r))), p, r, rs,
                               clue.evidence))
  {
    StudentIff(log, clue, p);
    var body := ClueBody(At(log, OfParticipant(p)).value.record.body, clue);
    AllFreshAfterUpdate(log, body, stamp, stamps);
    ParticipantOfClue(log, clue, p, stamp);
    RelationsOfClue(log, Updated(log, body, stamp), p, FirstFifty(clue.relations), clue.evidence, stamps);
  }

  // ---------------------------------------------------------------- which clues fail on the way

  /** Somebody whom a relation may name: shown without conflict, and not retired. */
  ghost predicate MayBeNamed(v: Option<View>) {
    && v.Some? && v.value.conflict.None? && v.value.record.body.ParticipantBody?
    && v.value.record.body.status != Retired
  }

  lemma NamedIsCurrent(log: Log, p: ParticipantId)
    ensures Current(log, p, false) <==> MayBeNamed(At(log, OfParticipant(p)))
  {
  }

  lemma RelationLeavesCurrent(log: Log, b: Body, stamp: Stamp)
    requires b.RelationBody?
    ensures forall p :: Current(Updated(log, b, stamp), p, false) == Current(log, p, false)
  {
    forall p ensures Current(Updated(log, b, stamp), p, false) == Current(log, p, false) {
      UpdatedElsewhere(log, b, stamp, OfParticipant(p));
    }
  }

  ghost predicate AllValid(log: Log, bodies: seq<Body>) {
    forall b <- bodies :: RelationIsValid(log, b)
  }

  lemma AllValidFirst(log: Log, log': Log, bodies: seq<Body>)
    requires bodies != [] && forall p :: Current(log', p, false) == Current(log, p, false)
    ensures AllValid(log, bodies) <==> RelationIsValid(log, bodies[0]) && AllValid(log', bodies[1..])
  {
    assert bodies == [bodies[0]] + bodies[1..];
    forall b ensures RelationIsValid(log', b) == RelationIsValid(log, b) {
    }
  }

  /** Writing relations fails exactly when one of them may not be written at the start. */
  lemma {:induction false} WritingFailsIff(log: Log, bodies: seq<Body>, stamps: seq<Stamp>)
    requires |stamps| == |bodies| && forall b <- bodies :: b.RelationBody?
    ensures WrittenRelations(log, bodies, stamps).1 <==> !AllValid(log, bodies)
    decreases |bodies|
  {
    if bodies != [] {
      var log' := Updated(log, bodies[0], stamps[0]);
      RelationLeavesCurrent(log, bodies[0], stamps[0]);
      AllValidFirst(log, log', bodies);
      WritingFailsIff(log', bodies[1..], stamps[1..]);
    }
  }

  lemma PreparedFailIff(log: Log, learned: Log, p: ParticipantId, rs: seq<ClueRelation>, evidence: seq<Evidence>,
      stamps: seq<Stamp>)
    requires |stamps| == |rs| && Current(learned, p, false)
    ensures WrittenRelations(learned, PreparedRelations(log, p, rs, evidence), stamps).1
            <==> exists r <- rs :: r.kind == ParticipantTarget && !Current(learned, r.target, false)
  {
    var bodies := PreparedRelations(log, p, rs, evidence);
    WritingFailsIff(learned, bodies, stamps);
    if r :| r in rs && r.kind == ParticipantTarget && !Current(learned, r.target, false) {
      ToldIsPrepared(log, p, rs, evidence, r);
      assert !RelationIsValid(learned, RelationFromClue(log, p, r, evidence));
    }
    if b :| b in bodies && !RelationIsValid(learned, b) {
      var r := PreparedIsTold(log, p, rs, evidence, b);
    }
  }

  lemma StudentIsCurrent(log: Log, clue: Clue, p: ParticipantId, stamp: Stamp)
    requires Canonical(log) && Fresh(log, stamp.eventId)
    requires At(log, OfParticipant(p)).Some? && Learnable(At(log, OfParticipant(p)))
    ensures var learned := Updated(log, ClueBody(At(log, OfParticipant(p)).value.record.body, clue), stamp);
            && Current(learned, p, false)
            && forall q :: q != p ==> At(learned, OfParticipant(q)) == At(log, OfParticipant(q))
  {
    ClueBodyIsWritable(log, p, clue);
    UpdateIsShown(log, ClueBody(At(log, OfParticipant(p)).value.record.body, clue), stamp);
  }

  /** An accepted clue fails on the way exactly when one of its relations names somebody else who is
      not shown, retired or in conflict; what was written before stays. */
  lemma LearnFailsIff(log: Log, clue: Clue, stamp: Stamp, stamps: seq<Stamp>, p: ParticipantId)
    requires |stamps| == |FirstFifty(clue.relations)| && Canonical(log) && Fresh(log, stamp.eventId)
    requires ClueIsFor(log, clue, p)
    ensures Learn(log, clue, stamp, stamps).failed
            <==> exists r <- FirstFifty(clue.relations) :: r.kind == ParticipantTarget && r.target != p
                   && !MayBeNamed(At(log, OfParticipant(r.target)))
  {
    StudentIff(log, clue, p);
    StudentIsCurrent(log, clue, p, stamp);
    var learned := Updated(log, ClueBody(At(log, OfParticipant(p)).value.record.body, clue), stamp);
    LearnWrites(log, clue, stamp, stamps, p);
    PreparedFailIff(log, learned, p, FirstFifty(clue.relations), clue.evidence, stamps);
    NamedAsBefore(log, learned, p, FirstFifty(clue.relations));
  }

  lemma LearnWrites(log: Log, clue: Clue, stamp: Stamp, stamps: seq<Stamp>, p: ParticipantId)
    requires |stamps| == |FirstFifty(clue.relations)| && Student(log, clue) == Some(p)
    ensures var learned := Updated(log, ClueBody(At(log, OfParticipant(p)).value.record.body, clue), stamp);
            var bodies := PreparedRelations(log, p, FirstFifty(clue.relations), clue.evidence);
            Learn(log, clue, stamp, stamps).failed == WrittenRelations(learned, bodies, stamps).1
  {
  }

  lemma NamedAsBefore(log: Log, learned: Log, p: ParticipantId, rs: seq<ClueRelation>)
    requires Current(learned, p, false)
    requires forall q :: q != p ==> At(learned, OfParticipant(q)) == At(log, OfParticipant(q))
    ensures (exists r <- rs :: r.kind == ParticipantTarget && !Current(learned, r.target, false))
            <==> exists r <- rs :: r.kind == ParticipantTarget && r.target != p
                   && !MayBeNamed(At(log, OfParticipant(r.target)))
  {
    forall r | r in rs
      ensures Current(learned, r.target, false) <==> r.target == p || MayBeNamed(At(log, OfParticipant(r.target)))
    {
      NamedIsCurrent(learned, r.target);
    }
  }

  // ---------------------------------------------------------------- a first clue

  lemma NewParticipantIsUnjudged(v': Option<View>, p: ParticipantId, name: Option<string>, e: Evidence)
    requires TaughtParticipant(None, v', p, name, e)
    ensures Unjudged(v')
  {
  }

  lemma NewAccountIsOpen(view: View, v': Option<View>, p: ParticipantId, name: Option<string>, e: Evidence)
    requires view.record.body.AccountBody? && view.record.body.links == [] && view.record.body.isSelf.None?
    requires TaughtAccount(view, v', p, name, e)
    ensures OpenAccount(v') && v'.value.record.body.links == [Link(p, Candidate, 0.1, [e])]
  {
    assert [] + [Link(p, Candidate, 0.1, [e])] == [Link(p, Candidate, 0.1, [e])];
  }

  /** A new account is its own participant's. */
  lemma FirstSubject(lookup: Lookup, uuid: string)
    requires Addressed(lookup.account)
    ensures IsSubject([], lookup.account, uuid, Observed(lookup.account))
    ensures var b := AccountAt([], lookup.account).record.body; b.links == [] && b.isSelf.None?
    ensures At([], OfParticipant(Observed(lookup.account))).None?
  {
  }

  lemma FirstAccount(lookup: Lookup, uuid: string, first: Stamp, second: Stamp)
    requires Addressed(lookup.account) && FreshStamps([], first, second) && lookup.name != Some("")
    ensures var a, p, log := lookup.account, Observed(lookup.account), Observe([], lookup, uuid, first, second).log;
            && Canonical(log) && Unjudged(At(log, OfParticipant(p)))
            && At(log, OfAccount(a)).Some? && OpenAccount(At(log, OfAccount(a)))
            && AccountAt(log, a).record.body.links == [Link(p, Candidate, 0.1, [AutomaticEvidence(a)])]
  {
    var a, p, e := lookup.account, Observed(lookup.account), AutomaticEvidence(lookup.account);
    var o := Observe([], lookup, uuid, first, second);
    IdentityFailures.FirstObservation(lookup, uuid, first, second);
    FirstSubject(lookup, uuid);
    ObserveTeaches([], lookup, uuid, first, second);
    NewParticipantIsUnjudged(At(o.log, OfParticipant(p)), p, lookup.name, e);
    NewAccountIsOpen(AccountAt([], a), At(o.log, OfAccount(a)), p, lookup.name, e);
  }

  lemma FirstRelations(lookup: Lookup, uuid: string, first: Stamp, second: Stamp, r: RelationId)
    requires FreshStamps([], first, second)
    ensures At(Observe([], lookup, uuid, first, second).log, OfRelation(r)).None?
  {
    ObserveKeepsKnowledge([], lookup, uuid, first, second);
    IdentityFailures.NothingIsShown(OfRelation(r));
  }

  lemma OneRelationIsWritten(log: Log, b: Body, stamp: Stamp)
    requires RelationIsValid(log, b)
    ensures !WrittenRelations(log, [b], [stamp]).1
  {
    assert [b][1..] == [] && [stamp][1..] == [];
  }

  lemma OnePrepared(log: Log, p: ParticipantId, r: ClueRelation, evidence: seq<Evidence>)
    ensures PreparedRelations(log, p, [r], evidence) == [RelationFromClue(log, p, r, evidence)]
  {
    assert [r][..0] == [];
  }

  /** An accepted clue with one relation to a project or an organization is written whole. */
  lemma OneRelationClue(log: Log, clue: Clue, p: ParticipantId, stamp: Stamp, other: Stamp, r: ClueRelation)
    requires Canonical(log) && Fresh(log, stamp.eventId) && ClueIsFor(log, clue, p)
    requires clue.name != Some("") && clue.relations == [r] && r.kind != ParticipantTarget
    ensures !Learn(log, clue, stamp, [other]).failed
  {
    StudentIff(log, clue, p);
    ParticipantOfClue(log, clue, p, stamp);
    OnePrepared(log, p, r, clue.evidence);
    OneRelationIsWritten(Updated(log, ClueBody(At(log, OfParticipant(p)).value.record.body, clue), stamp),
      RelationFromClue(log, p, r, clue.evidence), other);
  }

  lemma PlainClueIsFor(log: Log, clue: Clue, p: ParticipantId, e: Evidence, r: ClueRelation)
    requires At(log, OfAccount(clue.account)).Some? && OpenAccount(At(log, OfAccount(clue.account)))
    requires var links := AccountAt(log, clue.account).record.body.links;
             |links| == 1 && links[0].participant == p && links[0].status == Candidate
    requires Unjudged(At(log, OfParticipant(p))) && At(log, OfRelation(IdOf(p, r))).None?
    requires clue.participant.None? && clue.evidence == [e] && e.messageId != "" && clue.relations == [r]
    ensures ClueIsFor(log, clue, p)
  {
    assert OnlyCandidate(AccountAt(log, clue.account).record.body.links, 0);
    assert e in clue.evidence && FirstFifty(clue.relations) == [r];
  }

  /** A message about a newly observed account that tells one relation to a project is accepted
      and written. */
  lemma FirstClueCase(lookup: Lookup, uuid: string, first: Stamp, second: Stamp, e: Evidence, r: ClueRelation,
      third: Stamp, fourth: Stamp)
    requires Addressed(lookup.account) && FreshStamps([], first, second) && lookup.name != Some("")
    requires e.messageId != "" && r.kind == ProjectTarget
    requires Fresh(Observe([], lookup, uuid, first, second).log, third.eventId)
    ensures var log := Observe([], lookup, uuid, first, second).log;
            var clue := Clue(lookup.account, None, None, None, [], [e], [r]);
            ClueIsFor(log, clue, Observed(lookup.account)) && !Learn(log, clue, third, [fourth]).failed
  {
    var p, log := Observed(lookup.account), Observe([], lookup, uuid, first, second).log;
    var clue := Clue(lookup.account, None, None, None, [], [e], [r]);
    FirstAccount(lookup, uuid, first, second);
    FirstRelations(lookup, uuid, first, second, IdOf(p, r));
    PlainClueIsFor(log, clue, p, e, r);
    OneRelationClue(log, clue, p, third, fourth, r);
  }
}
