/** When observing an account fails. */
module IdentityFailures {
  import opened Records
  import opened OrderedSets
  import opened IdentityHeads
  import opened IdentityViews
  import opened IdentityStore
  import opened IdentityLearning
  import opened IdentityRepeats

  /** A candidate may be linked to a participant that is not there yet, or that is current. */
  predicate MayBeLinked(view: Option<View>) {
    view.Some? && view.value.record.body.ParticipantBody? ==>
      view.value.conflict.None? && Active(view.value.record.body.status)
  }

  /** What the account's links have to be for an observation of `p` to succeed. */
  predicate Linkable(log: Log, links: seq<Link>) {
    && DistinctParticipants(links)
    && forall l <- links | l.status == Candidate :: MayBeLinked(At(log, OfParticipant(l.participant)))
  }

  lemma {:induction false} CandidateLinksHaveAll(links: seq<Link>)
    ensures forall l <- links :: l.status == Candidate ==> l in CandidateLinks(links)
  {
    if links != [] {
      CandidateLinksHaveAll(links[..|links| - 1]);
      assert links == links[..|links| - 1] + [links[|links| - 1]];
    }
  }

  /** Every candidate link that an observation leaves is to the participant that it is about. */
  lemma OnlyCandidateIsSubject(links: seq<Link>, p: ParticipantId, a: Account)
    requires About(links, p)
    ensures forall l <- LinksWith(links, p, a) :: l.status == Candidate ==> l.participant == p
  {
    var links' := LinksWith(links, p, a);
    LinksAgain(links, p, a);
    CandidateLinksHaveAll(links');
  }

  /** Links without authority are valid exactly when they are distinct and every candidate is current. */
  lemma OpenLinksAreValid(log: Log, links: seq<Link>)
    requires !HasAuthority(links)
    ensures LinksAreValid(log, links)
            <==> && DistinctParticipants(links)
                 && forall l <- links | l.status == Candidate :: Current(log, l.participant, false)
  {
    forall l | l in links ensures Active(l.status) <==> l.status == Candidate {
    }
    forall i | 0 <= i < |links| ensures !Authoritative(links[i].status) {
      assert links[i] in links;
    }
  }

  /** Observing makes a new participant current, and leaves the standing of a known one as it was. */
  lemma LearnedIsCurrent(log: Log, p: ParticipantId, lookup: Lookup, stamp: Stamp)
    requires Canonical(log) && Fresh(log, stamp.eventId)
    ensures Current(ObservedParticipantLog(log, p, lookup, stamp), p, false) <==> MayBeLinked(At(log, OfParticipant(p)))
  {
    ParticipantIsShown(log, p, lookup, stamp);
  }

  lemma SubjectLinksAreValid(log: Log, lookup: Lookup, p: ParticipantId, stamp: Stamp)
    requires Canonical(log) && Fresh(log, stamp.eventId)
    requires !HasAuthority(AccountAt(log, lookup.account).record.body.links)
             && About(AccountAt(log, lookup.account).record.body.links, p)
    ensures var links' := LinksWith(AccountAt(log, lookup.account).record.body.links, p, lookup.account);
            LinksAreValid(ObservedParticipantLog(log, p, lookup, stamp), links') <==> Linkable(log, links')
  {
    var links := AccountAt(log, lookup.account).record.body.links;
    LinksWithKeepOpen(links, p, lookup.account);
    OnlyCandidateIsSubject(links, p, lookup.account);
    OpenLinksAreValid(ObservedParticipantLog(log, p, lookup, stamp), LinksWith(links, p, lookup.account));
    LearnedIsCurrent(log, p, lookup, stamp);
  }

  lemma FailureIsInvalidity(log: Log, lookup: Lookup, uuid: string, first: Stamp, second: Stamp)
    ensures var p := Subject(log, lookup, uuid);
            Observe(log, lookup, uuid, first, second).failed
            <==> p.Some? && !LinksAreValid(ObservedParticipantLog(log, p.value, lookup, first),
                                           LinksWith(AccountAt(log, lookup.account).record.body.links, p.value,
                                             lookup.account))
  {
  }

  /** An observation fails if and only if it is about a participant and the account's links name
      someone twice or name a candidate that is retired or in conflict. */
  lemma ObservationFailsIff(log: Log, lookup: Lookup, uuid: string, first: Stamp, second: Stamp)
    requires Canonical(log) && FreshStamps(log, first, second)
    ensures var p := Subject(log, lookup, uuid);
            Observe(log, lookup, uuid, first, second).failed
            <==> p.Some? && !Linkable(log, LinksWith(AccountAt(log, lookup.account).record.body.links, p.value,
              lookup.account))
  {
    FailureIsInvalidity(log, lookup, uuid, first, second);
    if Subject(log, lookup, uuid).Some? {
      SubjectIsAbout(log, lookup, uuid);
      SubjectLinksAreValid(log, lookup, Subject(log, lookup, uuid).value, first);
    }
  }

  // ---------------------------------------------------------------- two failing families

  lemma LinkedTwiceIsNotLinkable(log: Log, links: seq<Link>, p: ParticipantId, a: Account)
    requires CandidateLinks(links) == [] && |links| < MAX_LIST && exists l <- links :: l.participant == p
    ensures !Linkable(log, LinksWith(links, p, a))
  {
    var links' := LinksWith(links, p, a);
    var l :| l in links && l.participant == p;
    var i :| 0 <= i < |links| && links[i] == l;
    assert links'[i].participant == links'[|links|].participant;
  }

  lemma SubjectIsObserved(log: Log, lookup: Lookup, uuid: string)
    requires WithoutCandidate(log, lookup, uuid) && At(log, OfParticipant(Observed(lookup.account))).None?
    ensures Subject(log, lookup, uuid) == Some(Observed(lookup.account))
  {
  }

  /** The account links, as retired, the very participant that the observation creates. */
  lemma RetiredLinkFails(log: Log, lookup: Lookup, uuid: string, first: Stamp, second: Stamp)
    requires Canonical(log) && FreshStamps(log, first, second)
    requires WithoutCandidate(log, lookup, uuid) && At(log, OfParticipant(Observed(lookup.account))).None?
    requires |AccountAt(log, lookup.account).record.body.links| < MAX_LIST
    requires exists l <- AccountAt(log, lookup.account).record.body.links :: l.participant == Observed(lookup.account)
    ensures Observe(log, lookup, uuid, first, second).failed
  {
    SubjectIsObserved(log, lookup, uuid);
    LinkedTwiceIsNotLinkable(log, AccountAt(log, lookup.account).record.body.links, Observed(lookup.account),
      lookup.account);
    ObservationFailsIff(log, lookup, uuid, first, second);
  }

  /** The candidate was retired after it had been linked. */
  predicate CandidateIsBlocked(log: Log, lookup: Lookup, p: ParticipantId) {
    var links := AccountAt(log, lookup.account).record.body.links;
    && Addressed(lookup.account) && !Settled(AccountAt(log, lookup.account))
    && About(links, p) && CandidateLinks(FirstFifty(links)) != []
    && !MayBeLinked(At(log, OfParticipant(p)))
  }

  lemma BlockedIsNotLearnable(view: Option<View>)
    requires view.Some? ==> view.value.record.body.ParticipantBody?
    requires !MayBeLinked(view)
    ensures !Learnable(view)
  {
  }

  lemma BlockedCandidateIsKept(links: seq<Link>, p: ParticipantId, a: Account)
    requires About(links, p) && CandidateLinks(FirstFifty(links)) != []
    ensures CandidateLinks(links) != []
    ensures exists l <- LinksWith(links, p, a) :: l.status == Candidate && l.participant == p
  {
    if |links| > MAX_LIST {
      CandidatesOfPrefix(links, MAX_LIST);
    }
    LinksAgain(links, p, a);
    var c := CandidateLinks(LinksWith(links, p, a));
    assert c[0] in c;
  }

  /** An observation of an account whose one candidate was retired, or is in conflict, fails
      before it writes anything, so every later one fails as well. */
  lemma BlockedCandidateFails(log: Log, lookup: Lookup, p: ParticipantId, uuid: string, first: Stamp, second: Stamp)
    requires Canonical(log) && FreshStamps(log, first, second) && CandidateIsBlocked(log, lookup, p)
    ensures Observe(log, lookup, uuid, first, second) == Outcome(log, Some(p), true)
  {
    var links := AccountAt(log, lookup.account).record.body.links;
    BlockedCandidateIsKept(links, p, lookup.account);
    SubjectOfOneCandidate(log, lookup, p, uuid);
    BlockedIsNotLearnable(At(log, OfParticipant(p)));
    var l :| l in LinksWith(links, p, lookup.account) && l.status == Candidate && l.participant == p;
    assert !Linkable(log, LinksWith(links, p, lookup.account));
    ObservationFailsIff(log, lookup, uuid, first, second);
    FailedLeavesLearned(log, lookup, p, uuid, first, second);
  }

  lemma FailedLeavesLearned(log: Log, lookup: Lookup, p: ParticipantId, uuid: string, first: Stamp, second: Stamp)
    requires Subject(log, lookup, uuid) == Some(p) && Observe(log, lookup, uuid, first, second).failed
    ensures Observe(log, lookup, uuid, first, second)
            == Outcome(ObservedParticipantLog(log, p, lookup, first), Some(p), true)
  {
  }

  lemma UpdateKeepsAccounts(log: Log, body: Body, stamp: Stamp, a: Account)
    requires body.ParticipantBody?
    ensures AccountAt(Updated(log, body, stamp), a) == AccountAt(log, a)
  {
    if !AlreadyShown(log, body) {
      OthersStayShown(log, NewEvent(log, body, stamp), OfAccount(a));
    }
  }

  /** Retiring the candidate of an open account is one participant update, which looks at no
      account: it blocks every observation of that account. */
  lemma RetiringTheCandidateBlocks(log: Log, lookup: Lookup, body: Body, stamp: Stamp)
    requires Canonical(log) && Fresh(log, stamp.eventId)
    requires Addressed(lookup.account) && !Settled(AccountAt(log, lookup.account))
    requires body.ParticipantBody? && body.status == Retired
    requires About(AccountAt(log, lookup.account).record.body.links, body.participant)
    requires CandidateLinks(FirstFifty(AccountAt(log, lookup.account).record.body.links)) != []
    ensures Canonical(Updated(log, body, stamp))
            && CandidateIsBlocked(Updated(log, body, stamp), lookup, body.participant)
  {
    UpdateIsShown(log, body, stamp);
    UpdateKeepsAccounts(log, body, stamp, lookup.account);
  }

  // ---------------------------------------------------------------- a concrete run

  lemma NothingIsShown(t: Target)
    ensures At([], t).None?
  {
  }

  /** The first observation of all succeeds and leaves its account open with one candidate. */
  lemma FirstObservation(lookup: Lookup, uuid: string, first: Stamp, second: Stamp)
    requires Addressed(lookup.account) && FreshStamps([], first, second)
    ensures var o := Observe([], lookup, uuid, first, second);
            && !o.failed && Canonical(o.log)
            && !Settled(AccountAt(o.log, lookup.account))
            && About(AccountAt(o.log, lookup.account).record.body.links, Observed(lookup.account))
            && CandidateLinks(FirstFifty(AccountAt(o.log, lookup.account).record.body.links)) != []
  {
    var nothing: Log := [];
    var p := Observed(lookup.account);
    NothingIsShown(OfAccount(lookup.account));
    NothingIsShown(OfParticipant(p));
    FirstLinks(p, lookup.account);
    FirstSubject(lookup, uuid);
    assert Linkable(nothing, LinksWith([], p, lookup.account));
    ObservationFailsIff(nothing, lookup, uuid, first, second);
    SuccessfulWrites(nothing, lookup, uuid, first, second);
    ObserveKeepsAuthority(nothing, lookup, uuid, first, second);
    FirstObservationIsShown(lookup, first, second, Observe(nothing, lookup, uuid, first, second).log);
  }

  lemma FirstLinks(p: ParticipantId, a: Account)
    ensures LinksWith([], p, a) == [Link(p, Candidate, 0.1, [AutomaticEvidence(a)])]
    ensures About([], p) && Fits([]) && DistinctParticipants(LinksWith([], p, a))
  {
  }

  lemma FirstSubject(lookup: Lookup, uuid: string)
    requires Addressed(lookup.account) && At([], OfAccount(lookup.account)).None?
             && At([], OfParticipant(Observed(lookup.account))).None?
    ensures Subject([], lookup, uuid) == Some(Observed(lookup.account))
    ensures !Settled(AccountAt([], lookup.account)) && AccountAt([], lookup.account).record.body.links == []
  {
  }

  lemma FirstObservationIsShown(lookup: Lookup, first: Stamp, second: Stamp, after: Log)
    requires FreshStamps([], first, second)
    requires !Settled(AccountAt([], lookup.account)) && AccountAt([], lookup.account).record.body.links == []
    requires after == Updated(ObservedParticipantLog([], Observed(lookup.account), lookup, first),
                              ObservedAccount(AccountAt([], lookup.account), Observed(lookup.account), lookup), second)
    ensures !Settled(AccountAt(after, lookup.account))
    ensures About(AccountAt(after, lookup.account).record.body.links, Observed(lookup.account))
    ensures CandidateLinks(FirstFifty(AccountAt(after, lookup.account).record.body.links)) != []
  {
    var p := Observed(lookup.account);
    FirstLinks(p, lookup.account);
    ObservationIsShown([], lookup, p, first, second, after);
    AccountAgain(lookup, p, AccountAt([], lookup.account), AccountAt(after, lookup.account));
  }

  /** Observe an account, retire the candidate that this made, observe again: the call fails. */
  lemma RetiredCandidateCase(lookup: Lookup, uuid: string, first: Stamp, second: Stamp, body: Body, third: Stamp,
                             uuid': string, fourth: Stamp, fifth: Stamp)
    requires Addressed(lookup.account) && FreshStamps([], first, second)
    requires body.ParticipantBody? && body.participant == Observed(lookup.account) && body.status == Retired
    requires Fresh(Observe([], lookup, uuid, first, second).log, third.eventId)
    requires FreshStamps(Updated(Observe([], lookup, uuid, first, second).log, body, third), fourth, fifth)
    ensures !Observe([], lookup, uuid, first, second).failed
    ensures var retired := Updated(Observe([], lookup, uuid, first, second).log, body, third);
            Observe(retired, lookup, uuid', fourth, fifth) == Outcome(retired, Some(Observed(lookup.account)), true)
  {
    var seen := Observe([], lookup, uuid, first, second).log;
    FirstObservation(lookup, uuid, first, second);
    RetiringTheCandidateBlocks(seen, lookup, body, third);
    BlockedCandidateFails(Updated(seen, body, third), lookup, Observed(lookup.account), uuid', fourth, fifth);
  }
}
