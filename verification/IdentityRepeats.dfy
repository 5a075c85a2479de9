/** Observing the same account twice: when the second observation appends nothing. */
module IdentityRepeats {
  import opened Records
  import opened OrderedSets
  import opened IdentityHeads
  import opened IdentityViews
  import opened IdentityStore
  import opened IdentityLearning

  lemma FirstFiftyAgain<T>(s: seq<T>, x: T)
    ensures var kept := FirstFifty(Distinct(s + [x]));
            FirstFifty(Distinct(kept + [x])) == kept
  {
    var all := Distinct(s + [x]);
    var kept := FirstFifty(all);
    FiftyDistinct(s + [x]);
    DistinctAppend(kept, x);
    assert x in s + [x] && x in all;
    assert |kept| < MAX_LIST ==> kept == all;
  }

  lemma LastFiftyHolds<T>(s: seq<T>, x: T)
    requires |s| <= MAX_LIST
    ensures x in LastFifty(Distinct(s + [x]))
  {
    DistinctAppend(s, x);
    if x in s {
      DistinctIsShorter(s);
      ShortIsLast(Distinct(s), MAX_LIST);
    } else {
      LastHasTheEnd(Distinct(s) + [x], MAX_LIST);
    }
  }

  /** What is kept of a list and one more element stays when that element comes again, exactly
      when it is among what is kept. */
  lemma LastFiftyAgainIff<T>(s: seq<T>, x: T)
    ensures var kept := LastFifty(Distinct(s + [x]));
            LastFifty(Distinct(kept + [x])) == kept <==> x in kept
  {
    var kept := LastFifty(Distinct(s + [x]));
    FiftyDistinct(s + [x]);
    DistinctAppend(kept, x);
    if x !in kept {
      LastHasTheEnd(kept + [x], MAX_LIST);
    }
  }

  lemma NamesAgain(s: seq<string>, name: Option<string>)
    ensures var kept := FirstFifty(Distinct(s + NameList(name)));
            FirstFifty(Distinct(kept + NameList(name))) == kept
  {
    if name.Some? {
      FirstFiftyAgain(s, name.value);
    } else {
      assert s + [] == s;
      var kept := FirstFifty(Distinct(s));
      FiftyDistinct(s);
      assert kept + [] == kept;
    }
  }

  /** A participant whose stored fields are within the program's own limits. */
  predicate WithinLimits(view: Option<View>) {
    view.Some? && view.value.record.body.ParticipantBody? ==>
      |view.value.record.body.evidence| <= MAX_LIST && view.value.record.body.displayName != Some("")
  }

  /** The evidence of the observation is among what the participant keeps, and a stored empty
      name does not hide the observed one. Only records of another program can fail this. */
  predicate Retained(view: Option<View>, name: Option<string>, e: Evidence) {
    view.Some? && view.value.record.body.ParticipantBody? ==>
      && e in LastFifty(Distinct(view.value.record.body.evidence + [e]))
      && (view.value.record.body.displayName == Some("") ==> name.None?)
  }

  lemma WithinLimitsIsRetained(view: Option<View>, name: Option<string>, e: Evidence)
    requires WithinLimits(view)
    ensures Retained(view, name, e)
  {
    if view.Some? && view.value.record.body.ParticipantBody? {
      LastFiftyHolds(view.value.record.body.evidence, e);
    }
  }

  lemma NewNamesAgain(name: Option<string>)
    ensures var kept := FirstFifty(Distinct(NameList(name)));
            FirstFifty(Distinct(kept + NameList(name))) == kept
  {
    NamesAgain([], name);
    assert [] + NameList(name) == NameList(name);
  }

  lemma NewEvidenceAgain(e: Evidence)
    ensures var kept := LastFifty(Distinct([e]));
            LastFifty(Distinct(kept + [e])) == kept
  {
    LastFiftyAgainIff([], e);
    LastFiftyHolds([], e);
    assert [] + [e] == [e];
  }

  lemma NewBodyAgain(p: ParticipantId, name: Option<string>, e: Evidence, later: View)
    requires name != Some("") && later.record.body == ObservedBody(None, p, name, e)
    ensures ObservedBody(Some(later), p, name, e) == later.record.body
  {
    NewNamesAgain(name);
    NewEvidenceAgain(e);
  }

  lemma KnownBodyAgain(view: View, p: ParticipantId, name: Option<string>, e: Evidence, later: View)
    requires view.record.body.ParticipantBody? && name != Some("")
    requires later.record.body == ObservedBody(Some(view), p, name, e)
    ensures ObservedBody(Some(later), p, name, e) == later.record.body <==> Retained(Some(view), name, e)
  {
    var b, b' := view.record.body, later.record.body;
    NamesAgain(b.aliases, name);
    LastFiftyAgainIff(b.evidence, e);
    assert FirstFifty(Distinct(b'.aliases + NameList(name))) == b'.aliases;
    assert LastFifty(Distinct(b'.evidence + [e])) == b'.evidence <==> e in LastFifty(Distinct(b.evidence + [e]));
    assert NonEmpty(Or(b'.displayName, name)) == b'.displayName <==> (b.displayName == Some("") ==> name.None?);
  }

  /** Learning the same observation again changes nothing in the participant, exactly when the
      participant retained it. */
  lemma ObservedBodyAgain(view: Option<View>, p: ParticipantId, name: Option<string>, e: Evidence, later: View)
    requires view.Some? ==> view.value.record.body.ParticipantBody?
    requires name != Some("")
    requires later.record.body == ObservedBody(view, p, name, e)
    ensures ObservedBody(Some(later), p, name, e) == later.record.body <==> Retained(view, name, e)
  {
    if view.None? {
      NewBodyAgain(p, name, e, later);
    } else {
      KnownBodyAgain(view.value, p, name, e, later);
    }
  }

  lemma CandidateLinksAppend(links: seq<Link>, l: Link)
    ensures CandidateLinks(links + [l]) == CandidateLinks(links) + if l.status == Candidate then [l] else []
  {
    assert (links + [l])[..|links|] == links;
  }

  lemma {:induction false} CandidatesOfPrefix(links: seq<Link>, n: nat)
    requires n <= |links|
    ensures CandidateLinks(links[..n]) <= CandidateLinks(links)
  {
    if n < |links| {
      assert links[..|links| - 1][..n] == links[..n];
      CandidatesOfPrefix(links[..|links| - 1], n);
    } else {
      assert links[..n] == links;
    }
  }

  /** The account has no candidate link, or exactly one, to this participant. */
  predicate About(links: seq<Link>, p: ParticipantId) {
    |CandidateLinks(links)| == 0 || (|CandidateLinks(links)| == 1 && CandidateLinks(links)[0].participant == p)
  }

  /** The candidate link has its place among the fifty that an account keeps. */
  predicate Fits(links: seq<Link>) {
    |links| < MAX_LIST || CandidateLinks(FirstFifty(links)) != []
  }

  lemma FirstFiftyOfLonger<T>(s: seq<T>, t: seq<T>)
    requires |s| >= MAX_LIST
    ensures FirstFifty(s + t) == s[..MAX_LIST] == FirstFifty(s)
  {
    assert (s + t)[..MAX_LIST] == s[..MAX_LIST];
    assert |s| == MAX_LIST ==> s[..MAX_LIST] == s;
    assert |s| == MAX_LIST && t == [] ==> s + t == s;
  }

  lemma FullLinksAreCut(links: seq<Link>, p: ParticipantId, a: Account)
    requires |links| >= MAX_LIST
    ensures LinksWith(links, p, a) == FirstFifty(links) == links[..MAX_LIST]
  {
    FirstFiftyOfLonger(links, [Link(p, Candidate, 0.1, [AutomaticEvidence(a)])]);
    FirstFiftyOfLonger(links, []);
    assert links + [] == links;
  }

  /** The links that an observation leaves are about the same participant, hold a candidate
      exactly when it fits, and then come out of a second observation unchanged. */
  lemma LinksAgain(links: seq<Link>, p: ParticipantId, a: Account)
    requires About(links, p)
    ensures var links' := LinksWith(links, p, a);
            && About(links', p)
            && (CandidateLinks(links') != [] <==> Fits(links))
            && (Fits(links) ==> LinksWith(links', p, a) == links')
  {
    if |links| < MAX_LIST {
      CandidateLinksAppend(links, Link(p, Candidate, 0.1, [AutomaticEvidence(a)]));
    } else {
      FullLinksAreCut(links, p, a);
      CandidatesOfPrefix(links, MAX_LIST);
    }
  }

  predicate ShowsParticipant(known: Option<View>) {
    known.Some? ==> known.value.record.body.ParticipantBody?
  }

  /** How an observation changes what is shown of its participant and its account. */
  predicate Taught(lookup: Lookup, p: ParticipantId, view: View, view': View, known: Option<View>, known': Option<View>)
    requires view.record.body.AccountBody? && ShowsParticipant(known)
  {
    && view'.conflict.None?
    && view'.record.body == ObservedAccount(view, p, lookup)
    && if Learnable(known)
       then known'.Some? && known'.value.conflict.None?
         && known'.value.record.body == ObservedBody(known, p, lookup.name, AutomaticEvidence(lookup.account))
       else known' == known
  }

  /** Observing again would write what is already shown. */
  predicate Saturated(lookup: Lookup, p: ParticipantId, view: View, known: Option<View>)
    requires view.record.body.AccountBody? && ShowsParticipant(known)
  {
    && !Settled(view)
    && |CandidateLinks(view.record.body.links)| == 1 && CandidateLinks(view.record.body.links)[0].participant == p
    && ObservedAccount(view, p, lookup) == view.record.body
    && (Learnable(known) ==>
          && known.Some?
          && ObservedBody(known, p, lookup.name, AutomaticEvidence(lookup.account)) == known.value.record.body)
  }

  /** What has to hold before an observation for its repetition to be quiet. */
  predicate Repeatable(lookup: Lookup, view: View, known: Option<View>)
    requires view.record.body.AccountBody? && ShowsParticipant(known)
  {
    Fits(view.record.body.links) && (Learnable(known)
      ==> Retained(known, lookup.name, AutomaticEvidence(lookup.account)))
  }

  lemma AccountAgain(lookup: Lookup, p: ParticipantId, view: View, view': View)
    requires view.record.body.AccountBody? && view'.record.body.AccountBody?
    requires !Settled(view) && About(view.record.body.links, p)
    requires view'.conflict.None? && view'.record.body == ObservedAccount(view, p, lookup)
    ensures !Settled(view') && About(view'.record.body.links, p)
    ensures CandidateLinks(view'.record.body.links) != [] <==> Fits(view.record.body.links)
    ensures Fits(view.record.body.links) ==> ObservedAccount(view', p, lookup) == view'.record.body
  {
    LinksAgain(view.record.body.links, p, lookup.account);
    LinksWithKeepOpen(view.record.body.links, p, lookup.account);
  }

  lemma TaughtIsSaturated(lookup: Lookup, p: ParticipantId, view: View, view': View, known: Option<View>,
      known': Option<View>)
    requires view.record.body.AccountBody? && view'.record.body.AccountBody? && ShowsParticipant(known)
             && ShowsParticipant(known')
    requires Taught(lookup, p, view, view', known, known') && !Settled(view) && About(view.record.body.links, p)
             && lookup.name != Some("")
    ensures Saturated(lookup, p, view', known') <==> Repeatable(lookup, view, known)
  {
    AccountAgain(lookup, p, view, view');
    if Learnable(known) {
      ObservedBodyAgain(known, p, lookup.name, AutomaticEvidence(lookup.account), known'.value);
    }
  }

  lemma SaturatedParticipantIsQuiet(log: Log, lookup: Lookup, p: ParticipantId, stamp: Stamp)
    requires Saturated(lookup, p, AccountAt(log, lookup.account), At(log, OfParticipant(p)))
    ensures ObservedParticipantLog(log, p, lookup, stamp) == log
  {
  }

  lemma SaturatedAccountIsQuiet(log: Log, lookup: Lookup, p: ParticipantId, stamp: Stamp)
    requires At(log, OfAccount(lookup.account)).Some?
    requires Saturated(lookup, p, AccountAt(log, lookup.account), At(log, OfParticipant(p)))
    ensures Updated(log, ObservedAccount(AccountAt(log, lookup.account), p, lookup), stamp) == log
  {
  }

  lemma SaturatedIsQuiet(log: Log, lookup: Lookup, p: ParticipantId, uuid: string, first: Stamp, second: Stamp)
    requires At(log, OfAccount(lookup.account)).Some?
    requires Saturated(lookup, p, AccountAt(log, lookup.account), At(log, OfParticipant(p)))
    ensures Observe(log, lookup, uuid, first, second).log == log
  {
    SaturatedParticipantIsQuiet(log, lookup, p, first);
    SaturatedAccountIsQuiet(log, lookup, p, second);
    ObserveWrites(log, lookup, uuid, first, second);
  }

  lemma ParticipantIsShown(log: Log, p: ParticipantId, lookup: Lookup, stamp: Stamp)
    requires Canonical(log) && Fresh(log, stamp.eventId)
    ensures var learned := ObservedParticipantLog(log, p, lookup, stamp);
            var known, known' := At(log, OfParticipant(p)), At(learned, OfParticipant(p));
            if Learnable(known)
            then known'.Some? && known'.value.conflict.None?
              && known'.value.record.body == ObservedBody(known, p, lookup.name, AutomaticEvidence(lookup.account))
            else known' == known
  {
    var known := At(log, OfParticipant(p));
    if Learnable(known) {
      var body := ObservedBody(known, p, lookup.name, AutomaticEvidence(lookup.account));
      ObservedBodyIsTidy(known, p, lookup.name, AutomaticEvidence(lookup.account));
      UpdateIsShown(log, body, stamp);
    }
  }

  lemma ObservedBodyIsTidy(view: Option<View>, p: ParticipantId, name: Option<string>, e: Evidence)
    requires view.Some? ==> view.value.record.body.ParticipantBody?
    ensures Tidy(ObservedBody(view, p, name, e))
  {
    if view.None? {
      FiftyDistinct(NameList(name));
      FiftyDistinct([e]);
    } else {
      FiftyDistinct(view.value.record.body.aliases + NameList(name));
      FiftyDistinct(view.value.record.body.evidence + [e]);
    }
  }

  lemma AccountIsShown(log: Log, view: View, p: ParticipantId, lookup: Lookup, stamp: Stamp)
    requires Canonical(log) && Fresh(log, stamp.eventId) && view.record.body.AccountBody?
    ensures var after := Updated(log, ObservedAccount(view, p, lookup), stamp);
            && At(after, OfParticipant(p)) == At(log, OfParticipant(p))
            && At(after, OfAccount(lookup.account)).Some?
            && AccountAt(after, lookup.account).conflict.None?
            && AccountAt(after, lookup.account).record.body == ObservedAccount(view, p, lookup)
  {
    UpdateIsShown(log, ObservedAccount(view, p, lookup), stamp);
  }

  lemma ObservationIsShown(log: Log, lookup: Lookup, p: ParticipantId, first: Stamp, second: Stamp, after: Log)
    requires Canonical(log) && FreshStamps(log, first, second)
    requires after == Updated(ObservedParticipantLog(log, p, lookup, first),
             ObservedAccount(AccountAt(log, lookup.account), p, lookup), second)
    ensures At(after, OfAccount(lookup.account)).Some?
    ensures Taught(lookup, p, AccountAt(log, lookup.account), AccountAt(after, lookup.account),
            At(log, OfParticipant(p)), At(after, OfParticipant(p)))
  {
    ParticipantIsShown(log, p, lookup, first);
    ObservedLogKeepsAuthority(log, p, lookup, first);
    FreshAfterObserved(log, p, lookup, first, second.eventId);
    AccountIsShown(ObservedParticipantLog(log, p, lookup, first), AccountAt(log, lookup.account), p, lookup, second);
  }

  predicate Addressed(a: Account) {
    a.platform != "" && a.namespace != "" && a.sender != ""
  }

  /** The participant that an observation is about, when it is about one. */
  function Subject(log: Log, lookup: Lookup, uuid: string): Option<ParticipantId> {
    var view := AccountAt(log, lookup.account);
    if !Addressed(lookup.account) || Settled(view) then None
    else ObservedParticipant(log, lookup.account, view.record.body.links, uuid)
  }

  /** Without a subject nothing is written; with one, a call that succeeds writes both records. */
  lemma SuccessfulWrites(log: Log, lookup: Lookup, uuid: string, first: Stamp, second: Stamp)
    requires !Observe(log, lookup, uuid, first, second).failed
    ensures var after, p := Observe(log, lookup, uuid, first, second).log, Subject(log, lookup, uuid);
            if p.None? then after == log
            else after == Updated(ObservedParticipantLog(log, p.value, lookup, first),
              ObservedAccount(AccountAt(log, lookup.account), p.value, lookup), second)
  {
  }

  lemma NoSubjectIsQuiet(log: Log, lookup: Lookup, uuid: string, uuid': string, first: Stamp, second: Stamp)
    requires Subject(log, lookup, uuid).None?
    ensures Observe(log, lookup, uuid', first, second).log == log
  {
  }

  lemma SubjectIsAbout(log: Log, lookup: Lookup, uuid: string)
    requires Subject(log, lookup, uuid).Some?
    ensures About(AccountAt(log, lookup.account).record.body.links, Subject(log, lookup, uuid).value)
    ensures Addressed(lookup.account) && !Settled(AccountAt(log, lookup.account))
  {
  }

  /** The account is open to learning and has no candidate; the next one could get this id. */
  predicate WithoutCandidate(log: Log, lookup: Lookup, uuid: string) {
    && Addressed(lookup.account) && !Settled(AccountAt(log, lookup.account))
    && CandidateLinks(AccountAt(log, lookup.account).record.body.links) == []
    && At(log, OfParticipant(ObservedAgain(uuid))).None?
  }

  lemma NewSubject(log: Log, lookup: Lookup, uuid: string)
    requires WithoutCandidate(log, lookup, uuid)
    ensures Subject(log, lookup, uuid).Some? && At(log, OfParticipant(Subject(log, lookup, uuid).value)).None?
  {
  }

  lemma NewParticipantIsWritten(log: Log, lookup: Lookup, p: ParticipantId, stamp: Stamp)
    requires At(log, OfParticipant(p)).None?
    ensures |ObservedParticipantLog(log, p, lookup, stamp)| == |log| + 1
  {
    assert !AlreadyShown(log, ObservedBody(None, p, lookup.name, AutomaticEvidence(lookup.account)));
  }

  lemma SubjectIsWrittenFirst(log: Log, lookup: Lookup, uuid: string, first: Stamp, second: Stamp)
    requires Subject(log, lookup, uuid).Some?
    ensures |Observe(log, lookup, uuid, first, second).log| >= |ObservedParticipantLog(log,
            Subject(log, lookup, uuid).value, lookup, first)|
  {
  }

  lemma NewSubjectIsWritten(log: Log, lookup: Lookup, uuid: string, first: Stamp, second: Stamp)
    requires WithoutCandidate(log, lookup, uuid)
    ensures |Observe(log, lookup, uuid, first, second).log| > |log|
  {
    NewSubject(log, lookup, uuid);
    NewParticipantIsWritten(log, lookup, Subject(log, lookup, uuid).value, first);
    SubjectIsWrittenFirst(log, lookup, uuid, first, second);
  }

  lemma SubjectIsShown(log: Log, lookup: Lookup, uuid: string, first: Stamp, second: Stamp)
    requires Canonical(log) && FreshStamps(log, first, second) && Subject(log, lookup, uuid).Some?
    ensures At(log, OfParticipant(Subject(log, lookup, uuid).value)).None? ==>
              At(Observe(log, lookup, uuid, first, second).log, OfParticipant(Subject(log, lookup, uuid).value)).Some?
  {
    var p := Subject(log, lookup, uuid).value;
    ParticipantIsShown(log, p, lookup, first);
    var learned := ObservedParticipantLog(log, p, lookup, first);
    ParticipantOutlivesAccount(learned, AccountAt(log, lookup.account), p, lookup, second);
    ObserveWritesSubject(log, lookup, uuid, first, second);
  }

  lemma ParticipantOutlivesAccount(log: Log, view: View, p: ParticipantId, lookup: Lookup, stamp: Stamp)
    requires view.record.body.AccountBody?
    ensures At(Updated(log, ObservedAccount(view, p, lookup), stamp), OfParticipant(p)) == At(log, OfParticipant(p))
  {
    var body := ObservedAccount(view, p, lookup);
    if !AlreadyShown(log, body) {
      OthersStayShown(log, NewEvent(log, body, stamp), OfParticipant(p));
    }
  }

  lemma ObserveWritesSubject(log: Log, lookup: Lookup, uuid: string, first: Stamp, second: Stamp)
    requires Subject(log, lookup, uuid).Some?
    ensures var after, p := Observe(log, lookup, uuid, first, second).log, Subject(log, lookup, uuid).value;
            var learned := ObservedParticipantLog(log, p, lookup, first);
            after == learned || after == Updated(learned, ObservedAccount(AccountAt(log, lookup.account), p, lookup),
              second)
  {
  }

  /** An account without a candidate always gets a participant that was not there before, even
      when the call then fails. */
  lemma AnotherParticipant(log: Log, lookup: Lookup, uuid: string, first: Stamp, second: Stamp)
    requires Canonical(log) && FreshStamps(log, first, second) && WithoutCandidate(log, lookup, uuid)
    ensures Subject(log, lookup, uuid).Some?
    ensures At(log, OfParticipant(Subject(log, lookup, uuid).value)).None?
    ensures At(Observe(log, lookup, uuid, first, second).log, OfParticipant(Subject(log, lookup, uuid).value)).Some?
  {
    NewSubject(log, lookup, uuid);
    SubjectIsShown(log, lookup, uuid, first, second);
  }

  // ---------------------------------------------------------------- the second observation

  /** The candidate is there, but observing again would write another participant record. */
  lemma UnretainedIsWritten(log: Log, lookup: Lookup, p: ParticipantId, uuid: string, first: Stamp, second: Stamp)
    requires Subject(log, lookup, uuid) == Some(p)
    requires At(log, OfParticipant(p)).Some? && Learnable(At(log, OfParticipant(p)))
    requires var known := At(log, OfParticipant(p));
             ObservedBody(known, p, lookup.name, AutomaticEvidence(lookup.account)) != known.value.record.body
    ensures |Observe(log, lookup, uuid, first, second).log| > |log|
  {
    var known := At(log, OfParticipant(p));
    assert !AlreadyShown(log, ObservedBody(known, p, lookup.name, AutomaticEvidence(lookup.account)));
    assert |ObservedParticipantLog(log, p, lookup, first)| == |log| + 1;
    SubjectIsWrittenFirst(log, lookup, uuid, first, second);
  }

  lemma SubjectOfOneCandidate(log: Log, lookup: Lookup, p: ParticipantId, uuid: string)
    requires Addressed(lookup.account) && !Settled(AccountAt(log, lookup.account))
    requires About(AccountAt(log, lookup.account).record.body.links, p)
    requires CandidateLinks(AccountAt(log, lookup.account).record.body.links) != []
    ensures Subject(log, lookup, uuid) == Some(p)
  {
  }

  /** A log that shows the outcome of an observation is quiet under its repetition exactly when
      the observation was repeatable. */
  lemma TaughtIsQuietIff(log: Log, lookup: Lookup, p: ParticipantId, after: Log, uuid: string, first: Stamp,
      second: Stamp)
    requires Addressed(lookup.account) && !Settled(AccountAt(log, lookup.account)) && lookup.name != Some("")
    requires About(AccountAt(log, lookup.account).record.body.links, p)
    requires At(after, OfAccount(lookup.account)).Some?
    requires Taught(lookup, p, AccountAt(log, lookup.account), AccountAt(after, lookup.account),
             At(log, OfParticipant(p)), At(after, OfParticipant(p)))
    requires At(after, OfParticipant(ObservedAgain(uuid))).None?
    ensures Observe(after, lookup, uuid, first, second).log == after
            <==> Repeatable(lookup, AccountAt(log, lookup.account), At(log, OfParticipant(p)))
  {
    var view, view' := AccountAt(log, lookup.account), AccountAt(after, lookup.account);
    var known, known' := At(log, OfParticipant(p)), At(after, OfParticipant(p));
    TaughtIsSaturated(lookup, p, view, view', known, known');
    AccountAgain(lookup, p, view, view');
    if Repeatable(lookup, view, known) {
      SaturatedIsQuiet(after, lookup, p, uuid, first, second);
    } else if !Fits(view.record.body.links) {
      NewSubjectIsWritten(after, lookup, uuid, first, second);
    } else {
      ObservedBodyAgain(known, p, lookup.name, AutomaticEvidence(lookup.account), known'.value);
      SubjectOfOneCandidate(after, lookup, p, uuid);
      UnretainedIsWritten(after, lookup, p, uuid, first, second);
    }
  }

  /** Repeating an observation that succeeded appends nothing, if and only if the candidate link
      had its place among the account's fifty links and the participant retained the observation. */
  lemma RepeatIsQuietIff(log: Log, lookup: Lookup, uuid: string, first: Stamp, second: Stamp, uuid': string,
      third: Stamp, fourth: Stamp)
    requires Canonical(log) && FreshStamps(log, first, second) && lookup.name != Some("")
    requires !Observe(log, lookup, uuid, first, second).failed && Subject(log, lookup, uuid).Some?
    requires At(Observe(log, lookup, uuid, first, second).log, OfParticipant(ObservedAgain(uuid'))).None?
    ensures var after := Observe(log, lookup, uuid, first, second).log;
            Observe(after, lookup, uuid', third, fourth).log == after
            <==> Repeatable(lookup, AccountAt(log, lookup.account),
              At(log, OfParticipant(Subject(log, lookup, uuid).value)))
  {
    var after, p := Observe(log, lookup, uuid, first, second).log, Subject(log, lookup, uuid).value;
    SuccessfulWrites(log, lookup, uuid, first, second);
    SubjectIsAbout(log, lookup, uuid);
    ObservationIsShown(log, lookup, p, first, second, after);
    TaughtIsQuietIff(log, lookup, p, after, uuid', third, fourth);
  }

  lemma WithinLimitsIsRepeatable(lookup: Lookup, view: View, known: Option<View>)
    requires view.record.body.AccountBody? && ShowsParticipant(known) && WithinLimits(known)
    ensures Repeatable(lookup, view, known) <==> Fits(view.record.body.links)
  {
    WithinLimitsIsRetained(known, lookup.name, AutomaticEvidence(lookup.account));
  }

  /** With stored fields as the program writes them, room for the link alone decides; an account
      with fewer than 50 links always has it. */
  lemma RepeatIsQuiet(log: Log, lookup: Lookup, uuid: string, first: Stamp, second: Stamp, uuid': string,
      third: Stamp, fourth: Stamp)
    requires Canonical(log) && FreshStamps(log, first, second) && lookup.name != Some("")
    requires !Observe(log, lookup, uuid, first, second).failed
    requires At(Observe(log, lookup, uuid, first, second).log, OfParticipant(ObservedAgain(uuid'))).None?
    requires Subject(log, lookup, uuid).Some? ==> WithinLimits(At(log, OfParticipant(Subject(log, lookup, uuid).value)))
    ensures var after := Observe(log, lookup, uuid, first, second).log;
            Observe(after, lookup, uuid', third, fourth).log == after
            <==> Subject(log, lookup, uuid).None? || Fits(AccountAt(log, lookup.account).record.body.links)
  {
    var after := Observe(log, lookup, uuid, first, second).log;
    if Subject(log, lookup, uuid).None? {
      SuccessfulWrites(log, lookup, uuid, first, second);
      NoSubjectIsQuiet(log, lookup, uuid, uuid', third, fourth);
    } else {
      RepeatIsQuietIff(log, lookup, uuid, first, second, uuid', third, fourth);
      WithinLimitsIsRepeatable(lookup, AccountAt(log, lookup.account),
        At(log, OfParticipant(Subject(log, lookup, uuid).value)));
    }
  }

  /** With 50 links and no candidate among them the new link does not fit, and every further
      observation writes another participant. */
  lemma FullAccountsKeepGrowing(log: Log, lookup: Lookup, uuid: string, first: Stamp, second: Stamp, uuid': string,
      third: Stamp, fourth: Stamp)
    requires Canonical(log) && FreshStamps(log, first, second) && WithoutCandidate(log, lookup, uuid)
    requires |AccountAt(log, lookup.account).record.body.links| >= MAX_LIST
    requires !Observe(log, lookup, uuid, first, second).failed
    requires At(Observe(log, lookup, uuid, first, second).log, OfParticipant(ObservedAgain(uuid'))).None?
    ensures var after := Observe(log, lookup, uuid, first, second).log;
            |Observe(after, lookup, uuid', third, fourth).log| > |after| && WithoutCandidate(after, lookup, uuid')
  {
    var after := Observe(log, lookup, uuid, first, second).log;
    NewSubject(log, lookup, uuid);
    SuccessfulWrites(log, lookup, uuid, first, second);
    FullAccountHasNoCandidateAfter(log, lookup, uuid, first, second, uuid', after);
    NewSubjectIsWritten(after, lookup, uuid', third, fourth);
  }

  lemma FullAccountHasNoCandidateAfter(log: Log, lookup: Lookup, uuid: string, first: Stamp, second: Stamp,
      uuid': string, after: Log)
    requires Canonical(log) && FreshStamps(log, first, second) && WithoutCandidate(log, lookup, uuid)
    requires |AccountAt(log, lookup.account).record.body.links| >= MAX_LIST && Subject(log, lookup, uuid).Some?
    requires var p := Subject(log, lookup, uuid).value;
             after == Updated(ObservedParticipantLog(log, p, lookup, first),
               ObservedAccount(AccountAt(log, lookup.account), p, lookup), second)
    requires At(after, OfParticipant(ObservedAgain(uuid'))).None?
    ensures WithoutCandidate(after, lookup, uuid')
  {
    var p := Subject(log, lookup, uuid).value;
    ObservationIsShown(log, lookup, p, first, second, after);
    NoCandidateDoesNotFit(AccountAt(log, lookup.account).record.body.links);
    AccountAgain(lookup, p, AccountAt(log, lookup.account), AccountAt(after, lookup.account));
  }

  lemma NoCandidateDoesNotFit(links: seq<Link>)
    requires |links| >= MAX_LIST && CandidateLinks(links) == []
    ensures !Fits(links)
  {
    CandidatesOfPrefix(links, MAX_LIST);
    FirstFiftyOfLonger(links, []);
  }
}
