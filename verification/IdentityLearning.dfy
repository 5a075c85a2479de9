/** Automatic identity learning: observed accounts and candidate clues, which never gain authority. */
module IdentityLearning {
  import opened Records
  import opened OrderedSets
  import opened IdentityHeads
  import opened IdentityViews
  import opened IdentityStore

  /** A message account as a message names it; `name` has been normalized and is not empty. */
  datatype Lookup = Lookup(account: Account, name: Option<string>)

  /** What a call left behind. A failed call keeps what it wrote before it threw. */
  datatype Outcome = Outcome(log: Log, participant: Option<ParticipantId>, failed: bool)

  function AutomaticEvidence(a: Account): Evidence {
    Evidence(a.platform + "/" + a.namespace + "/" + a.sender, "", "", "first seen, identity still to be confirmed")
  }

  predicate HasAuthority(links: seq<Link>) {
    exists l <- links :: Authoritative(l.status)
  }

  function CandidateLinks(links: seq<Link>): (r: seq<Link>)
    ensures forall l <- r :: l in links && l.status == Candidate
  {
    if links == [] then []
    else
      var n := |links| - 1;
      CandidateLinks(links[..n]) + if links[n].status == Candidate then [links[n]] else []
  }

  /** An account that automatic learning leaves alone. */
  predicate Settled(view: View)
    requires view.record.body.AccountBody?
  {
    view.conflict.Some? || view.record.body.isSelf == Some(true) || HasAuthority(view.record.body.links)
  }

  /** `requireCurrentParticipant`. */
  predicate Current(log: Log, p: ParticipantId, authoritative: bool) {
    var view := At(log, OfParticipant(p));
    && view.Some? && view.value.conflict.None?
    && var status := view.value.record.body.status;
       Active(status) && (authoritative ==> Authoritative(status))
  }

  predicate DistinctParticipants(links: seq<Link>) {
    forall i, j :: 0 <= i < j < |links| ==> links[i].participant != links[j].participant
  }

  /** `participantLinks` and `validateParticipantLinks` accept these links. */
  predicate LinksAreValid(log: Log, links: seq<Link>) {
    && DistinctParticipants(links)
    && (forall i, j :: 0 <= i < j < |links| ==> !(Authoritative(links[i].status) && Authoritative(links[j].status)))
    && forall l <- links | Active(l.status) :: Current(log, l.participant, Authoritative(l.status))
  }

  function NonEmpty(name: Option<string>): Option<string> {
    if name == Some("") then None else name
  }

  function Or<T>(a: Option<T>, b: Option<T>): Option<T> {
    if a.Some? then a else b
  }

  function NameList(name: Option<string>): seq<string> {
    if name.Some? then [name.value] else []
  }

  // ---------------------------------------------------------------- observing an account

  /** Which candidate an observation is about; `None` when several are open. */
  function ObservedParticipant(log: Log, a: Account, links: seq<Link>, uuid: string): Option<ParticipantId> {
    var candidates := CandidateLinks(links);
    if |candidates| == 1 then Some(candidates[0].participant)
    else if |candidates| > 1 then None
    else Some(if At(log, OfParticipant(Observed(a))).Some? then ObservedAgain(uuid) else Observed(a))
  }

  function ObservedBody(view: Option<View>, p: ParticipantId, name: Option<string>, evidence: Evidence): Body
    requires view.Some? ==> view.value.record.body.ParticipantBody?
  {
    if view.None? then
      ParticipantBody(p, Unknown, NonEmpty(name), FirstFifty(Distinct(NameList(name))), [], Candidate,
        LastFifty(Distinct([evidence])))
    else
      var b := view.value.record.body;
      ParticipantBody(p, b.kind, NonEmpty(Or(b.displayName, name)), FirstFifty(Distinct(b.aliases + NameList(name))),
                      b.habits, Candidate, LastFifty(Distinct(b.evidence + [evidence])))
  }

  predicate Learnable(view: Option<View>)
    requires view.Some? ==> view.value.record.body.ParticipantBody?
  {
    view.None? || (view.value.conflict.None? && view.value.record.body.status == Candidate)
  }

  function ObservedParticipantLog(log: Log, p: ParticipantId, lookup: Lookup, stamp: Stamp): Log {
    var view := At(log, OfParticipant(p));
    if Learnable(view) then Updated(log, ObservedBody(view, p, lookup.name, AutomaticEvidence(lookup.account)), stamp)
      else log
  }

  function LinksWith(links: seq<Link>, p: ParticipantId, a: Account): seq<Link> {
    FirstFifty(if |CandidateLinks(links)| == 1 then links
               else links + [Link(p, Candidate, 0.1, [AutomaticEvidence(a)])])
  }

  function AccountAt(log: Log, a: Account): (view: View)
    ensures view.record.body.AccountBody? && view.record.body.account == a
  {
    var view := At(log, OfAccount(a));
    if view.Some? then view.value else View(Entry(AccountBody(a, None, None, []), ""), None)
  }

  function ObservedAccount(view: View, p: ParticipantId, lookup: Lookup): Body
    requires view.record.body.AccountBody?
  {
    var b := view.record.body;
    AccountBody(lookup.account, NonEmpty(Or(lookup.name, b.accountName)), b.isSelf,
      LinksWith(b.links, p, lookup.account))
  }

  /** `observeIdentityEndpoint`. */
  function Observe(log: Log, lookup: Lookup, uuid: string, first: Stamp, second: Stamp): Outcome {
    var a := lookup.account;
    var view := AccountAt(log, a);
    var links := view.record.body.links;
    if a.platform == "" || a.namespace == "" || a.sender == "" || Settled(view) then Outcome(log, None, false)
    else
      var p := ObservedParticipant(log, a, links, uuid);
      if p.None? then Outcome(log, None, false)
      else
        var learned := ObservedParticipantLog(log, p.value, lookup, first);
        var links' := LinksWith(links, p.value, a);
        if !LinksAreValid(learned, links') then Outcome(learned, p, true)
        else
          Outcome(Updated(learned, ObservedAccount(view, p.value, lookup), second), p, false)
  }

  // ---------------------------------------------------------------- candidate clues

  datatype ClueRelation = ClueRelation(kind: TargetKind, target: ParticipantId, relationship: string, scope: Scope,
    evidence: seq<Evidence>)

  datatype Clue = Clue(account: Account, participant: Option<ParticipantId>, kind: Option<Kind>, name: Option<string>,
                       aliases: seq<string>, evidence: seq<Evidence>, relations: seq<ClueRelation>)

  function IdOf(p: ParticipantId, r: ClueRelation): RelationId {
    Derived(p, r.kind, r.target, r.relationship, r.scope)
  }

  /** The candidate link that a clue is about. */
  function ClueLink(links: seq<Link>, wanted: Option<ParticipantId>): Option<ParticipantId> {
    var candidates := CandidateLinks(links);
    if wanted.Some? then if exists l <- candidates :: l.participant == wanted.value then wanted else None
    else if |candidates| == 1 then Some(candidates[0].participant) else None
  }

  /** Nobody has confirmed, corrected or retired this relation, and its heads agree. */
  predicate RelationIsOpen(log: Log, id: RelationId) {
    var view := At(log, OfRelation(id));
    view.None? || (view.value.conflict.None? && view.value.record.body.status == Candidate)
  }

  function ClueBody(b: Body, clue: Clue): Body
    requires b.ParticipantBody?
  {
    var name := Or(clue.name, b.displayName);
    ParticipantBody(b.participant, if clue.kind.Some? then clue.kind.value else b.kind, NonEmpty(name),
                    FirstFifty(Distinct(b.aliases + clue.aliases + NameList(name))), b.habits, Candidate,
                    LastFifty(Distinct(b.evidence + clue.evidence)))
  }

  /** `before` is the log that the call started from. */
  function RelationFromClue(before: Log, p: ParticipantId, r: ClueRelation, evidence: seq<Evidence>): Body {
    var view := At(before, OfRelation(IdOf(p, r)));
    var known := if view.Some? then view.value.record.body.evidence else [];
    RelationBody(IdOf(p, r), p, r.kind, r.target, r.relationship, Candidate, r.scope,
      LastFifty(Distinct(known + r.evidence + evidence)))
  }

  function PreparedRelations(before: Log, p: ParticipantId, rs: seq<ClueRelation>,
      evidence: seq<Evidence>): (bodies: seq<Body>)
    ensures |bodies| == |rs| && forall b <- bodies :: b.RelationBody?
  {
    if rs == [] then []
    else
      var n := |rs| - 1;
      PreparedRelations(before, p, rs[..n], evidence) + [RelationFromClue(before, p, rs[n], evidence)]
  }

  predicate RelationIsValid(log: Log, b: Body) {
    b.RelationBody? && Current(log, b.subject, false)
      && (b.targetKind == ParticipantTarget ==> Current(log, b.target, false))
  }

  /** Write relations until one is refused. */
  function WrittenRelations(log: Log, bodies: seq<Body>, stamps: seq<Stamp>): (result: (Log, bool))
    requires |stamps| == |bodies|
    decreases |bodies|
  {
    if bodies == [] then (log, false)
    else if !RelationIsValid(log, bodies[0]) then (log, true)
    else WrittenRelations(Updated(log, bodies[0], stamps[0]), bodies[1..], stamps[1..])
  }

  /** The participant that a clue may be written for; `None` is a call that fails before it writes. */
  function Student(log: Log, clue: Clue): (p: Option<ParticipantId>)
    ensures p.Some? ==> At(log, OfParticipant(p.value)).Some? && Learnable(At(log, OfParticipant(p.value)))
    ensures p.Some? ==> forall r <- FirstFifty(clue.relations) :: RelationIsOpen(log, IdOf(p.value, r))
  {
    var view := At(log, OfAccount(clue.account));
    if view.None? || Settled(view.value) then None
    else
      var p := ClueLink(view.value.record.body.links, clue.participant);
      if p.None? then None
      else
        var known := At(log, OfParticipant(p.value));
        if known.None? || !Learnable(known) || (forall e <- clue.evidence :: e.messageId == "")
           || exists r <- FirstFifty(clue.relations) :: !RelationIsOpen(log, IdOf(p.value, r))
        then None
        else p
  }

  /** `recordIdentityCandidateObservation`. */
  function Learn(log: Log, clue: Clue, stamp: Stamp, stamps: seq<Stamp>): Outcome
    requires |stamps| == |FirstFifty(clue.relations)|
  {
    var p := Student(log, clue);
    if p.None? then Outcome(log, None, true)
    else
      var learned := Updated(log, ClueBody(At(log, OfParticipant(p.value)).value.record.body, clue), stamp);
      var bodies := PreparedRelations(log, p.value, FirstFifty(clue.relations), clue.evidence);
      var written := WrittenRelations(learned, bodies, stamps);
      Outcome(written.0, p, written.1)
  }

  // ---------------------------------------------------------------- the same, in place

  class Learner {
    const ledger: IdentityLedger

    constructor (ledger: IdentityLedger)
      ensures this.ledger == ledger
    {
      this.ledger := ledger;
    }

    method ObserveIdentityEndpoint(lookup: Lookup, uuid: string, first: Stamp, second: Stamp) returns (outcome: Outcome)
      modifies ledger
      ensures outcome == Observe(old(ledger.log), lookup, uuid, first, second)
      ensures ledger.log == outcome.log
    {
      var a := lookup.account;
      var view := AccountAt(ledger.log, a);
      var body := view.record.body;
      if a.platform == "" || a.namespace == "" || a.sender == "" || Settled(view) {
        return Outcome(ledger.log, None, false);
      }
      var p := ObservedParticipant(ledger.log, a, body.links, uuid);
      if p.None? {
        return Outcome(ledger.log, None, false);
      }
      var known := At(ledger.log, OfParticipant(p.value));
      if Learnable(known) {
        var _ := ledger.Update(ObservedBody(known, p.value, lookup.name, AutomaticEvidence(a)), first);
      }
      var links := LinksWith(body.links, p.value, a);
      if !LinksAreValid(ledger.log, links) {
        return Outcome(ledger.log, p, true);
      }
      var _ := ledger.Update(ObservedAccount(view, p.value, lookup), second);
      return Outcome(ledger.log, p, false);
    }

    method RecordIdentityCandidateObservation(clue: Clue, stamp: Stamp, stamps: seq<Stamp>) returns (outcome: Outcome)
      requires |stamps| == |FirstFifty(clue.relations)|
      modifies ledger
      ensures outcome == Learn(old(ledger.log), clue, stamp, stamps)
      ensures ledger.log == outcome.log
    {
      var before := ledger.log;
      var p := Student(before, clue);
      if p.None? {
        return Outcome(before, None, true);
      }
      var bodies := PreparedRelations(before, p.value, FirstFifty(clue.relations), clue.evidence);
      var _ := ledger.Update(ClueBody(At(before, OfParticipant(p.value)).value.record.body, clue), stamp);
      var failed := WriteRelations(bodies, stamps);
      return Outcome(ledger.log, p, failed);
    }

    method WriteRelations(bodies: seq<Body>, stamps: seq<Stamp>) returns (failed: bool)
      requires |stamps| == |bodies|
      modifies ledger
      ensures (ledger.log, failed) == WrittenRelations(old(ledger.log), bodies, stamps)
    {
      for i := 0 to |bodies|
        invariant WrittenRelations(ledger.log, bodies[i..], stamps[i..])
                  == WrittenRelations(old(ledger.log), bodies, stamps)
      {
        assert bodies[i..][1..] == bodies[i + 1..] && stamps[i..][1..] == stamps[i + 1..];
        if !RelationIsValid(ledger.log, bodies[i]) {
          return true;
        }
        var _ := ledger.Update(bodies[i], stamps[i]);
      }
      return false;
    }
  }

  // ---------------------------------------------------------------- no authority

  /** A record without any authority: a candidate, or an account that is neither the persona's
      own nor mapped to anyone. */
  predicate Open(b: Body) {
    match b
    case AccountBody(_, _, isSelf, links) => isSelf != Some(true) && !HasAuthority(links)
    case ParticipantBody(_, _, _, _, _, status, _) => status == Candidate
    case RelationBody(_, _, _, _, _, status, _, _) => status == Candidate
  }

  predicate OpenView(view: Option<View>) {
    view.None? || (view.value.conflict.None? && Open(view.value.record.body))
  }

  /** Whatever has authority or a conflict is shown as before, and what had none still has none. */
  ghost predicate KeepsAuthority(log: Log, log': Log) {
    forall t :: At(log, t) == At(log', t) || (OpenView(At(log, t)) && OpenView(At(log', t)))
  }

  lemma KeepsAuthorityTransitive(a: Log, b: Log, c: Log)
    requires KeepsAuthority(a, b) && KeepsAuthority(b, c)
    ensures KeepsAuthority(a, c)
  {
    forall t ensures At(a, t) == At(c, t) || (OpenView(At(a, t)) && OpenView(At(c, t))) {
      assert At(a, t) == At(b, t) || (OpenView(At(a, t)) && OpenView(At(b, t)));
      assert At(b, t) == At(c, t) || (OpenView(At(b, t)) && OpenView(At(c, t)));
    }
  }

  lemma OpenUpdateKeepsAuthority(log: Log, body: Body, stamp: Stamp)
    requires Canonical(log) && Fresh(log, stamp.eventId) && Tidy(body)
    requires Open(body) && OpenView(At(log, TargetOf(body)))
    ensures Canonical(Updated(log, body, stamp)) && KeepsAuthority(log, Updated(log, body, stamp))
  {
    UpdateIsShown(log, body, stamp);
    var log' := Updated(log, body, stamp);
    assert OpenView(At(log', TargetOf(body)));
    KeepsAuthorityFrom(log, log', TargetOf(body));
  }

  lemma KeepsAuthorityFrom(log: Log, log': Log, own: Target)
    requires OpenView(At(log, own)) && OpenView(At(log', own))
    requires forall t :: t != own ==> At(log', t) == At(log, t)
    ensures KeepsAuthority(log, log')
  {
  }

  lemma FiftyDistinct<T>(s: seq<T>)
    ensures Distinct(FirstFifty(Distinct(s))) == FirstFifty(Distinct(s)) && |FirstFifty(Distinct(s))| <= MAX_LIST
    ensures Distinct(LastFifty(Distinct(s))) == LastFifty(Distinct(s)) && |LastFifty(Distinct(s))| <= MAX_LIST
  {
    DistinctIsDistinct(s);
    DistinctOfDistinct(FirstFifty(Distinct(s)));
    DistinctOfDistinct(LastFifty(Distinct(s)));
  }

  ghost predicate FreshStamps(log: Log, first: Stamp, second: Stamp) {
    Fresh(log, first.eventId) && Fresh(log, second.eventId) && first.eventId != second.eventId
  }

  lemma NewEventCitesTheLog(log: Log, body: Body, stamp: Stamp, id: string)
    requires id in Cited(NewEvent(log, body, stamp))
    ensures exists e <- log :: NormalizeId(e.id) == id
  {
    var group := Group(log, TargetOf(body));
    var raw :| raw in NewEvent(log, body, stamp).supersedes.value && NormalizeId(raw) == id;
    NewEventReplaces(log, body, stamp);
    assert raw in Ids(Heads(group));
    HeadsAreEvents(group);
    var h :| h in Heads(group) && h.id == raw;
    assert h in log;
  }

  lemma FreshAfterUpdate(log: Log, body: Body, stamp: Stamp, id: string)
    requires Canonical(log) && Fresh(log, id) && stamp.eventId != id
    ensures Fresh(Updated(log, body, stamp), id)
  {
    if !AlreadyShown(log, body) && id in Cited(NewEvent(log, body, stamp)) {
      NewEventCitesTheLog(log, body, stamp, id);
    }
  }

  lemma ObservedLogKeepsAuthority(log: Log, p: ParticipantId, lookup: Lookup, stamp: Stamp)
    requires Canonical(log) && Fresh(log, stamp.eventId)
    ensures var learned := ObservedParticipantLog(log, p, lookup, stamp);
            Canonical(learned) && KeepsAuthority(log, learned)
  {
    var view := At(log, OfParticipant(p));
    if Learnable(view) {
      var body := ObservedBody(view, p, lookup.name, AutomaticEvidence(lookup.account));
      if view.None? {
        FiftyDistinct(NameList(lookup.name));
        FiftyDistinct([AutomaticEvidence(lookup.account)]);
      } else {
        FiftyDistinct(view.value.record.body.aliases + NameList(lookup.name));
        FiftyDistinct(view.value.record.body.evidence + [AutomaticEvidence(lookup.account)]);
      }
      OpenUpdateKeepsAuthority(log, body, stamp);
    }
  }

  lemma ParticipantLogKeepsAccounts(log: Log, p: ParticipantId, lookup: Lookup, stamp: Stamp, a: Account)
    requires Canonical(log) && Fresh(log, stamp.eventId)
    ensures At(ObservedParticipantLog(log, p, lookup, stamp), OfAccount(a)) == At(log, OfAccount(a))
  {
    var view := At(log, OfParticipant(p));
    if Learnable(view) {
      var body := ObservedBody(view, p, lookup.name, AutomaticEvidence(lookup.account));
      if !AlreadyShown(log, body) {
        OthersStayShown(log, NewEvent(log, body, stamp), OfAccount(a));
      }
    }
  }

  lemma LinksWithKeepOpen(links: seq<Link>, p: ParticipantId, a: Account)
    requires !HasAuthority(links)
    ensures !HasAuthority(LinksWith(links, p, a))
  {
  }

  lemma AccountUpdateKeepsAuthority(log: Log, lookup: Lookup, p: ParticipantId, stamp: Stamp)
    requires Canonical(log) && Fresh(log, stamp.eventId) && !Settled(AccountAt(log, lookup.account))
    ensures var after := Updated(log, ObservedAccount(AccountAt(log, lookup.account), p, lookup), stamp);
            Canonical(after) && KeepsAuthority(log, after)
  {
    var view := AccountAt(log, lookup.account);
    LinksWithKeepOpen(view.record.body.links, p, lookup.account);
    OpenUpdateKeepsAuthority(log, ObservedAccount(view, p, lookup), stamp);
  }

  /** An observation writes nothing, the participant, or the participant and then the account. */
  lemma ObserveWrites(log: Log, lookup: Lookup, uuid: string, first: Stamp, second: Stamp)
    ensures var after, view := Observe(log, lookup, uuid, first, second).log, AccountAt(log, lookup.account);
            var p := ObservedParticipant(log, lookup.account, view.record.body.links, uuid);
            || after == log
            || (!Settled(view) && p.Some?
                && var learned := ObservedParticipantLog(log, p.value, lookup, first);
                   after == learned || after == Updated(learned, ObservedAccount(view, p.value, lookup), second))
  {
  }

  lemma ObservedPairKeepsAuthority(log: Log, lookup: Lookup, p: ParticipantId, first: Stamp, second: Stamp)
    requires Canonical(log) && FreshStamps(log, first, second) && !Settled(AccountAt(log, lookup.account))
    ensures var learned := ObservedParticipantLog(log, p, lookup, first);
            var after := Updated(learned, ObservedAccount(AccountAt(log, lookup.account), p, lookup), second);
            && Canonical(learned) && KeepsAuthority(log, learned)
            && Canonical(after) && KeepsAuthority(log, after)
  {
    var learned := ObservedParticipantLog(log, p, lookup, first);
    ObservedLogKeepsAuthority(log, p, lookup, first);
    ParticipantLogKeepsAccounts(log, p, lookup, first, lookup.account);
    FreshAfterObserved(log, p, lookup, first, second.eventId);
    AccountUpdateKeepsAuthority(learned, lookup, p, second);
    KeepsAuthorityTransitive(log, learned,
      Updated(learned, ObservedAccount(AccountAt(learned, lookup.account), p, lookup), second));
  }

  lemma KeepsOwnAuthority(log: Log)
    ensures KeepsAuthority(log, log)
  {
  }

  /** Observing an account grants nothing to anyone. */
  lemma ObserveKeepsAuthority(log: Log, lookup: Lookup, uuid: string, first: Stamp, second: Stamp)
    requires Canonical(log) && FreshStamps(log, first, second)
    ensures var after := Observe(log, lookup, uuid, first, second).log;
            Canonical(after) && KeepsAuthority(log, after)
  {
    ObserveWrites(log, lookup, uuid, first, second);
    KeepsOwnAuthority(log);
    var view := AccountAt(log, lookup.account);
    var p := ObservedParticipant(log, lookup.account, view.record.body.links, uuid);
    if !Settled(view) && p.Some? {
      ObservedPairKeepsAuthority(log, lookup, p.value, first, second);
    }
  }

  lemma FreshAfterObserved(log: Log, p: ParticipantId, lookup: Lookup, stamp: Stamp, id: string)
    requires Canonical(log) && Fresh(log, id) && stamp.eventId != id
    ensures Fresh(ObservedParticipantLog(log, p, lookup, stamp), id)
  {
    var view := At(log, OfParticipant(p));
    if Learnable(view) {
      FreshAfterUpdate(log, ObservedBody(view, p, lookup.name, AutomaticEvidence(lookup.account)), stamp, id);
    }
  }

  // ---------------------------------------------------------------- clues

  ghost predicate AllFresh(log: Log, stamps: seq<Stamp>) {
    stamps == [] || (
      && Fresh(log, stamps[0].eventId)
      && (forall s <- stamps[1..] :: s.eventId != stamps[0].eventId)
      && AllFresh(log, stamps[1..]))
  }

  /** A relation that automatic learning may write now: tidy, a candidate, and open where it goes. */
  ghost predicate Writable(log: Log, b: Body) {
    Open(b) && Tidy(b) && OpenView(At(log, TargetOf(b)))
  }

  lemma WritableAfterUpdate(log: Log, body: Body, stamp: Stamp, b: Body)
    requires Canonical(log) && Fresh(log, stamp.eventId) && Writable(log, body) && Writable(log, b)
    ensures Writable(Updated(log, body, stamp), b)
  {
    UpdateIsShown(log, body, stamp);
  }

  lemma {:induction false} StampsStayFresh(log: Log, body: Body, stamp: Stamp, stamps: seq<Stamp>)
    requires Canonical(log) && AllFresh(log, stamps) && forall s <- stamps :: s.eventId != stamp.eventId
    ensures AllFresh(Updated(log, body, stamp), stamps)
  {
    if stamps != [] {
      FreshAfterUpdate(log, body, stamp, stamps[0].eventId);
      StampsStayFresh(log, body, stamp, stamps[1..]);
    }
  }

  lemma AllFreshAfterUpdate(log: Log, body: Body, stamp: Stamp, stamps: seq<Stamp>)
    requires Canonical(log) && AllFresh(log, [stamp] + stamps)
    ensures AllFresh(Updated(log, body, stamp), stamps) && Fresh(log, stamp.eventId)
  {
    assert ([stamp] + stamps)[1..] == stamps;
    StampsStayFresh(log, body, stamp, stamps);
  }

  lemma {:induction false} RelationsKeepAuthority(log: Log, bodies: seq<Body>, stamps: seq<Stamp>)
    requires |stamps| == |bodies| && Canonical(log) && AllFresh(log, stamps)
    requires forall b <- bodies :: Writable(log, b)
    ensures var after := WrittenRelations(log, bodies, stamps).0;
            Canonical(after) && KeepsAuthority(log, after)
    decreases |bodies|
  {
    KeepsOwnAuthority(log);
    if bodies != [] && RelationIsValid(log, bodies[0]) {
      var next := Updated(log, bodies[0], stamps[0]);
      assert [stamps[0]] + stamps[1..] == stamps && bodies[0] in bodies;
      AllFreshAfterUpdate(log, bodies[0], stamps[0], stamps[1..]);
      OpenUpdateKeepsAuthority(log, bodies[0], stamps[0]);
      forall b | b in bodies[1..] ensures Writable(next, b) {
        WritableAfterUpdate(log, bodies[0], stamps[0], b);
      }
      RelationsKeepAuthority(next, bodies[1..], stamps[1..]);
      KeepsAuthorityTransitive(log, next, WrittenRelations(next, bodies[1..], stamps[1..]).0);
    }
  }

  lemma {:induction false} PreparedAreWritable(log: Log, p: ParticipantId, rs: seq<ClueRelation>,
      evidence: seq<Evidence>)
    requires forall r <- rs :: RelationIsOpen(log, IdOf(p, r))
    ensures forall b <- PreparedRelations(log, p, rs, evidence) :: Writable(log, b)
  {
    if rs != [] {
      var n := |rs| - 1;
      PreparedAreWritable(log, p, rs[..n], evidence);
      assert rs[n] in rs;
      assert Writable(log, RelationFromClue(log, p, rs[n], evidence));
    }
  }

  lemma ClueBodyIsWritable(log: Log, p: ParticipantId, clue: Clue)
    requires At(log, OfParticipant(p)).Some? && Learnable(At(log, OfParticipant(p)))
    ensures Writable(log, ClueBody(At(log, OfParticipant(p)).value.record.body, clue))
  {
    var b := At(log, OfParticipant(p)).value.record.body;
    FiftyDistinct(b.aliases + clue.aliases + NameList(Or(clue.name, b.displayName)));
    FiftyDistinct(b.evidence + clue.evidence);
  }

  lemma CluePartsKeepAuthority(log: Log, p: ParticipantId, clue: Clue, stamp: Stamp, stamps: seq<Stamp>)
    requires |stamps| == |FirstFifty(clue.relations)| && Canonical(log) && AllFresh(log, [stamp] + stamps)
    requires At(log, OfParticipant(p)).Some? && Learnable(At(log, OfParticipant(p)))
    requires forall r <- FirstFifty(clue.relations) :: RelationIsOpen(log, IdOf(p, r))
    ensures var learned := Updated(log, ClueBody(At(log, OfParticipant(p)).value.record.body, clue), stamp);
            var after := WrittenRelations(learned,
              PreparedRelations(log, p, FirstFifty(clue.relations), clue.evidence), stamps).0;
            Canonical(after) && KeepsAuthority(log, after)
  {
    var body := ClueBody(At(log, OfParticipant(p)).value.record.body, clue);
    var bodies := PreparedRelations(log, p, FirstFifty(clue.relations), clue.evidence);
    var learned := Updated(log, body, stamp);
    ClueBodyIsWritable(log, p, clue);
    PreparedAreWritable(log, p, FirstFifty(clue.relations), clue.evidence);
    AllFreshAfterUpdate(log, body, stamp, stamps);
    OpenUpdateKeepsAuthority(log, body, stamp);
    forall b | b in bodies ensures Writable(learned, b) {
      WritableAfterUpdate(log, body, stamp, b);
    }
    RelationsKeepAuthority(learned, bodies, stamps);
    KeepsAuthorityTransitive(log, learned, WrittenRelations(learned, bodies, stamps).0);
  }

  /** Clues grant nothing to anyone, whether the call succeeds or fails on the way. */
  lemma LearnKeepsAuthority(log: Log, clue: Clue, stamp: Stamp, stamps: seq<Stamp>)
    requires |stamps| == |FirstFifty(clue.relations)| && Canonical(log) && AllFresh(log, [stamp] + stamps)
    ensures var after := Learn(log, clue, stamp, stamps).log;
            Canonical(after) && KeepsAuthority(log, after)
  {
    KeepsOwnAuthority(log);
    var p := Student(log, clue);
    if p.Some? {
      CluePartsKeepAuthority(log, p.value, clue, stamp, stamps);
    }
  }

  // ---------------------------------------------------------------- whole runs

  datatype Step =
    | ObserveStep(lookup: Lookup, uuid: string, first: Stamp, second: Stamp)
    | LearnStep(clue: Clue, stamp: Stamp, stamps: seq<Stamp>)

  ghost predicate CanTake(log: Log, step: Step) {
    match step
    case ObserveStep(_, _, first, second) => FreshStamps(log, first, second)
    case LearnStep(clue, stamp, stamps) => |stamps| == |FirstFifty(clue.relations)| && AllFresh(log, [stamp] + stamps)
  }

  function After(log: Log, step: Step): Log
  {
    match step
    case ObserveStep(lookup, uuid, first, second) => Observe(log, lookup, uuid, first, second).log
    case LearnStep(clue, stamp, stamps) =>
      if |stamps| == |FirstFifty(clue.relations)| then Learn(log, clue, stamp, stamps).log else log
  }

  function AfterAll(log: Log, steps: seq<Step>): Log {
    if steps == [] then log else After(AfterAll(log, steps[..|steps| - 1]), steps[|steps| - 1])
  }

  ghost predicate CanTakeAll(log: Log, steps: seq<Step>) {
    var n := |steps| - 1;
    n < 0 || (CanTakeAll(log, steps[..n]) && CanTake(AfterAll(log, steps[..n]), steps[n]))
  }

  /** Any run of observations and clues leaves every confirmed, corrected, retired or conflicted
      record as it was, and gives nothing else any authority. */
  lemma {:induction false} LearningNeverGainsAuthority(log: Log, steps: seq<Step>)
    requires Canonical(log) && CanTakeAll(log, steps)
    ensures Canonical(AfterAll(log, steps)) && KeepsAuthority(log, AfterAll(log, steps))
  {
    var n := |steps| - 1;
    if n < 0 {
      KeepsOwnAuthority(log);
    } else {
      var before := AfterAll(log, steps[..n]);
      LearningNeverGainsAuthority(log, steps[..n]);
      match steps[n] {
        case ObserveStep(lookup, uuid, first, second) => ObserveKeepsAuthority(before, lookup, uuid, first, second);
        case LearnStep(clue, stamp, stamps) => LearnKeepsAuthority(before, clue, stamp, stamps);
      }
      KeepsAuthorityTransitive(log, before, AfterAll(log, steps));
    }
  }
}
