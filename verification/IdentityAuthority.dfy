/** Learning grants nothing whatever the log holds: ids that no update can cite, repeated ids and
    cycles can leave old heads beside a new one, but never authority where there was none. */
module IdentityAuthority {
  import opened Records
  import opened IdentityHeads
  import opened IdentityViews
  import opened IdentityStore
  import opened IdentityLearning

  /** What is shown has no authority, and neither has any of the alternatives of a conflict. */
  predicate GrantsNothing(view: Option<View>) {
    view.None? || (
      && Open(view.value.record.body)
      && (view.value.conflict.Some? ==> forall a <- view.value.conflict.value :: Open(a.record.body)))
  }

  /** Whatever has authority or a conflict is shown as before; what had neither got no authority. */
  ghost predicate NothingGranted(log: Log, log': Log) {
    forall t :: At(log, t) == At(log', t) || (OpenView(At(log, t)) && GrantsNothing(At(log', t)))
  }

  lemma NothingGrantedTransitive(a: Log, b: Log, c: Log)
    requires NothingGranted(a, b) && NothingGranted(b, c)
    ensures NothingGranted(a, c)
  {
    forall t ensures At(a, t) == At(c, t) || (OpenView(At(a, t)) && GrantsNothing(At(c, t))) {
      assert At(a, t) == At(b, t) || (OpenView(At(a, t)) && GrantsNothing(At(b, t)));
      assert At(b, t) == At(c, t) || (OpenView(At(b, t)) && GrantsNothing(At(c, t)));
    }
  }

  // ---------------------------------------------------------------- heads and views

  ghost predicate AllOpen(s: Log) {
    forall e <- s :: Open(e.record.body)
  }

  lemma OpenBySubstance(a: Entry, b: Entry)
    requires Substance(a) == Substance(b)
    ensures Open(a.body) <==> Open(b.body)
  {
  }

  lemma {:induction false} AlternativesAreHeads(s: Log)
    ensures forall e <- s :: Alternative(e.id, e.record) in Alternatives(s)
    ensures forall a <- Alternatives(s) :: exists e <- s :: a == Alternative(e.id, e.record)
  {
    if s != [] {
      var n := |s| - 1;
      AlternativesAreHeads(s[..n]);
      assert s == s[..n] + [s[n]];
    }
  }

  /** Nothing is granted by a view exactly when none of its heads has authority. */
  lemma GrantsNothingIff(heads: Log)
    requires heads != []
    ensures GrantsNothing(Some(Collapsed(heads))) <==> AllOpen(heads)
  {
    var sorted := Sort(ById, heads);
    SortSorts(ById, heads);
    SameLength(sorted, heads);
    var latest := MergedIsLatest(sorted);
    OpenBySubstance(Merged(sorted), latest.record);
    AlternativesAreHeads(sorted);
    forall e | e in heads ensures e in sorted {
      SameMembers(sorted, heads, e);
    }
    forall e | e in sorted ensures e in heads {
      SameMembers(sorted, heads, e);
    }
    if Disagree(sorted) {
      forall e | e in heads && GrantsNothing(Some(Collapsed(heads))) ensures Open(e.record.body) {
        assert Alternative(e.id, e.record) in Alternatives(sorted);
      }
    } else {
      forall e | e in heads ensures Open(e.record.body) <==> Open(latest.record.body) {
        OpenBySubstance(e.record, latest.record);
      }
    }
  }

  lemma {:induction false} FewerLive(s: Log, few: set<string>, more: set<string>)
    requires few <= more
    ensures forall e <- Live(s, more) :: e in Live(s, few)
  {
    if s != [] {
      FewerLive(s[..|s| - 1], few, more);
    }
  }

  /** Behind an event with citations every head is that event or was a head before. */
  lemma HeadsBehind(group: Log, e: Event<Entry>)
    requires e.supersedes.Some?
    ensures forall h <- Heads(group + [e]) :: h == e || h in Heads(group)
  {
    var dead := Superseded(group + [e]);
    SupersededByBlock(group, [e]);
    LiveConcat(group, [e], dead);
    FewerLive(group, Superseded(group), dead);
    HeadsAreEvents(group);
    assert (group + [e])[|group + [e]| - 1] == e;
  }

  // ---------------------------------------------------------------- one update

  lemma UpdateGrantsNothing(log: Log, body: Body, stamp: Stamp)
    requires Open(body) && GrantsNothing(At(log, TargetOf(body)))
    ensures GrantsNothing(At(Updated(log, body, stamp), TargetOf(body)))
    ensures forall t :: t != TargetOf(body) ==> At(Updated(log, body, stamp), t) == At(log, t)
  {
    if !AlreadyShown(log, body) {
      var e, own := NewEvent(log, body, stamp), TargetOf(body);
      forall t | t != own ensures At(log + [e], t) == At(log, t) {
        OthersStayShown(log, e, t);
      }
      GroupAppend(log, e, own);
      NewHeadsAreOpen(Group(log, own), e);
    }
  }

  lemma NewHeadsAreOpen(group: Log, e: Event<Entry>)
    requires e.supersedes.Some? && Open(e.record.body) && GrantsNothing(Shown(group))
    ensures GrantsNothing(Shown(group + [e]))
  {
    HeadsBehind(group, e);
    if group != [] {
      GrantsNothingIff(Heads(group));
    }
    GrantsNothingIff(Heads(group + [e]));
  }

  lemma GrantedElsewhere(start: Log, log: Log, log': Log, own: Target)
    requires NothingGranted(start, log) && OpenView(At(start, own)) && GrantsNothing(At(log', own))
    requires forall t :: t != own ==> At(log', t) == At(log, t)
    ensures NothingGranted(start, log')
  {
    forall t ensures At(start, t) == At(log', t) || (OpenView(At(start, t)) && GrantsNothing(At(log', t))) {
      assert At(start, t) == At(log, t) || (OpenView(At(start, t)) && GrantsNothing(At(log, t)));
    }
  }

  lemma OpenStaysUngranted(start: Log, log: Log, own: Target)
    requires NothingGranted(start, log) && OpenView(At(start, own))
    ensures GrantsNothing(At(log, own))
  {
    assert At(start, own) == At(log, own) || GrantsNothing(At(log, own));
  }

  /** A call's updates: each writes an open record where the log before the call had one. */
  lemma WriteKeepsGranted(start: Log, log: Log, body: Body, stamp: Stamp)
    requires NothingGranted(start, log) && Open(body) && OpenView(At(start, TargetOf(body)))
    ensures NothingGranted(start, Updated(log, body, stamp))
  {
    OpenStaysUngranted(start, log, TargetOf(body));
    UpdateGrantsNothing(log, body, stamp);
    GrantedElsewhere(start, log, Updated(log, body, stamp), TargetOf(body));
  }

  lemma NothingGrantedAtFirst(log: Log)
    ensures NothingGranted(log, log)
  {
  }

  // ---------------------------------------------------------------- observing and learning

  lemma ParticipantGrantsNothing(log: Log, p: ParticipantId, lookup: Lookup, stamp: Stamp)
    ensures NothingGranted(log, ObservedParticipantLog(log, p, lookup, stamp))
  {
    NothingGrantedAtFirst(log);
    var view := At(log, OfParticipant(p));
    if Learnable(view) {
      WriteKeepsGranted(log, log, ObservedBody(view, p, lookup.name, AutomaticEvidence(lookup.account)), stamp);
    }
  }

  lemma AccountGrantsNothing(start: Log, log: Log, lookup: Lookup, p: ParticipantId, stamp: Stamp)
    requires NothingGranted(start, log) && !Settled(AccountAt(start, lookup.account))
    ensures NothingGranted(start, Updated(log, ObservedAccount(AccountAt(start, lookup.account), p, lookup), stamp))
  {
    var view := AccountAt(start, lookup.account);
    LinksWithKeepOpen(view.record.body.links, p, lookup.account);
    WriteKeepsGranted(start, log, ObservedAccount(view, p, lookup), stamp);
  }

  lemma ObserveGrantsNothing(log: Log, lookup: Lookup, uuid: string, first: Stamp, second: Stamp)
    ensures NothingGranted(log, Observe(log, lookup, uuid, first, second).log)
  {
    ObserveWrites(log, lookup, uuid, first, second);
    NothingGrantedAtFirst(log);
    var view := AccountAt(log, lookup.account);
    var p := ObservedParticipant(log, lookup.account, view.record.body.links, uuid);
    if !Settled(view) && p.Some? {
      var learned := ObservedParticipantLog(log, p.value, lookup, first);
      ParticipantGrantsNothing(log, p.value, lookup, first);
      AccountGrantsNothing(log, learned, lookup, p.value, second);
    }
  }

  lemma {:induction false} RelationsGrantNothing(start: Log, log: Log, bodies: seq<Body>, stamps: seq<Stamp>)
    requires |stamps| == |bodies| && NothingGranted(start, log)
    requires forall b <- bodies :: Writable(start, b)
    ensures NothingGranted(start, WrittenRelations(log, bodies, stamps).0)
    decreases |bodies|
  {
    if bodies != [] && RelationIsValid(log, bodies[0]) {
      assert bodies[0] in bodies;
      WriteKeepsGranted(start, log, bodies[0], stamps[0]);
      RelationsGrantNothing(start, Updated(log, bodies[0], stamps[0]), bodies[1..], stamps[1..]);
    }
  }

  lemma LearnGrantsNothing(log: Log, clue: Clue, stamp: Stamp, stamps: seq<Stamp>)
    requires |stamps| == |FirstFifty(clue.relations)|
    ensures NothingGranted(log, Learn(log, clue, stamp, stamps).log)
  {
    NothingGrantedAtFirst(log);
    var p := Student(log, clue);
    if p.Some? {
      var body := ClueBody(At(log, OfParticipant(p.value)).value.record.body, clue);
      ClueBodyIsWritable(log, p.value, clue);
      WriteKeepsGranted(log, log, body, stamp);
      PreparedAreWritable(log, p.value, FirstFifty(clue.relations), clue.evidence);
      RelationsGrantNothing(log, Updated(log, body, stamp),
        PreparedRelations(log, p.value, FirstFifty(clue.relations), clue.evidence), stamps);
    }
  }

  /** Any run of observations and clues over any log, with any event ids and under any stamps, in
      failed calls too: no record gains authority, and every record that had authority or a
      conflict when a call began is shown as before. */
  lemma {:induction false} LearningGrantsNothing(log: Log, steps: seq<Step>)
    ensures NothingGranted(log, AfterAll(log, steps))
  {
    var n := |steps| - 1;
    if n < 0 {
      NothingGrantedAtFirst(log);
    } else {
      var before := AfterAll(log, steps[..n]);
      LearningGrantsNothing(log, steps[..n]);
      match steps[n] {
        case ObserveStep(lookup, uuid, first, second) => ObserveGrantsNothing(before, lookup, uuid, first, second);
        case LearnStep(clue, stamp, stamps) =>
          NothingGrantedAtFirst(before);
          if |stamps| == |FirstFifty(clue.relations)| {
            LearnGrantsNothing(before, clue, stamp, stamps);
          }
      }
      NothingGrantedTransitive(log, before, AfterAll(log, steps));
    }
  }
}
