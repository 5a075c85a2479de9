/** What learning keeps and what it adds, field by field. */
module IdentityRetention {
  import opened Records
  import opened OrderedSets
  import opened IdentityHeads
  import opened IdentityViews
  import opened IdentityStore
  import opened IdentityLearning
  import opened IdentityRepeats

  // ---------------------------------------------------------------- lists of fifty

  /** The oldest elements that were kept stay. */
  lemma FirstStay<T>(s: seq<T>, t: seq<T>)
    ensures FirstFifty(Distinct(s)) <= FirstFifty(Distinct(s + t))
  {
    DistinctGrows(s, t);
  }

  /** New elements are there as far as there is room. */
  lemma FirstHave<T>(s: seq<T>, t: seq<T>)
    requires |s| + |t| <= MAX_LIST
    ensures forall x <- t :: x in FirstFifty(Distinct(s + t))
  {
    DistinctIsShorter(s + t);
    forall x | x in t ensures x in Distinct(s + t) {
      assert x in s + t;
    }
  }

  /** The newest elements stay, as many as the new ones leave room for. */
  lemma LastStay<T>(s: seq<T>, t: seq<T>)
    requires |t| <= MAX_LIST
    ensures forall x <- Last(Distinct(s), MAX_LIST - |t|) :: x in LastFifty(Distinct(s + t))
  {
    DistinctGrows(s, t);
    var d, all := Distinct(s), Distinct(s + t);
    var more := all[|d|..];
    assert all == d + more;
    forall x | x in Last(d, MAX_LIST - |t|) ensures x in LastFifty(all) {
      LaterStay(d, more, MAX_LIST - |t|, x);
    }
  }

  lemma LaterStay<T>(s: seq<T>, t: seq<T>, n: nat, x: T)
    requires n + |t| <= MAX_LIST && x in Last(s, n)
    ensures x in LastFifty(s + t)
  {
    var i :| 0 <= i < |s| && s[i] == x && |s| - n <= i;
    assert (s + t)[i] == x;
    if |s + t| > MAX_LIST {
      assert LastFifty(s + t)[i - (|s + t| - MAX_LIST)] == x;
    }
  }

  // ---------------------------------------------------------------- what a participant keeps

  predicate GivesName(name: Option<string>) { name.Some? && name.value != "" }

  /** Nothing that was known of the participant is lost by `news` pieces of evidence, except what a
      clue says anew; what nobody has judged stays unjudged. */
  ghost predicate KeepsParticipant(b: Body, b': Body, kind: Option<Kind>, name: Option<string>, news: nat) {
    && b.ParticipantBody? && b'.ParticipantBody? && b'.participant == b.participant
    && b'.kind == (if kind.Some? then kind.value else b.kind)
    && b'.habits == b.habits && b'.status == b.status
    && (if GivesName(name) then b'.displayName == name
        else GivesName(b.displayName) && name != Some("") ==> b'.displayName == b.displayName)
    && (forall x <- FirstFifty(Distinct(b.aliases)) :: x in b'.aliases)
    && (news <= MAX_LIST ==> forall e <- Last(Distinct(b.evidence), MAX_LIST - news) :: e in b'.evidence)
  }

  /** The account stays what it was to the persona, keeps the links it had as far as fifty go, and
      changes its name at most to `name`. */
  ghost predicate KeepsAccount(b: Body, b': Body, name: Option<string>) {
    && b.AccountBody? && b'.AccountBody? && b'.account == b.account
    && b'.isSelf == b.isSelf
    && FirstFifty(b.links) <= b'.links
    && (GivesName(b.accountName) && name != Some("") ==>
          b'.accountName == b.accountName || (GivesName(name) && b'.accountName == name))
  }

  ghost predicate ParticipantKept(v: Option<View>, v': Option<View>) {
    v.Some? ==> v'.Some? && KeepsParticipant(v.value.record.body, v'.value.record.body, None, None, 1)
  }

  ghost predicate AccountKept(v: Option<View>, v': Option<View>, name: Option<string>) {
    v.Some? ==> v'.Some? && KeepsAccount(v.value.record.body, v'.value.record.body, name)
  }

  /** What the persona knew of participants, accounts and relations it still knows, and only the
      account `a` may have got another name. */
  ghost predicate KeepsKnowledge(log: Log, log': Log, a: Account, name: Option<string>) {
    && (forall p :: ParticipantKept(At(log, OfParticipant(p)), At(log', OfParticipant(p))))
    && (forall c :: AccountKept(At(log, OfAccount(c)), At(log', OfAccount(c)), if c == a then name else None))
    && (forall r :: At(log', OfRelation(r)) == At(log, OfRelation(r)))
  }

  // ---------------------------------------------------------------- observing

  lemma ObservedKeeps(view: View, p: ParticipantId, name: Option<string>, e: Evidence)
    requires view.record.body.ParticipantBody? && view.record.body.participant == p
    requires view.record.body.status == Candidate
    ensures KeepsParticipant(view.record.body, ObservedBody(Some(view), p, name, e), None, None, 1)
  {
    var b := view.record.body;
    FirstStay(b.aliases, NameList(name));
    LastStay(b.evidence, [e]);
  }

  lemma AccountKeeps(view: View, p: ParticipantId, lookup: Lookup)
    requires view.record.body.AccountBody? && view.record.body.account == lookup.account
    ensures KeepsAccount(view.record.body, ObservedAccount(view, p, lookup), lookup.name)
  {
  }

  lemma SameParticipantKept(v: Option<View>)
    requires v.Some? ==> v.value.record.body.ParticipantBody?
    ensures ParticipantKept(v, v)
  {
    if v.Some? {
      var b := v.value.record.body;
      forall x | x in FirstFifty(Distinct(b.aliases)) ensures x in b.aliases {
        assert x in Distinct(b.aliases);
      }
    }
  }

  lemma SameAccountKept(v: Option<View>, name: Option<string>)
    requires v.Some? ==> v.value.record.body.AccountBody?
    ensures AccountKept(v, v, name)
  {
  }

  lemma NothingForgotten(log: Log, a: Account, name: Option<string>)
    ensures KeepsKnowledge(log, log, a, name)
  {
    forall p ensures ParticipantKept(At(log, OfParticipant(p)), At(log, OfParticipant(p))) {
      SameParticipantKept(At(log, OfParticipant(p)));
    }
    forall c ensures AccountKept(At(log, OfAccount(c)), At(log, OfAccount(c)), if c == a then name else None) {
      SameAccountKept(At(log, OfAccount(c)), if c == a then name else None);
    }
  }

  ghost predicate ChangesOnly(log: Log, log': Log, own: Target) {
    forall t :: t != own ==> At(log', t) == At(log, t)
  }

  /** One participant was written, and it was kept; all other records are shown as before. */
  lemma OneParticipantKept(log: Log, log': Log, p: ParticipantId, a: Account)
    requires ChangesOnly(log, log', OfParticipant(p))
    requires ParticipantKept(At(log, OfParticipant(p)), At(log', OfParticipant(p)))
    ensures KeepsKnowledge(log, log', a, None)
    ensures forall c :: At(log', OfAccount(c)) == At(log, OfAccount(c))
  {
    forall q ensures ParticipantKept(At(log, OfParticipant(q)), At(log', OfParticipant(q))) {
      if q != p {
        SameParticipantKept(At(log, OfParticipant(q)));
      }
    }
    forall c ensures AccountKept(At(log, OfAccount(c)), At(log', OfAccount(c)), None) {
      SameAccountKept(At(log, OfAccount(c)), None);
    }
  }

  /** One account was written, and it was kept; all other records are shown as before. */
  lemma OneAccountKept(log: Log, log': Log, a: Account, name: Option<string>)
    requires ChangesOnly(log, log', OfAccount(a))
    requires AccountKept(At(log, OfAccount(a)), At(log', OfAccount(a)), name)
    ensures KeepsKnowledge(log, log', a, name)
    ensures forall p :: At(log', OfParticipant(p)) == At(log, OfParticipant(p))
  {
    forall p ensures ParticipantKept(At(log, OfParticipant(p)), At(log', OfParticipant(p))) {
      SameParticipantKept(At(log, OfParticipant(p)));
    }
    forall c ensures AccountKept(At(log, OfAccount(c)), At(log', OfAccount(c)), if c == a then name else None) {
      if c != a {
        SameAccountKept(At(log, OfAccount(c)), None);
      }
    }
  }

  /** Writing the participant loses nothing and leaves everything else alone. */
  lemma ParticipantWriteKeeps(log: Log, lookup: Lookup, p: ParticipantId, stamp: Stamp)
    requires Canonical(log) && Fresh(log, stamp.eventId)
    ensures var learned := ObservedParticipantLog(log, p, lookup, stamp);
            && ParticipantKept(At(log, OfParticipant(p)), At(learned, OfParticipant(p)))
            && ChangesOnly(log, learned, OfParticipant(p))
  {
    var view, e := At(log, OfParticipant(p)), AutomaticEvidence(lookup.account);
    SameParticipantKept(view);
    if Learnable(view) {
      ObservedBodyIsTidy(view, p, lookup.name, e);
      UpdateIsShown(log, ObservedBody(view, p, lookup.name, e), stamp);
      if view.Some? {
        ObservedKeeps(view.value, p, lookup.name, e);
      }
    }
  }

  lemma AccountWriteKeeps(view: View, log: Log, lookup: Lookup, p: ParticipantId, stamp: Stamp)
    requires Canonical(log) && Fresh(log, stamp.eventId) && view == AccountAt(log, lookup.account)
    ensures var after := Updated(log, ObservedAccount(view, p, lookup), stamp);
            && AccountKept(At(log, OfAccount(lookup.account)), At(after, OfAccount(lookup.account)), lookup.name)
            && ChangesOnly(log, after, OfAccount(lookup.account))
  {
    UpdateIsShown(log, ObservedAccount(view, p, lookup), stamp);
    AccountKeeps(view, p, lookup);
  }

  lemma KeepsBoth(log: Log, learned: Log, after: Log, a: Account, name: Option<string>)
    requires KeepsKnowledge(log, learned, a, None) && KeepsKnowledge(learned, after, a, name)
    requires forall p :: At(after, OfParticipant(p)) == At(learned, OfParticipant(p))
    requires forall c :: At(learned, OfAccount(c)) == At(log, OfAccount(c))
    ensures KeepsKnowledge(log, after, a, name)
  {
    forall p ensures ParticipantKept(At(log, OfParticipant(p)), At(after, OfParticipant(p))) {
      assert ParticipantKept(At(log, OfParticipant(p)), At(learned, OfParticipant(p)));
    }
    forall c ensures AccountKept(At(log, OfAccount(c)), At(after, OfAccount(c)), if c == a then name else None) {
      assert AccountKept(At(learned, OfAccount(c)), At(after, OfAccount(c)), if c == a then name else None);
    }
  }

  lemma ObservedPairKeeps(log: Log, lookup: Lookup, p: ParticipantId, first: Stamp, second: Stamp)
    requires Canonical(log) && FreshStamps(log, first, second)
    ensures var learned := ObservedParticipantLog(log, p, lookup, first);
            var after := Updated(learned, ObservedAccount(AccountAt(log, lookup.account), p, lookup), second);
            && KeepsKnowledge(log, learned, lookup.account, None)
            && KeepsKnowledge(log, after, lookup.account, lookup.name)
  {
    var view, learned := AccountAt(log, lookup.account), ObservedParticipantLog(log, p, lookup, first);
    ParticipantWriteKeeps(log, lookup, p, first);
    OneParticipantKept(log, learned, p, lookup.account);
    ObservedLogKeepsAuthority(log, p, lookup, first);
    FreshAfterObserved(log, p, lookup, first, second.eventId);
    var after := Updated(learned, ObservedAccount(view, p, lookup), second);
    AccountWriteKeeps(view, learned, lookup, p, second);
    OneAccountKept(learned, after, lookup.account, lookup.name);
    KeepsBoth(log, learned, after, lookup.account, lookup.name);
  }

  lemma KeepsWithName(log: Log, log': Log, a: Account, name: Option<string>)
    requires KeepsKnowledge(log, log', a, None)
    ensures KeepsKnowledge(log, log', a, name)
  {
    forall c ensures AccountKept(At(log, OfAccount(c)), At(log', OfAccount(c)), if c == a then name else None) {
      assert AccountKept(At(log, OfAccount(c)), At(log', OfAccount(c)), None);
    }
  }

  /** An observation loses nothing: kind, habits, status, name, the first fifty aliases and the
      newest evidence of every participant, own accounts and links of every account, and every
      relation stay, whether the call succeeds or fails. */
  lemma ObserveKeepsKnowledge(log: Log, lookup: Lookup, uuid: string, first: Stamp, second: Stamp)
    requires Canonical(log) && FreshStamps(log, first, second)
    ensures KeepsKnowledge(log, Observe(log, lookup, uuid, first, second).log, lookup.account, lookup.name)
  {
    ObserveWrites(log, lookup, uuid, first, second);
    NothingForgotten(log, lookup.account, lookup.name);
    var view := AccountAt(log, lookup.account);
    var p := ObservedParticipant(log, lookup.account, view.record.body.links, uuid);
    if !Settled(view) && p.Some? {
      ObservedPairKeeps(log, lookup, p.value, first, second);
      KeepsWithName(log, ObservedParticipantLog(log, p.value, lookup, first), lookup.account, lookup.name);
    }
  }
}
