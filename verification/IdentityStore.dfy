/** The identity log of one role: appended to by updates, shown record by record. */
module IdentityStore {
  import opened Records
  import opened IdentityHeads
  import opened IdentityViews

  type Log = seq<Event<Entry>>

  function Group(log: Log, t: Target): (group: Log)
    ensures forall e <- group :: e in log && TargetOf(e.record.body) == t
  {
    if log == [] then []
    else
      var n := |log| - 1;
      Group(log[..n], t) + if TargetOf(log[n].record.body) == t then [log[n]] else []
  }

  function At(log: Log, t: Target): (view: Option<View>)
    ensures view.Some? ==> TargetOf(view.value.record.body) == t
  {
    var group := Group(log, t);
    ShownIsOfTarget(group, t);
    Shown(group)
  }

  lemma ShownIsOfTarget(group: Log, t: Target)
    requires forall e <- group :: TargetOf(e.record.body) == t
    ensures Shown(group).Some? ==> TargetOf(Shown(group).value.record.body) == t
  {
    if group != [] {
      HeadsAreEvents(group);
      var sorted := Sort(ById, Heads(group));
      SortSorts(ById, Heads(group));
      SameLength(sorted, Heads(group));
      var latest := MergedIsLatest(sorted);
      SameMembers(sorted, Heads(group), latest);
    }
  }

  function HeadIds(heads: Log): (ids: seq<string>)
    ensures forall id :: id in ids <==> exists e <- heads :: e.id == id
  {
    if heads == [] then []
    else
      var n := |heads| - 1;
      assert heads == heads[..n] + [heads[n]];
      HeadIds(heads[..n]) + [heads[n].id]
  }

  /** A new event's id and time; both come from outside. */
  datatype Stamp = Stamp(eventId: string, time: string)

  function NewEvent(log: Log, body: Body, stamp: Stamp): Event<Entry> {
    Event(stamp.eventId, Entry(body, stamp.time), Some(HeadIds(Sort(ById, Heads(Group(log, TargetOf(body)))))))
  }

  predicate AlreadyShown(log: Log, body: Body) {
    var view := At(log, TargetOf(body));
    view.Some? && view.value.conflict.None? && view.value.record.body == body
  }

  /** `updateIdentityRelation` once the patch has become a complete record. */
  function Updated(log: Log, body: Body, stamp: Stamp): Log {
    if AlreadyShown(log, body) then log else log + [NewEvent(log, body, stamp)]
  }

  class IdentityLedger {
    var log: Log

    constructor ()
      ensures log == []
    {
      log := [];
    }

    method Update(body: Body, stamp: Stamp) returns (appended: bool)
      modifies this
      ensures log == Updated(old(log), body, stamp)
      ensures appended <==> log != old(log)
    {
      var t := TargetOf(body);
      var group: Log := [];
      for i := 0 to |log|
        invariant log == old(log) && group == Group(log[..i], t)
      {
        assert log[..i + 1][..i] == log[..i];
        if TargetOf(log[i].record.body) == t {
          group := group + [log[i]];
        }
      }
      assert log[..|log|] == log;
      var heads := CollectHeads(group);
      if heads != [] {
        var view := Collapsed(heads);
        if view.conflict.None? && view.record.body == body {
          return false;
        }
      }
      HeadsAreEvents(group);
      log := log + [Event(stamp.eventId, Entry(body, stamp.time), Some(HeadIds(Sort(ById, heads))))];
      assert |log| == |old(log)| + 1;
      appended := true;
    }
  }

  // ---------------------------------------------------------------- what an update shows

  /** An event id that nothing in the log has or cites. */
  ghost predicate Fresh(log: Log, id: string) {
    && id != "" && NormalizeId(id) == id
    && forall e <- log :: e.id != id && id !in Cited(e)
  }

  lemma {:induction false} SupersededAreCitedOrPresent(log: Log, explicit: set<string>, id: string)
    requires forall e <- log :: e.id != id && id !in Cited(e)
    ensures id !in Explicit(log) && id !in Walked(log, explicit).current && id !in Walked(log, explicit).inferred
  {
    if log != [] {
      assert log[|log| - 1] in log;
      SupersededAreCitedOrPresent(log[..|log| - 1], explicit, id);
    }
  }

  lemma FreshInGroup(log: Log, t: Target, id: string)
    requires Canonical(log) && Fresh(log, id)
    ensures FreshId(Group(log, t), id) && Canonical(Group(log, t))
  {
    SupersededAreCitedOrPresent(Group(log, t), Explicit(Group(log, t)), id);
  }

  lemma GroupAppend(log: Log, e: Event<Entry>, t: Target)
    ensures Group(log + [e], t) == Group(log, t) + if TargetOf(e.record.body) == t then [e] else []
  {
    assert (log + [e])[..|log|] == log;
  }

  lemma NewEventReplaces(log: Log, body: Body, stamp: Stamp)
    ensures Replaces(NewEvent(log, body, stamp), Group(log, TargetOf(body)))
  {
    var heads := Heads(Group(log, TargetOf(body)));
    var sorted := Sort(ById, heads);
    SortSorts(ById, heads);
    forall id ensures id in HeadIds(sorted) <==> id in Ids(heads) {
      if id in HeadIds(sorted) {
        var e :| e in sorted && e.id == id;
        SameMembers(sorted, heads, e);
      }
      if id in Ids(heads) {
        var e :| e in heads && e.id == id;
        SameMembers(sorted, heads, e);
      }
    }
  }

  lemma OthersStayShown(log: Log, e: Event<Entry>, t: Target)
    requires t != TargetOf(e.record.body)
    ensures At(log + [e], t) == At(log, t)
  {
    GroupAppend(log, e, t);
    assert Group(log, t) + [] == Group(log, t);
  }

  lemma SoleHeadIsShown(group: Log, e: Event<Entry>)
    requires Canonical(group) && FreshId(group, e.id) && Replaces(e, group) && Tidy(e.record.body)
    ensures Shown(group + [e]) == Some(View(e.record, None))
  {
    UpdateLeavesOneHead(group, e);
    SingleHeadIsShown(e);
  }

  lemma NewEventIsShown(log: Log, body: Body, stamp: Stamp)
    requires Canonical(log) && Fresh(log, stamp.eventId) && Tidy(body)
    ensures At(log + [NewEvent(log, body, stamp)], TargetOf(body)) == Some(View(Entry(body, stamp.time), None))
  {
    var t := TargetOf(body);
    FreshInGroup(log, t, stamp.eventId);
    NewEventReplaces(log, body, stamp);
    SoleHeadIsShown(Group(log, t), NewEvent(log, body, stamp));
    GroupAppend(log, NewEvent(log, body, stamp), t);
  }

  /** After an update the record is shown as written and without conflict, whatever its log held,
      and every other record is shown as before. */
  lemma UpdateIsShown(log: Log, body: Body, stamp: Stamp)
    requires Canonical(log) && Fresh(log, stamp.eventId) && Tidy(body)
    ensures Canonical(Updated(log, body, stamp))
    ensures forall t :: t != TargetOf(body) ==> At(Updated(log, body, stamp), t) == At(log, t)
    ensures var view := At(Updated(log, body, stamp), TargetOf(body));
            view.Some? && view.value.conflict.None? && view.value.record.body == body
  {
    if !AlreadyShown(log, body) {
      var e := NewEvent(log, body, stamp);
      NewEventIsShown(log, body, stamp);
      CanonicalAppend(log, e);
      forall t | t != TargetOf(body) ensures At(log + [e], t) == At(log, t) {
        OthersStayShown(log, e, t);
      }
    }
  }

  lemma CanonicalAppend(log: Log, e: Event<Entry>)
    requires Canonical(log) && e.id != "" && NormalizeId(e.id) == e.id
    ensures Canonical(log + [e])
  {
  }

  lemma SiblingsAreShown(group: Log, a: Event<Entry>, b: Event<Entry>)
    requires Canonical(group) && FreshId(group, a.id) && FreshId(group, b.id) && Replaces(a, group)
             && Replaces(b, group)
    ensures Heads(group + [a, b]) == [a, b]
    ensures Shown(group + [a, b]).Some?
    ensures Shown(group + [a, b]).value.conflict.Some? <==> Substance(a.record) != Substance(b.record)
  {
    CanonicalHeadsAreCitable(group);
    SiblingsAreHeads(group, [a, b]);
    TwoHeadsEitherWay(a, b);
  }

  lemma GroupAppendTwo(log: Log, a: Event<Entry>, b: Event<Entry>, t: Target)
    requires TargetOf(a.record.body) == t == TargetOf(b.record.body)
    ensures Group(log + [a, b], t) == Group(log, t) + [a, b]
  {
    assert log + [a, b] == (log + [a]) + [b];
    GroupAppend(log, a, t);
    GroupAppend(log + [a], b, t);
  }

  /** Two updates made from the same log, merged one behind the other: the two events are exactly
      the heads, and they conflict exactly when they differ in substance. */
  lemma ConcurrentUpdates(log: Log, a: Body, b: Body, s: Stamp, t: Stamp)
    requires Canonical(log) && Fresh(log, s.eventId) && Fresh(log, t.eventId) && TargetOf(a) == TargetOf(b)
    ensures var first, second := NewEvent(log, a, s), NewEvent(log, b, t);
            var merged := log + [first, second];
            && Heads(Group(merged, TargetOf(a))) == [first, second]
            && At(merged, TargetOf(a)).Some?
            && (At(merged, TargetOf(a)).value.conflict.Some? <==> Substance(first.record) != Substance(second.record))
  {
    var own := TargetOf(a);
    var first, second := NewEvent(log, a, s), NewEvent(log, b, t);
    GroupAppendTwo(log, first, second, own);
    FreshInGroup(log, own, s.eventId);
    FreshInGroup(log, own, t.eventId);
    NewEventReplaces(log, a, s);
    NewEventReplaces(log, b, t);
    SiblingsAreShown(Group(log, own), first, second);
  }

  lemma TwoHeadsEitherWay(a: Event<Entry>, b: Event<Entry>)
    ensures Collapsed([a, b]).conflict.Some? <==> Substance(a.record) != Substance(b.record)
  {
    var sorted := Sort(ById, [a, b]);
    SortSorts(ById, [a, b]);
    SameMembers(sorted, [a, b], a);
    SameMembers(sorted, [a, b], b);
    forall e | e in sorted ensures e == a || e == b {
      SameMembers(sorted, [a, b], e);
    }
    assert a in sorted && b in sorted;
  }
}
