/** The identity event log: which events of one record are still current. */
module IdentityHeads {
  import opened Records

  /** `supersedes` is the field as stored; an event of an older program has none. */
  datatype Event<R> = Event(id: string, record: R, supersedes: Option<seq<string>>)

  // ---------------------------------------------------------------- text(item, 300)

  predicate IsSpace(c: char) {
    var n := c as int;
    9 <= n <= 13 || n == 32 || n == 0xA0 || n == 0x1680 || 0x2000 <= n <= 0x200A
    || n == 0x2028 || n == 0x2029 || n == 0x202F || n == 0x205F || n == 0x3000 || n == 0xFEFF
  }

  /** Each run of white space becomes one blank. */
  function Squeezed(s: string): string {
    if s == "" then ""
    else
      var rest := Squeezed(s[1..]);
      if !IsSpace(s[0]) then [s[0]] + rest
      else if rest != "" && rest[0] == ' ' then rest
      else " " + rest
  }

  function Trimmed(s: string): string {
    var left := if s != "" && s[0] == ' ' then s[1..] else s;
    if left != "" && left[|left| - 1] == ' ' then left[..|left| - 1] else left
  }

  const ID_LIMIT := 300

  function NormalizeId(id: string): string {
    var t := Trimmed(Squeezed(id));
    if |t| <= ID_LIMIT then t else t[..ID_LIMIT]
  }

  lemma {:induction false} SqueezedWithoutSpace(s: string)
    requires forall c <- s :: !IsSpace(c)
    ensures Squeezed(s) == s
  {
    if s != "" {
      SqueezedWithoutSpace(s[1..]);
      assert s == [s[0]] + s[1..];
    }
  }

  /** Ids as the program generates them are left alone. */
  lemma GeneratedIdsAreCanonical(id: string)
    requires 0 < |id| <= ID_LIMIT && forall c <- id :: !IsSpace(c)
    ensures NormalizeId(id) == id
  {
    SqueezedWithoutSpace(id);
    assert IsSpace(' ');
    assert id[0] in id && id[|id| - 1] in id;
  }

  // ---------------------------------------------------------------- heads

  /** `eventSupersedes`. */
  function Cited<R>(e: Event<R>): set<string> {
    if e.supersedes.None? then {}
    else set raw <- e.supersedes.value | NormalizeId(raw) != "" && NormalizeId(raw) != e.id :: NormalizeId(raw)
  }

  function Explicit<R>(log: seq<Event<R>>): set<string> {
    if log == [] then {} else Explicit(log[..|log| - 1]) + Cited(log[|log| - 1])
  }

  datatype Walk = Walk(current: set<string>, inferred: set<string>)

  function Advance<R>(w: Walk, e: Event<R>, explicit: set<string>): Walk {
    var parents := if e.supersedes.Some? then Cited(e) else w.current;
    var current := w.current - parents;
    Walk(if e.id in explicit then current else current + {e.id}, w.inferred + parents)
  }

  /** An event cites what it names, cleaned up, but neither itself nor nothing. */
  lemma CitedIff<R>(e: Event<R>, id: string)
    ensures id in Cited(e)
            <==> && id != "" && id != e.id && e.supersedes.Some?
                 && exists raw <- e.supersedes.value :: NormalizeId(raw) == id
  {
  }

  /** The pass that lets an event without `supersedes` replace whatever was current before it. */
  function Walked<R>(log: seq<Event<R>>, explicit: set<string>): Walk {
    if log == [] then Walk({}, {}) else Advance(Walked(log[..|log| - 1], explicit), log[|log| - 1], explicit)
  }

  function Superseded<R>(log: seq<Event<R>>): set<string> {
    Explicit(log) + Walked(log, Explicit(log)).inferred
  }

  function Live<R>(s: seq<Event<R>>, superseded: set<string>): seq<Event<R>> {
    if s == [] then []
    else Live(s[..|s| - 1], superseded) + if s[|s| - 1].id in superseded then [] else [s[|s| - 1]]
  }

  /** The current events of one record: nothing supersedes them; a log whose events all supersede
      each other falls back to the last one. */
  function Heads<R>(log: seq<Event<R>>): seq<Event<R>> {
    var live := Live(log, Superseded(log));
    if live == [] && log != [] then [log[|log| - 1]] else live
  }

  ghost function Ids<R>(s: seq<Event<R>>): set<string> {
    set e <- s :: e.id
  }

  ghost predicate AllExplicit<R>(s: seq<Event<R>>) {
    forall e <- s :: e.supersedes.Some?
  }

  /** The loops of `state` for one group of events. */
  method CollectHeads<R(==)>(group: seq<Event<R>>) returns (heads: seq<Event<R>>)
    ensures heads == Heads(group)
  {
    var explicit: set<string> := {};
    for i := 0 to |group|
      invariant explicit == Explicit(group[..i])
    {
      assert group[..i + 1][..i] == group[..i];
      explicit := explicit + Cited(group[i]);
    }
    assert group[..|group|] == group;
    var inferred: set<string>, current: set<string> := {}, {};
    for i := 0 to |group|
      invariant Walk(current, inferred) == Walked(group[..i], explicit)
    {
      assert group[..i + 1][..i] == group[..i];
      var parents := if group[i].supersedes.Some? then Cited(group[i]) else current;
      inferred := inferred + parents;
      current := current - parents;
      if group[i].id !in explicit {
        current := current + {group[i].id};
      }
    }
    var superseded := explicit + inferred;
    heads := [];
    for i := 0 to |group|
      invariant heads == Live(group[..i], superseded)
    {
      assert group[..i + 1][..i] == group[..i];
      if group[i].id !in superseded {
        heads := heads + [group[i]];
      }
    }
    if heads == [] && group != [] {
      heads := [group[|group| - 1]];
    }
  }

  // ---------------------------------------------------------------- what an appended block supersedes

  /** Knowing more explicit citations, the pass infers no more, and what it no longer infers is cited. */
  lemma {:induction false} WalkedWithMore<R>(log: seq<Event<R>>, few: set<string>, more: set<string>)
    requires few <= more
    ensures var w, w' := Walked(log, few), Walked(log, more);
            && w'.inferred <= w.inferred <= w'.inferred + more
            && w'.current <= w.current <= w'.current + more
  {
    if log != [] {
      WalkedWithMore(log[..|log| - 1], few, more);
    }
  }

  lemma {:induction false} ExplicitConcat<R>(log: seq<Event<R>>, es: seq<Event<R>>)
    ensures Explicit(log + es) == Explicit(log) + Explicit(es)
  {
    if es == [] {
      assert log + es == log;
    } else {
      assert (log + es)[..|log + es| - 1] == log + es[..|es| - 1];
      ExplicitConcat(log, es[..|es| - 1]);
    }
  }

  lemma {:induction false} WalkedConcat<R>(log: seq<Event<R>>, es: seq<Event<R>>, explicit: set<string>)
    requires AllExplicit(es)
    ensures Walked(log + es, explicit).inferred == Walked(log, explicit).inferred + Explicit(es)
  {
    if es == [] {
      assert log + es == log;
    } else {
      assert (log + es)[..|log + es| - 1] == log + es[..|es| - 1];
      assert es[|es| - 1] in es;
      WalkedConcat(log, es[..|es| - 1], explicit);
    }
  }

  /** A block of events with `supersedes` supersedes exactly what it cites, besides what was
      superseded before. */
  lemma SupersededByBlock<R>(log: seq<Event<R>>, es: seq<Event<R>>)
    requires AllExplicit(es)
    ensures Superseded(log + es) == Superseded(log) + Explicit(es)
  {
    ExplicitConcat(log, es);
    WalkedConcat(log, es, Explicit(log + es));
    WalkedWithMore(log, Explicit(log), Explicit(log + es));
  }

  lemma {:induction false} LiveConcat<R>(s: seq<Event<R>>, t: seq<Event<R>>, superseded: set<string>)
    ensures Live(s + t, superseded) == Live(s, superseded) + Live(t, superseded)
  {
    if t == [] {
      assert s + t == s;
    } else {
      assert (s + t)[..|s + t| - 1] == s + t[..|t| - 1];
      LiveConcat(s, t[..|t| - 1], superseded);
    }
  }

  lemma {:induction false} LiveMembers<R>(s: seq<Event<R>>, superseded: set<string>)
    ensures forall e <- Live(s, superseded) :: e in s && e.id !in superseded
    ensures forall e <- s :: e.id !in superseded ==> e in Live(s, superseded)
  {
    if s != [] {
      LiveMembers(s[..|s| - 1], superseded);
      assert s == s[..|s| - 1] + [s[|s| - 1]];
    }
  }

  lemma LiveStep<R>(s: seq<Event<R>>, superseded: set<string>)
    requires s != [] && s[|s| - 1].id !in superseded
    ensures Live(s, superseded) == Live(s[..|s| - 1], superseded) + [s[|s| - 1]]
  {
  }

  lemma {:induction false} AllLive<R>(s: seq<Event<R>>, superseded: set<string>)
    requires forall e <- s :: e.id !in superseded
    ensures Live(s, superseded) == s
  {
    if s != [] {
      AllLive(s[..|s| - 1], superseded);
      LiveStep(s, superseded);
    }
  }

  lemma NoneLive<R>(s: seq<Event<R>>, superseded: set<string>)
    ensures Live(s, superseded) == [] <==> forall e <- s :: e.id in superseded
  {
    LiveMembers(s, superseded);
    if Live(s, superseded) == [] {
      forall e | e in s ensures e.id in superseded {
        assert e !in Live(s, superseded);
      }
    } else {
      assert Live(s, superseded)[0] in Live(s, superseded);
    }
  }

  lemma HeadsWithBlock<R>(log: seq<Event<R>>, es: seq<Event<R>>)
    requires AllExplicit(es) && es != []
    requires forall e <- es :: e.id !in Superseded(log) + Explicit(es)
    ensures Heads(log + es) == Live(log, Superseded(log) + Explicit(es)) + es
  {
    SupersededByBlock(log, es);
    LiveConcat(log, es, Superseded(log) + Explicit(es));
    AllLive(es, Superseded(log) + Explicit(es));
  }

  /** Whatever the log looked like, cyclic or mixed: events appended under fresh ids are its
      exact heads if and only if they cite everything that was not superseded before. */
  lemma BlockBecomesHeads<R>(log: seq<Event<R>>, es: seq<Event<R>>)
    requires AllExplicit(es) && es != []
    requires forall e <- es :: e.id !in Superseded(log) + Explicit(es)
    ensures Heads(log + es) == es <==> forall h <- log :: h.id in Superseded(log) + Explicit(es)
  {
    var dead := Superseded(log) + Explicit(es);
    HeadsWithBlock(log, es);
    NoneLive(log, dead);
    if Live(log, dead) != [] {
      assert |Heads(log + es)| > |es|;
    }
  }

  // ---------------------------------------------------------------- updates

  /** The event names the heads it was made from, in any order. */
  ghost predicate Replaces<R>(e: Event<R>, log: seq<Event<R>>) {
    e.supersedes.Some? && forall id :: id in e.supersedes.value <==> id in Ids(Heads(log))
  }

  /** A fresh id: nothing in the log has it or cites it, and no id of the log normalizes to it. */
  ghost predicate FreshId<R>(log: seq<Event<R>>, id: string) {
    id !in Superseded(log) && forall e <- log :: e.id != id && NormalizeId(e.id) != id
  }

  ghost predicate CitableHead<R>(heads: seq<Event<R>>, id: string) {
    id != "" && exists g <- heads :: NormalizeId(g.id) == id
  }

  /** Every head that some event does not supersede yet can be cited by its stored id. */
  ghost predicate HeadsAreCitable<R>(log: seq<Event<R>>) {
    forall h <- Live(log, Superseded(log)) :: CitableHead(Heads(log), h.id)
  }

  lemma HeadsAreEvents<R>(log: seq<Event<R>>)
    ensures forall h <- Heads(log) :: h in log
    ensures forall h <- Live(log, Superseded(log)) :: h in Heads(log)
  {
    LiveMembers(log, Superseded(log));
    if log != [] {
      assert log[|log| - 1] in log;
    }
  }

  lemma CitedByReplacement<R>(e: Event<R>, log: seq<Event<R>>, id: string)
    requires Replaces(e, log) && FreshId(log, e.id)
    ensures id in Cited(e) <==> CitableHead(Heads(log), id)
  {
    HeadsAreEvents(log);
    if CitableHead(Heads(log), id) {
      var g :| g in Heads(log) && NormalizeId(g.id) == id;
      assert g.id in Ids(Heads(log));
    }
    if id in Cited(e) {
      var raw :| raw in e.supersedes.value && NormalizeId(raw) == id;
      var g :| g in Heads(log) && g.id == raw;
    }
  }

  lemma {:induction false} ExplicitOfReplacements<R>(log: seq<Event<R>>, es: seq<Event<R>>, id: string)
    requires es != [] && forall e <- es :: Replaces(e, log) && FreshId(log, e.id)
    ensures id in Explicit(es) <==> CitableHead(Heads(log), id)
  {
    var n := |es| - 1;
    assert es[n] in es;
    CitedByReplacement(es[n], log, id);
    if n > 0 {
      ExplicitOfReplacements(log, es[..n], id);
    } else {
      assert Explicit(es[..0]) == {};
    }
  }

  /** One or more updates made from the same state, merged behind it in any order: they are
      exactly the heads, if and only if the heads they were made from have citable ids. */
  lemma SiblingsAreHeads<R>(log: seq<Event<R>>, es: seq<Event<R>>)
    requires es != [] && forall e <- es :: Replaces(e, log) && FreshId(log, e.id)
    ensures Heads(log + es) == es <==> HeadsAreCitable(log)
  {
    var dead := Superseded(log) + Explicit(es);
    HeadsAreEvents(log);
    LiveMembers(log, Superseded(log));
    forall e | e in es ensures e.id !in dead {
      ExplicitOfReplacements(log, es, e.id);
    }
    BlockBecomesHeads(log, es);
    if forall h <- log :: h.id in dead {
      forall h | h in Live(log, Superseded(log)) ensures CitableHead(Heads(log), h.id) {
        ExplicitOfReplacements(log, es, h.id);
      }
    }
    if HeadsAreCitable(log) {
      forall h | h in log ensures h.id in dead {
        if h.id !in Superseded(log) {
          assert h in Live(log, Superseded(log));
          ExplicitOfReplacements(log, es, h.id);
        }
      }
    }
  }

  ghost predicate Canonical<R>(log: seq<Event<R>>) {
    forall e <- log :: e.id != "" && NormalizeId(e.id) == e.id
  }

  /** With ids as the program writes them, an update always leaves one head. */
  lemma UpdateLeavesOneHead<R>(log: seq<Event<R>>, e: Event<R>)
    requires Canonical(log) && Replaces(e, log) && FreshId(log, e.id)
    ensures Heads(log + [e]) == [e]
  {
    CanonicalHeadsAreCitable(log);
    SiblingsAreHeads(log, [e]);
  }

  lemma CanonicalHeadsAreCitable<R>(log: seq<Event<R>>)
    requires Canonical(log)
    ensures HeadsAreCitable(log)
  {
    HeadsAreEvents(log);
  }

  /** An id with a trailing blank cannot be cited, so the event that has it stays a head. */
  lemma BlankIdsSurviveUpdates<R>(r: R)
    ensures var first, e := Event("a ", r, None), Event("b", r, Some(["a "]));
            Replaces(e, [first]) && FreshId([first], e.id) && Heads([first] + [e]) == [first, e]
  {
    var first, e := Event("a ", r, None), Event("b", r, Some(["a "]));
    assert Squeezed("a ") == "a " by {
      assert Squeezed("") == "";
      assert Squeezed(" ") == " ";
      assert "a "[1..] == " ";
    }
    assert NormalizeId("a ") == "a";
    var log := [first];
    assert log[..0] == [] && Cited(first) == {};
    assert Explicit(log) == {};
    assert Walked(log[..0], {}) == Walk({}, {});
    assert Walked(log, {}).inferred == {};
    AllLive(log, {});
    assert Ids(log) == {"a "};
    assert Cited(e) == {"a"};
    SupersededByBlock(log, [e]);
    assert [e][..0] == [];
    assert Explicit([e]) == {"a"};
    LiveConcat(log, [e], {"a"});
    AllLive(log, {"a"});
    AllLive([e], {"a"});
  }
}
