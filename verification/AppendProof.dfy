/** Ephemeral append evidence from the ledger owner: which file versions followed one another. */
module AppendProof {
  import opened Records
  import opened OrderedSets

  type Stamp = string

  const REMEMBERED_COMMITS := 4096
  const RETURNED_COMMITS := 512
  const REMEMBERED_DIRECTORIES := 128

  datatype Version = Version(stamp: Stamp, records: nat, catalogStamp: Option<Stamp>)

  /** One completed append (or replay) as the owner reports it. */
  datatype Commit = Commit(
    before: Stamp, after: Stamp, previousRecords: nat, records: nat, layout: string,
    beforeCatalog: Option<Stamp>, catalog: Option<Stamp>)
  {
    function Base(): Version { Version(before, previousRecords, beforeCatalog) }

    function Result(): Version { Version(after, records, catalog) }
  }

  datatype Proof = Proof(layout: string, commits: seq<Version>)

  /** Each commit starts exactly where the one before it ended, under one layout. */
  ghost predicate Linked(h: seq<Commit>) {
    var n := |h| - 1;
    n < 1 || (h[n].Base() == h[n - 1].Result() && h[n].layout == h[n - 1].layout && Linked(h[..n]))
  }

  /** The version before the first commit, then the version after each one. */
  ghost function Chain(h: seq<Commit>): (versions: seq<Version>)
    requires h != []
    ensures |versions| == |h| + 1 && versions[|h|] == h[|h| - 1].Result()
  {
    var n := |h| - 1;
    (if n == 0 then [h[0].Base()] else Chain(h[..n])) + [h[n].Result()]
  }

  ghost function Newest(h: seq<Commit>, m: nat): seq<Commit>
    requires m <= |h|
  {
    h[|h| - m..]
  }

  /** `p` remembers an unbroken run of the reported commits that ends with the newest one. */
  ghost predicate GapFree(h: seq<Commit>, p: Proof) {
    var m := |p.commits| - 1;
    && 1 <= m <= |h|
    && Linked(Newest(h, m))
    && p.layout == h[|h| - 1].layout
    && p.commits == Chain(Newest(h, m))
  }

  predicate Continues(p: Proof, c: Commit) {
    p.layout == c.layout && p.commits != [] && p.commits[|p.commits| - 1] == c.Base()
  }

  function Remembered(previous: Option<Proof>, c: Commit): Proof {
    var commits := if previous.Some? && Continues(previous.value, c) then previous.value.commits else [c.Base()];
    Proof(c.layout, Last(commits + [c.Result()], REMEMBERED_COMMITS))
  }

  lemma {:induction false} LinkedExtend(h: seq<Commit>, c: Commit)
    requires h != [] && Linked(h)
    requires c.Base() == h[|h| - 1].Result() && c.layout == h[|h| - 1].layout
    ensures Linked(h + [c])
    ensures Chain(h + [c]) == Chain(h) + [c.Result()]
  {
    assert (h + [c])[..|h|] == h;
  }

  lemma NewestStep(h: seq<Commit>, m: nat)
    requires 2 <= m <= |h|
    ensures var n := |h| - 1;
            && Newest(h, m)[..m - 1] == Newest(h[..n], m - 1)
            && Newest(h, m)[m - 1] == h[n] && Newest(h, m)[m - 2] == h[n - 1]
  {
  }

  lemma ChainStep(h: seq<Commit>)
    requires 2 <= |h|
    ensures Chain(h) == Chain(h[..|h| - 1]) + [h[|h| - 1].Result()]
  {
  }

  lemma {:induction false} LinkedNewest(h: seq<Commit>, m: nat)
    requires Linked(h) && 1 <= m <= |h|
    ensures Linked(Newest(h, m))
  {
    if 2 <= m {
      LinkedNewest(h[..|h| - 1], m - 1);
      NewestStep(h, m);
    }
  }

  lemma ChainOfOne(c: Commit)
    ensures Chain([c]) == [c.Base(), c.Result()]
  {
  }

  lemma ChainEnd(h: seq<Commit>)
    requires 2 <= |h|
    ensures Chain(h)[|h| - 1..] == [h[|h| - 2].Result(), h[|h| - 1].Result()]
  {
    ChainStep(h);
  }

  lemma ChainOfNewestOne(h: seq<Commit>)
    requires h != [] && (2 <= |h| ==> h[|h| - 1].Base() == h[|h| - 2].Result())
    ensures Chain(h)[|h| - 1..] == Chain(Newest(h, 1))
  {
    var n := |h| - 1;
    assert Newest(h, 1) == [h[n]];
    ChainOfOne(h[n]);
    if n == 0 {
      assert h == [h[0]];
    } else {
      ChainEnd(h);
    }
  }

  lemma ChainAppend(h: seq<Commit>, c: Commit)
    requires h != []
    ensures Chain(h + [c]) == Chain(h) + [c.Result()]
  {
    assert (h + [c])[..|h|] == h;
  }

  lemma NewestAppend(h: seq<Commit>, m: nat)
    requires 2 <= m <= |h|
    ensures Newest(h, m) == Newest(h[..|h| - 1], m - 1) + [h[|h| - 1]]
  {
  }

  lemma ChainOfNewestStep(h: seq<Commit>, m: nat)
    requires 2 <= m <= |h|
    ensures Chain(Newest(h, m)) == Chain(Newest(h[..|h| - 1], m - 1)) + [h[|h| - 1].Result()]
  {
    NewestAppend(h, m);
    ChainAppend(Newest(h[..|h| - 1], m - 1), h[|h| - 1]);
  }

  lemma {:induction false} ChainOfNewest(h: seq<Commit>, m: nat)
    requires Linked(h) && 1 <= m <= |h|
    ensures Chain(h)[|h| - m..] == Chain(Newest(h, m))
  {
    if m == 1 {
      ChainOfNewestOne(h);
    } else {
      var n := |h| - 1;
      ChainOfNewest(h[..n], m - 1);
      ChainOfNewestStep(h, m);
      ChainStep(h);
      CutAppend(Chain(h[..n]), h[n].Result(), n + 1 - m);
    }
  }

  lemma CutAppend<T>(s: seq<T>, x: T, k: nat)
    requires k <= |s|
    ensures (s + [x])[k..] == s[k..] + [x]
  {
  }

  /** Forgetting the oldest versions of a run leaves a run. */
  lemma LinkedSuffix(h: seq<Commit>, m: nat)
    requires Linked(h) && 1 <= m <= |h|
    ensures Linked(Newest(h, m))
    ensures Chain(h)[|h| - m..] == Chain(Newest(h, m))
  {
    LinkedNewest(h, m);
    ChainOfNewest(h, m);
  }

  lemma NewestOfNewest(h: seq<Commit>, m: nat, k: nat)
    requires k <= m <= |h|
    ensures Newest(Newest(h, m), k) == Newest(h, k)
  {
  }

  lemma LimitKeepsRun(tail: seq<Commit>, versions: seq<Version>, n: nat)
    requires tail != [] && Linked(tail) && versions == Chain(tail) && 2 <= n < |versions|
    ensures Linked(Newest(tail, n - 1)) && Last(versions, n) == Chain(Newest(tail, n - 1))
  {
    LinkedSuffix(tail, n - 1);
  }

  lemma LimitKeepsGapFree(h: seq<Commit>, p: Proof, n: nat)
    requires GapFree(h, p) && 2 <= n
    ensures GapFree(h, p.(commits := Last(p.commits, n)))
  {
    if n < |p.commits| {
      LimitKeepsRun(Newest(h, |p.commits| - 1), p.commits, n);
      NewestOfNewest(h, |p.commits| - 1, n - 1);
    }
  }

  lemma RunIsGapFree(h: seq<Commit>, run: seq<Commit>, p: Proof)
    requires run != [] && |run| <= |h| && run == Newest(h, |run|) && Linked(run)
    requires p.layout == h[|h| - 1].layout && p.commits == Chain(run)
    ensures GapFree(h, p)
  {
  }

  lemma ContinuedRun(h: seq<Commit>, p: Proof, c: Commit)
    requires GapFree(h, p) && Continues(p, c)
    ensures GapFree(h + [c], Proof(c.layout, p.commits + [c.Result()]))
  {
    var tail := Newest(h, |p.commits| - 1);
    LinkedExtend(tail, c);
    RunIsGapFree(h + [c], tail + [c], Proof(c.layout, p.commits + [c.Result()]));
  }

  lemma RestartedRun(h: seq<Commit>, c: Commit)
    ensures GapFree(h + [c], Proof(c.layout, [c.Base()] + [c.Result()]))
  {
    assert Newest(h + [c], 1) == [c];
    ChainOfOne(c);
  }

  lemma RememberedStaysGapFree(h: seq<Commit>, previous: Option<Proof>, c: Commit)
    requires previous.Some? ==> GapFree(h, previous.value)
    ensures GapFree(h + [c], Remembered(previous, c))
  {
    if previous.Some? && Continues(previous.value, c) {
      ContinuedRun(h, previous.value, c);
      LimitKeepsGapFree(h + [c], Proof(c.layout, previous.value.commits + [c.Result()]), REMEMBERED_COMMITS);
    } else {
      RestartedRun(h, c);
      LimitKeepsGapFree(h + [c], Proof(c.layout, [c.Base()] + [c.Result()]), REMEMBERED_COMMITS);
    }
  }

  /** A commit that starts where the proof ends, under the same layout, extends it: every version but
      those beyond the limit stays. Any other commit starts a proof of its own two versions. */
  lemma ContinuedIsKept(p: Option<Proof>, c: Commit)
    ensures var r := Remembered(p, c);
            && r.layout == c.layout
            && if p.Some? && p.value.commits != [] && p.value.layout == c.layout
                  && p.value.commits[|p.value.commits| - 1] == Version(c.before, c.previousRecords, c.beforeCatalog)
               then r.commits == Last(p.value.commits + [Version(c.after, c.records, c.catalog)], 4096)
               else r.commits == [Version(c.before, c.previousRecords, c.beforeCatalog),
                                  Version(c.after, c.records, c.catalog)]
  {
  }

  datatype Slot = Slot(directory: string, proof: Proof)

  function ProofIn(slots: seq<Slot>, d: string): Option<Proof> {
    if slots == [] then None
    else if slots[0].directory == d then Some(slots[0].proof)
    else ProofIn(slots[1..], d)
  }

  function Without(slots: seq<Slot>, d: string): (rest: seq<Slot>)
    ensures |rest| <= |slots|
    ensures forall x :: x in rest <==> x in slots && x.directory != d
  {
    if slots == [] then []
    else
      var rest := Without(slots[1..], d);
      assert slots == [slots[0]] + slots[1..];
      if slots[0].directory == d then rest else [slots[0]] + rest
  }

  lemma {:induction false} ProofInFinds(slots: seq<Slot>, d: string)
    ensures ProofIn(slots, d).Some? ==> Slot(d, ProofIn(slots, d).value) in slots
    ensures forall e :: ProofIn(Without(slots, d), e) == if e == d then None else ProofIn(slots, e)
  {
    if slots != [] {
      ProofInFinds(slots[1..], d);
      var rest := Without(slots[1..], d);
      assert ([slots[0]] + rest)[1..] == rest;
    }
  }

  predicate EndsAt(p: Option<Proof>, expected: Stamp, expectedCatalog: Option<Stamp>) {
    && p.Some? && p.value.commits != []
    && var last := p.value.commits[|p.value.commits| - 1];
       last.stamp == expected && (expectedCatalog.Some? ==> last.catalogStamp == expectedCatalog)
  }

  /** The proof ends at a version of the current file and, if one is named, of the catalog. */
  lemma EndsAtIff(p: Proof, last: Version, expected: Stamp, expectedCatalog: Option<Stamp>)
    requires p.commits != [] && last == p.commits[|p.commits| - 1]
    ensures EndsAt(Some(p), expected, expectedCatalog)
            <==> last.stamp == expected && (expectedCatalog.None? || expectedCatalog == last.catalogStamp)
  {
  }

  /** A report makes its directory the newest; only the oldest of 128 others leaves for it. */
  lemma OldestLeaves(slots: seq<Slot>, d: string, c: Commit)
    requires |slots| <= REMEMBERED_DIRECTORIES
    ensures var kept := Last(RememberIn(slots, d, c), REMEMBERED_DIRECTORIES);
            && kept != [] && kept[|kept| - 1].directory == d
            && (forall s <- kept :: s.directory != d ==> s in slots)
            && (forall s <- slots :: s.directory != d ==> s in kept || s == slots[0])
            && (|slots| < REMEMBERED_DIRECTORIES || ProofIn(slots, d).Some?
                ==> forall s <- slots :: s.directory != d ==> s in kept)
  {
    var rest, all := Without(slots, d), RememberIn(slots, d, c);
    ProofInFinds(slots, d);
    FullWithout(slots, d);
    if |all| > REMEMBERED_DIRECTORIES {
      assert slots == [slots[0]] + slots[1..] && all[1..] == slots[1..] + [all[|all| - 1]];
    }
  }

  lemma {:induction false} FullWithout(slots: seq<Slot>, d: string)
    ensures |Without(slots, d)| == |slots| ==> Without(slots, d) == slots
  {
    if slots != [] {
      FullWithout(slots[1..], d);
    }
  }

  type History = map<string, seq<Commit>>

  function Reported(history: History, d: string): seq<Commit> {
    if d in history then history[d] else []
  }

  ghost predicate AllGapFree(slots: seq<Slot>, history: History) {
    forall s <- slots :: GapFree(Reported(history, s.directory), s.proof)
  }

  function RememberIn(slots: seq<Slot>, d: string, c: Commit): seq<Slot> {
    Without(slots, d) + [Slot(d, Remembered(ProofIn(slots, d), c))]
  }

  /** Reporting one more commit keeps every remembered proof gap-free. */
  lemma RememberKeepsGapFree(slots: seq<Slot>, history: History, d: string, c: Commit)
    requires AllGapFree(slots, history)
    ensures AllGapFree(RememberIn(slots, d, c), history[d := Reported(history, d) + [c]])
  {
    var history' := history[d := Reported(history, d) + [c]];
    forall s | s in RememberIn(slots, d, c) ensures GapFree(Reported(history', s.directory), s.proof) {
      if s in Without(slots, d) {
        assert Reported(history', s.directory) == Reported(history, s.directory);
      } else {
        ProofInFinds(slots, d);
        RememberedStaysGapFree(Reported(history, d), ProofIn(slots, d), c);
      }
    }
  }

  lemma LimitedSlotsGapFree(slots: seq<Slot>, history: History, n: nat)
    requires AllGapFree(slots, history)
    ensures AllGapFree(Last(slots, n), history)
  {
  }

  /** The module's process-wide map; a JavaScript Map keeps its entries in insertion order. */
  class ProofRegistry {
    var slots: seq<Slot>
    ghost var history: History  // every commit ever reported, by directory

    ghost predicate Valid()
      reads this
    {
      |slots| <= REMEMBERED_DIRECTORIES && AllGapFree(slots, history)
    }

    constructor ()
      ensures Valid() && slots == [] && history == map[]
    {
      slots, history := [], map[];
    }

    /** `rememberMessageHistoryAppend`: the directory moves to the end, the oldest one may leave. */
    method Remember(d: string, c: Commit)
      requires Valid()
      modifies this
      ensures Valid()
      ensures history == old(history)[d := Reported(old(history), d) + [c]]
      ensures slots == Last(RememberIn(old(slots), d, c), REMEMBERED_DIRECTORIES)
    {
      RememberKeepsGapFree(slots, history, d, c);
      LimitedSlotsGapFree(RememberIn(slots, d, c), history[d := Reported(history, d) + [c]], REMEMBERED_DIRECTORIES);
      history := history[d := Reported(history, d) + [c]];
      PutLast(d, Remembered(ProofIn(slots, d), c));
    }

    method PutLast(d: string, p: Proof)
      requires |slots| <= REMEMBERED_DIRECTORIES
      modifies this`slots
      ensures slots == Last(Without(old(slots), d) + [Slot(d, p)], REMEMBERED_DIRECTORIES)
              && |slots| <= REMEMBERED_DIRECTORIES
    {
      slots := Without(slots, d) + [Slot(d, p)];
      if |slots| > REMEMBERED_DIRECTORIES {
        slots := slots[1..];
      }
    }

    /** `messageHistoryAppendProof`: at most the newest versions leave the module. */
    method AppendProof(d: string) returns (p: Option<Proof>)
      requires Valid()
      ensures p.Some? <==> ProofIn(slots, d).Some?
      ensures p.Some? ==> ghost var whole := ProofIn(slots, d).value;
                          p.value == whole.(commits := Last(whole.commits, RETURNED_COMMITS))
      ensures p.Some? ==> GapFree(Reported(history, d), p.value)
    {
      p := ProofIn(slots, d);
      ProofInFinds(slots, d);
      if p.Some? {
        LimitKeepsGapFree(Reported(history, d), p.value, RETURNED_COMMITS);
        p := Some(p.value.(commits := Last(p.value.commits, RETURNED_COMMITS)));
      }
    }

    /** `discardMessageHistoryAppendProof`: only the proof that still ends at the expected version. */
    method Discard(d: string, expected: Stamp, expectedCatalog: Option<Stamp>) returns (discarded: bool)
      requires Valid()
      modifies this
      ensures Valid() && history == old(history)
      ensures slots == if discarded then Without(old(slots), d) else old(slots)
      ensures discarded == EndsAt(ProofIn(old(slots), d), expected, expectedCatalog)
      ensures ProofIn(slots, d) == if discarded then None else ProofIn(old(slots), d)
      ensures forall e :: e != d ==> ProofIn(slots, e) == ProofIn(old(slots), e)
    {
      ProofInFinds(slots, d);
      if !EndsAt(ProofIn(slots, d), expected, expectedCatalog) {
        return false;
      }
      slots := Without(slots, d);
      discarded := true;
    }
  }

  // ---------------------------------------------------------------- what the evidence proves

  /** The commit tells the truth about `world`, the current file's records at each stamp:
      the later version extends the earlier one. */
  ghost predicate Honest(c: Commit, world: Stamp -> seq<Record>) {
    && |world(c.before)| == c.previousRecords
    && |world(c.after)| == c.records
    && world(c.before) <= world(c.after)
  }

  /** The versions are stages of one growing file, and their record counts are right. */
  ghost predicate Reflects(versions: seq<Version>, world: Stamp -> seq<Record>) {
    var n := |versions| - 1;
    n < 0 || (
      && versions[n].records == |world(versions[n].stamp)|
      && (0 < n ==> world(versions[n - 1].stamp) <= world(versions[n].stamp))
      && Reflects(versions[..n], world))
  }

  lemma {:induction false} ChainReflects(h: seq<Commit>, world: Stamp -> seq<Record>)
    requires h != [] && Linked(h)
    requires forall c <- h :: Honest(c, world)
    ensures Reflects(Chain(h), world)
  {
    var n := |h| - 1;
    assert Honest(h[n], world);
    var chain := Chain(h);
    assert chain[..|h|] == if n == 0 then [h[0].Base()] else Chain(h[..n]);
    if n == 0 {
      assert [h[0].Base()][..0] == [];
    } else {
      ChainReflects(h[..n], world);
      assert chain[n] == h[n - 1].Result() == h[n].Base();
    }
  }

  /** Honest commits make a gap-free proof a record of the file's real growth. */
  lemma GapFreeProofReflectsWorld(h: seq<Commit>, p: Proof, world: Stamp -> seq<Record>)
    requires GapFree(h, p)
    requires forall c <- h :: Honest(c, world)
    ensures Reflects(p.commits, world)
  {
    ChainReflects(Newest(h, |p.commits| - 1), world);
  }

  /** A remembered version is a prefix of every later remembered one. */
  lemma {:induction false} EarlierIsPrefix(versions: seq<Version>, world: Stamp -> seq<Record>, i: nat, j: nat)
    requires Reflects(versions, world) && i <= j < |versions|
    ensures versions[i].records == |world(versions[i].stamp)|
    ensures world(versions[i].stamp) <= world(versions[j].stamp)
    decreases |versions|
  {
    var n := |versions| - 1;
    if j < n {
      EarlierIsPrefix(versions[..n], world, i, j);
    } else if i < n {
      EarlierIsPrefix(versions[..n], world, i, n - 1);
    }
  }
}
