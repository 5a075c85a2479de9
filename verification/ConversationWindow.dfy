/** The bounded view of a conversation that a sender must have read: its last messages, or the
    first and last of those that are new to it. */
module ConversationWindow {
  import opened Records
  import opened OrderedSets

  /** An archive with the last sequence that the catalog gives for it. */
  datatype CatalogEntry = CatalogEntry(last: int, records: seq<Record>)

  datatype Window = Window(latest: nat, total: nat, omitted: nat, entries: seq<Record>)

  function Matching(s: seq<Record>, f: Record -> bool): seq<Record> {
    if s == [] then []
    else
      var n := |s| - 1;
      Matching(s[..n], f) + if f(s[n]) then [s[n]] else []
  }

  function After(f: Record -> bool, after: nat): Record -> bool {
    (r: Record) => f(r) && after < r.sequence
  }

  function Flat(files: seq<seq<Record>>): seq<Record> {
    if files == [] then [] else files[0] + Flat(files[1..])
  }

  function First(s: seq<Record>, n: nat): seq<Record> {
    if |s| <= n then s else s[..n]
  }

  function LatestOf(s: seq<Record>, base: nat): nat {
    if s == [] then base else Larger(LatestOf(s[..|s| - 1], base), s[|s| - 1].sequence)
  }

  ghost predicate Increasing(s: seq<Record>) {
    var n := |s| - 1;
    n < 1 || (Increasing(s[..n]) && s[n - 1].sequence < s[n].sequence)
  }

  function FilesOf(archives: seq<CatalogEntry>): (files: seq<seq<Record>>)
    ensures |files| == |archives| && forall m :: 0 <= m < |files| ==> files[m] == archives[m].records
  {
    if archives == [] then [] else [archives[0].records] + FilesOf(archives[1..])
  }

  /** The archives in catalog order, then the current file. */
  function LedgerOf(archives: seq<CatalogEntry>, current: seq<Record>): seq<Record> {
    Flat(FilesOf(archives) + [current])
  }

  /** A record of an earlier file comes before all of a later one, or is in the later one as well. */
  ghost predicate Layered(files: seq<seq<Record>>) {
    forall i, j | 0 <= i < j < |files| :: NewerIsLater(files[i], files[j])
  }

  ghost predicate NewerIsLater(older: seq<Record>, newer: seq<Record>) {
    forall r <- older, s <- newer :: r.sequence < s.sequence || r in newer
  }

  ghost predicate CatalogBounds(archives: seq<CatalogEntry>) {
    forall a <- archives, r <- a.records :: r.sequence <= a.last
  }

  // ---------------------------------------------------------------- sequences

  lemma {:induction false} MatchingAppend(s: seq<Record>, t: seq<Record>, f: Record -> bool)
    ensures Matching(s + t, f) == Matching(s, f) + Matching(t, f)
  {
    if t == [] {
      assert s + t == s;
    } else {
      assert (s + t)[..|s + t| - 1] == s + t[..|t| - 1];
      MatchingAppend(s, t[..|t| - 1], f);
    }
  }

  lemma {:induction false} FlatAppend(a: seq<seq<Record>>, b: seq<seq<Record>>)
    ensures Flat(a + b) == Flat(a) + Flat(b)
  {
    if a == [] {
      assert a + b == b;
    } else {
      assert (a + b)[1..] == a[1..] + b;
      FlatAppend(a[1..], b);
    }
  }

  lemma FlatOne(file: seq<Record>)
    ensures Flat([file]) == file
  {
    assert [file][1..] == [];
  }

  lemma {:induction false} LatestAppend(s: seq<Record>, t: seq<Record>, base: nat)
    ensures LatestOf(s + t, base) == Larger(LatestOf(s, base), LatestOf(t, base))
  {
    if t == [] {
      assert s + t == s;
      LatestAtLeast(s, base);
    } else {
      assert (s + t)[..|s + t| - 1] == s + t[..|t| - 1];
      LatestAppend(s, t[..|t| - 1], base);
    }
  }

  lemma {:induction false} LatestAtLeast(s: seq<Record>, base: nat)
    ensures base <= LatestOf(s, base)
    ensures s != [] ==> s[|s| - 1].sequence <= LatestOf(s, base)
  {
    if s != [] {
      LatestAtLeast(s[..|s| - 1], base);
    }
  }

  lemma {:induction false} IncreasingAt(s: seq<Record>, i: nat, j: nat)
    requires Increasing(s) && i < j < |s|
    ensures s[i].sequence < s[j].sequence
    decreases |s|
  {
    var n := |s| - 1;
    if j < n {
      IncreasingAt(s[..n], i, j);
    } else if i < n - 1 {
      IncreasingAt(s[..n], i, n - 1);
    }
  }

  lemma {:induction false} MatchingMembers(s: seq<Record>, f: Record -> bool)
    ensures forall r <- Matching(s, f) :: r in s && f(r)
  {
    if s != [] {
      MatchingMembers(s[..|s| - 1], f);
      assert s == s[..|s| - 1] + [s[|s| - 1]];
    }
  }

  lemma IncreasingAppend(s: seq<Record>, r: Record)
    requires Increasing(s) && (s != [] ==> s[|s| - 1].sequence < r.sequence)
    ensures Increasing(s + [r])
  {
    assert (s + [r])[..|s|] == s;
  }

  lemma EarlierIsLess(s: seq<Record>, r: Record)
    requires Increasing(s) && s != [] && r in s[..|s| - 1]
    ensures r.sequence < s[|s| - 1].sequence
  {
    var i :| 0 <= i < |s| - 1 && s[i] == r;
    IncreasingAt(s, i, |s| - 1);
  }

  lemma {:induction false} MatchingIncreases(s: seq<Record>, f: Record -> bool)
    requires Increasing(s)
    ensures Increasing(Matching(s, f))
  {
    if s != [] {
      var n := |s| - 1;
      var m := Matching(s[..n], f);
      MatchingIncreases(s[..n], f);
      if f(s[n]) {
        if m != [] {
          MatchingMembers(s[..n], f);
          EarlierIsLess(s, m[|m| - 1]);
        }
        IncreasingAppend(m, s[n]);
        assert Matching(s, f) == m + [s[n]];
      } else {
        assert Matching(s, f) == m;
      }
    }
  }

  /** On an ordered ledger the latest sequence is that of the last record. */
  lemma {:induction false} LatestIsLast(s: seq<Record>, base: nat)
    requires Increasing(s) && s != []
    ensures LatestOf(s, base) == Larger(base, s[|s| - 1].sequence)
  {
    var n := |s| - 1;
    if n > 0 {
      LatestIsLast(s[..n], base);
    } else {
      assert s[..0] == [];
    }
  }

  lemma LastAfterLast(s: seq<Record>, t: seq<Record>, n: nat)
    ensures Last(s + t, n) == Last(Last(s, n) + t, n)
  {
    if |s| > n {
      assert s + t == s[..|s| - n] + (Last(s, n) + t);
    }
  }

  lemma LastBeforeLast(s: seq<Record>, t: seq<Record>, n: nat)
    ensures Last(s + t, n) == Last(s + Last(t, n), n)
  {
    if |t| > n {
      LastIsInTail(s, t, n);
      LastIsInTail(s, Last(t, n), n);
    }
  }

  lemma LastIsInTail(s: seq<Record>, t: seq<Record>, n: nat)
    requires |t| >= n
    ensures Last(s + t, n) == Last(t, n)
  {
    assert (s + t)[|s| + |t| - n..] == t[|t| - n..];
  }

  // ---------------------------------------------------------------- the initial window

  lemma LatestSnoc(s: seq<Record>, r: Record, base: nat)
    ensures LatestOf(s + [r], base) == Larger(LatestOf(s, base), r.sequence)
  {
    assert (s + [r])[..|s|] == s;
  }

  lemma MatchingSnoc(s: seq<Record>, r: Record, f: Record -> bool)
    ensures Matching(s + [r], f) == if f(r) then Matching(s, f) + [r] else Matching(s, f)
  {
    assert (s + [r])[..|s|] == s;
  }

  /** `tail` holds the last matches of `seen`, `latest` the highest sequence among all of them. */
  ghost predicate TailRead(seen: seq<Record>, f: Record -> bool, limit: nat, tail: seq<Record>, latest: nat) {
    tail == Last(Matching(seen, f), limit) && latest == LatestOf(Matching(seen, f), 0)
  }

  lemma TailReadStep(seen: seq<Record>, r: Record, f: Record -> bool, limit: nat, tail: seq<Record>, latest: nat)
    requires TailRead(seen, f, limit, tail, latest)
    ensures if f(r) then TailRead(seen + [r], f, limit, Last(tail + [r], limit), Larger(latest, r.sequence))
            else TailRead(seen + [r], f, limit, tail, latest)
  {
    MatchingSnoc(seen, r, f);
    LatestSnoc(Matching(seen, f), r, 0);
    LastAfterLast(Matching(seen, f), [r], limit);
  }

  lemma TailReadBefore(older: seq<Record>, olderTail: seq<Record>, olderLatest: nat, newer: seq<Record>,
      tail: seq<Record>, latest: nat, f: Record -> bool, limit: nat)
    requires TailRead(older, f, limit, olderTail, olderLatest) && TailRead(newer, f, limit, tail, latest)
    ensures TailRead(older + newer, f, limit, Last(olderTail + tail, limit), Larger(latest, olderLatest))
  {
    MatchingAppend(older, newer, f);
    LatestAppend(Matching(older, f), Matching(newer, f), 0);
    LastBeforeLast(Matching(older, f), Matching(newer, f), limit);
    LastAfterLast(Matching(older, f), Last(Matching(newer, f), limit), limit);
  }

  /** The matches of one file, no more than the last `limit` of them. */
  method ReadTail(file: seq<Record>, f: Record -> bool, limit: nat) returns (tail: seq<Record>, latest: nat)
    requires 0 < limit
    ensures TailRead(file, f, limit, tail, latest)
  {
    tail, latest := [], 0;
    for j := 0 to |file|
      invariant TailRead(file[..j], f, limit, tail, latest)
    {
      assert file[..j + 1] == file[..j] + [file[j]];
      TailReadStep(file[..j], file[j], f, limit, tail, latest);
      if f(file[j]) {
        latest := Larger(latest, file[j].sequence);
        tail := tail + [file[j]];
        if |tail| > limit {
          tail := tail[1..];
        }
      }
    }
    assert file[..|file|] == file;
  }

  lemma FlatFrom(files: seq<seq<Record>>, i: nat)
    requires i < |files|
    ensures Flat(files[i..]) == files[i] + Flat(files[i + 1..])
  {
    assert files[i..][1..] == files[i + 1..];
  }

  /** Newest file first, stopping once the window is full. */
  method InitialWindow(files: seq<seq<Record>>, f: Record -> bool, limit: nat) returns (w: Window)
    requires 0 < limit && Layered(files)
    ensures var m := Matching(Flat(files), f);
            w == Window(LatestOf(m, 0), |Last(m, limit)|, 0, Last(m, limit))
  {
    var i := |files|;
    var tail: seq<Record>, latest := [], 0;
    while i > 0 && |tail| < limit
      invariant 0 <= i <= |files|
      invariant TailRead(Flat(files[i..]), f, limit, tail, latest)
    {
      i := i - 1;
      FlatFrom(files, i);
      var fileTail, fileLatest := ReadTail(files[i], f, limit);
      TailReadBefore(files[i], fileTail, fileLatest, Flat(files[i + 1..]), tail, latest, f, limit);
      latest := Larger(latest, fileLatest);
      tail := fileTail + tail;
      if |tail| > limit {
        tail := tail[|tail| - limit..];
      }
    }
    assert files == files[..i] + files[i..];
    FlatAppend(files[..i], files[i..]);
    LayeredSplit(files, i);
    StoppedEarly(Flat(files[..i]), Flat(files[i..]), f, limit);
    w := Window(latest, |tail|, 0, tail);
  }

  lemma {:induction false} FlatMember(files: seq<seq<Record>>, r: Record) returns (i: nat)
    requires r in Flat(files)
    ensures i < |files| && r in files[i]
  {
    if r in files[0] {
      i := 0;
    } else {
      var k := FlatMember(files[1..], r);
      i := k + 1;
    }
  }

  lemma {:induction false} FlatHas(files: seq<seq<Record>>, i: nat, r: Record)
    requires i < |files| && r in files[i]
    ensures r in Flat(files)
  {
    if i > 0 {
      FlatHas(files[1..], i - 1, r);
    }
  }

  lemma LayeredSplit(files: seq<seq<Record>>, i: nat)
    requires Layered(files) && i <= |files|
    ensures NewerIsLater(Flat(files[..i]), Flat(files[i..]))
  {
    forall r, s | r in Flat(files[..i]) && s in Flat(files[i..])
      ensures r.sequence < s.sequence || r in Flat(files[i..])
    {
      var a := FlatMember(files[..i], r);
      var b := FlatMember(files[i..], s);
      assert files[..i][a] == files[a] && files[i..][b] == files[i + b];
      assert NewerIsLater(files[a], files[i + b]);
      if r in files[i + b] {
        FlatHas(files[i..], b, r);
      }
    }
  }

  lemma {:induction false} LatestBounds(s: seq<Record>, base: nat)
    ensures base <= LatestOf(s, base) && forall r <- s :: r.sequence <= LatestOf(s, base)
  {
    if s != [] {
      LatestBounds(s[..|s| - 1], base);
      assert s == s[..|s| - 1] + [s[|s| - 1]];
    }
  }

  lemma {:induction false} LatestWithin(s: seq<Record>, base: nat, bound: nat)
    requires base <= bound && forall r <- s :: r.sequence <= bound
    ensures LatestOf(s, base) <= bound
  {
    if s != [] {
      LatestWithin(s[..|s| - 1], base, bound);
      assert s[|s| - 1] in s;
    }
  }

  lemma {:induction false} MatchingHas(s: seq<Record>, f: Record -> bool, r: Record)
    requires r in s && f(r)
    ensures r in Matching(s, f)
  {
    if r != s[|s| - 1] {
      assert s == s[..|s| - 1] + [s[|s| - 1]];
      MatchingHas(s[..|s| - 1], f, r);
    }
  }

  /** Matches of older files raise nothing once the newer ones have a match. */
  lemma NewerHasLatest(older: seq<Record>, newer: seq<Record>, f: Record -> bool)
    requires NewerIsLater(older, newer) && Matching(newer, f) != []
    ensures LatestOf(Matching(older, f), 0) <= LatestOf(Matching(newer, f), 0)
  {
    var n := Matching(newer, f);
    MatchingMembers(older, f);
    MatchingMembers(newer, f);
    LatestBounds(n, 0);
    forall r | r in Matching(older, f) ensures r.sequence <= LatestOf(n, 0) {
      assert n[0] in n && n[0] in newer;
      if r in newer {
        MatchingHas(newer, f, r);
      }
    }
    LatestWithin(Matching(older, f), 0, LatestOf(n, 0));
  }

  /** A full window over the newest files is the window over all of them, overlaps included. */
  lemma StoppedEarly(older: seq<Record>, newer: seq<Record>, f: Record -> bool, limit: nat)
    requires 0 < limit && NewerIsLater(older, newer)
    requires older == [] || |Last(Matching(newer, f), limit)| >= limit
    ensures Last(Matching(older + newer, f), limit) == Last(Matching(newer, f), limit)
    ensures LatestOf(Matching(older + newer, f), 0) == LatestOf(Matching(newer, f), 0)
  {
    MatchingAppend(older, newer, f);
    if older == [] {
      assert older + newer == newer;
    } else {
      LastIsInTail(Matching(older, f), Matching(newer, f), limit);
      LatestAppend(Matching(older, f), Matching(newer, f), 0);
      NewerHasLatest(older, newer, f);
    }
  }

  // ---------------------------------------------------------------- the incremental window

  function HeadSize(limit: nat): nat { (limit + 1) / 2 }
  function TailSize(limit: nat): nat { limit / 2 }

  function Head(m: seq<Record>, limit: nat): seq<Record> { First(m, HeadSize(limit)) }

  function Tail(m: seq<Record>, limit: nat): seq<Record> {
    if |m| <= HeadSize(limit) then [] else Last(m[HeadSize(limit)..], TailSize(limit))
  }

  lemma TailAppend(m: seq<Record>, r: Record, limit: nat)
    ensures Head(m + [r], limit) == if |Head(m, limit)| < HeadSize(limit) then Head(m, limit) + [r] else Head(m, limit)
    ensures Tail(m + [r], limit)
         == if |Head(m, limit)| < HeadSize(limit) then Tail(m, limit) else Last(Tail(m, limit) + [r], TailSize(limit))
  {
    var h := HeadSize(limit);
    if |m| >= h {
      assert (m + [r])[h..] == m[h..] + [r];
      LastAfterLast(m[h..], [r], TailSize(limit));
      if |m| == h {
        assert m[h..] == [];
      }
    }
  }

  /** What the incremental pass holds. */
  datatype Halves = Halves(head: seq<Record>, tail: seq<Record>, total: nat, latest: nat)

  function HalvesOf(m: seq<Record>, after: nat, limit: nat): Halves {
    Halves(Head(m, limit), Tail(m, limit), |m|, LatestOf(m, after))
  }

  lemma HalvesSnoc(m: seq<Record>, r: Record, after: nat, limit: nat)
    ensures var h := HalvesOf(m, after, limit);
            HalvesOf(m + [r], after, limit)
            == if |h.head| < HeadSize(limit)
              then Halves(h.head + [r], h.tail, h.total + 1, Larger(h.latest, r.sequence))
               else Halves(h.head, Last(h.tail + [r], TailSize(limit)), h.total + 1, Larger(h.latest, r.sequence))
  {
    LatestSnoc(m, r, after);
    TailAppend(m, r, limit);
  }

  /** The halves take one more match. */
  method TakeMatch(h: Halves, record: Record, after: nat, limit: nat, ghost m: seq<Record>) returns (h': Halves)
    requires h == HalvesOf(m, after, limit)
    ensures h' == HalvesOf(m + [record], after, limit)
  {
    HalvesSnoc(m, record, after, limit);
    h' := h.(total := h.total + 1, latest := Larger(h.latest, record.sequence));
    if |h'.head| < HeadSize(limit) {
      h' := h'.(head := h'.head + [record]);
    } else {
      h' := h'.(tail := h'.tail + [record]);
      if |h'.tail| > TailSize(limit) {
        h' := h'.(tail := h'.tail[1..]);
      }
    }
  }

  /** One record of the incremental pass, after the records `seen`. */
  method ReadRecord(h: Halves, record: Record, f: Record -> bool, after: nat, limit: nat, ghost seen: seq<Record>)
    returns (h': Halves)
    requires h == HalvesOf(Matching(seen, After(f, after)), after, limit)
    ensures h' == HalvesOf(Matching(seen + [record], After(f, after)), after, limit)
  {
    ghost var m := Matching(seen, After(f, after));
    MatchingSnoc(seen, record, After(f, after));
    LatestAtLeast(m, after);
    if f(record) && after < record.sequence {
      h' := TakeMatch(h, record, after, limit, m);
    } else {
      // An older match only confirms the sequence that is known already.
      h' := if f(record) then h.(latest := Larger(h.latest, record.sequence)) else h;
    }
  }

  method ReadFile(h0: Halves, file: seq<Record>, f: Record -> bool, after: nat, limit: nat, ghost before: seq<Record>)
      returns (h: Halves)
    requires h0 == HalvesOf(Matching(before, After(f, after)), after, limit)
    ensures h == HalvesOf(Matching(before + file, After(f, after)), after, limit)
  {
    h := h0;
    assert before + file[..0] == before;
    for j := 0 to |file|
      invariant h == HalvesOf(Matching(before + file[..j], After(f, after)), after, limit)
    {
      assert before + file[..j + 1] == before + file[..j] + [file[j]];
      h := ReadRecord(h, file[j], f, after, limit, before + file[..j]);
    }
    assert file[..|file|] == file;
  }

  method IncrementalWindow(files: seq<seq<Record>>, f: Record -> bool, after: nat, limit: nat) returns (w: Window)
    requires 0 < limit
    ensures HalvesShown(Flat(files), f, after, limit, w)
  {
    var h := Halves([], [], 0, after);
    for i := 0 to |files|
      invariant h == HalvesOf(Matching(Flat(files[..i]), After(f, after)), after, limit)
    {
      h := ReadFile(h, files[i], f, after, limit, Flat(files[..i]));
      FlatSnoc(files, i);
    }
    assert files[..|files|] == files;
    var entries := h.head + h.tail;
    w := Window(h.latest, h.total, if h.total > |entries| then h.total - |entries| else 0, entries);
  }

  lemma FlatSnoc(files: seq<seq<Record>>, i: nat)
    requires i < |files|
    ensures Flat(files[..i + 1]) == Flat(files[..i]) + files[i]
  {
    assert files[..i + 1] == files[..i] + [files[i]];
    FlatAppend(files[..i], [files[i]]);
    FlatOne(files[i]);
  }

  ghost predicate HalvesShown(ledger: seq<Record>, f: Record -> bool, after: nat, limit: nat, w: Window) {
    var m := Matching(ledger, After(f, after));
    && w.entries == Head(m, limit) + Tail(m, limit)
    && w.total == |m| && w.latest == LatestOf(m, after)
    && w.omitted == if |m| > |w.entries| then |m| - |w.entries| else 0
  }

  // ---------------------------------------------------------------- pruning

  lemma {:induction false} NothingNew(s: seq<Record>, f: Record -> bool, after: nat)
    requires forall r <- s :: r.sequence <= after
    ensures Matching(s, After(f, after)) == []
  {
    if s != [] {
      assert s[|s| - 1] in s;
      NothingNew(s[..|s| - 1], f, after);
    }
  }

  function NewerArchives(archives: seq<CatalogEntry>, after: nat): seq<CatalogEntry> {
    if archives == [] then []
    else (if archives[0].last > after then [archives[0]] else []) + NewerArchives(archives[1..], after)
  }

  /** Leaving out archives that end at or before the known sequence hides no new message. */
  lemma {:induction false} PruningIsInvisible(archives: seq<CatalogEntry>, current: seq<Record>, f: Record -> bool,
      after: nat)
    requires CatalogBounds(archives)
    ensures Matching(LedgerOf(NewerArchives(archives, after), current), After(f, after))
            == Matching(LedgerOf(archives, current), After(f, after))
  {
    if archives != [] {
      var a, rest := archives[0], archives[1..];
      assert a in archives;
      PruningIsInvisible(rest, current, f, after);
      LedgerFirst(archives, current);
      MatchingAppend(a.records, LedgerOf(rest, current), After(f, after));
      if a.last > after {
        var pruned := NewerArchives(archives, after);
        assert pruned[0] == a && pruned[1..] == NewerArchives(rest, after);
        LedgerFirst(pruned, current);
        MatchingAppend(a.records, LedgerOf(NewerArchives(rest, after), current), After(f, after));
      } else {
        NothingNew(a.records, f, after);
        assert NewerArchives(archives, after) == NewerArchives(rest, after);
      }
    }
  }

  lemma LedgerFirst(archives: seq<CatalogEntry>, current: seq<Record>)
    requires archives != []
    ensures LedgerOf(archives, current) == archives[0].records + LedgerOf(archives[1..], current)
  {
    var files := FilesOf(archives) + [current];
    assert files[0] == archives[0].records;
    assert files[1..] == FilesOf(archives[1..]) + [current];
  }

  /** `conversationMessageWindow`. */
  method ConversationMessageWindow(archives: seq<CatalogEntry>, current: seq<Record>, f: Record -> bool,
      after: Option<nat>, limit: int)
    returns (w: Window)
    requires CatalogBounds(archives) && Layered(FilesOf(archives) + [current])
    ensures w == WindowOf(LedgerOf(archives, current), f, after, if limit < 1 then 1 else limit)
  {
    var size: nat := if limit < 1 then 1 else limit;
    if after.None? {
      w := InitialWindow(FilesOf(archives) + [current], f, size);
    } else {
      PruningIsInvisible(archives, current, f, after.value);
      w := IncrementalWindow(FilesOf(NewerArchives(archives, after.value)) + [current], f, after.value, size);
    }
  }

  /** The whole ledger's window: the last `limit` matches, or of the new ones the first
      ceil(limit / 2) and the last floor(limit / 2). */
  function WindowOf(ledger: seq<Record>, f: Record -> bool, after: Option<nat>, limit: nat): Window {
    match after
    case None =>
      var m := Matching(ledger, f);
      Window(LatestOf(m, 0), |Last(m, limit)|, 0, Last(m, limit))
    case Some(known) =>
      var m := Matching(ledger, After(f, known));
      var entries := Head(m, limit) + Tail(m, limit);
      Window(LatestOf(m, known), |m|, if |m| > |entries| then |m| - |entries| else 0, entries)
  }

  // ---------------------------------------------------------------- what a reader may rely on

  /** The reported index is the last match's sequence, even when reading stopped early. */
  lemma InitialLatestIsTrue(ledger: seq<Record>, f: Record -> bool, limit: nat)
    requires Increasing(ledger)
    ensures forall r <- Matching(ledger, f) :: r.sequence <= WindowOf(ledger, f, None, limit).latest
    ensures Matching(ledger, f) != []
            ==> exists r <- Matching(ledger, f) :: r.sequence == WindowOf(ledger, f, None, limit).latest
  {
    var m := Matching(ledger, f);
    MatchingIncreases(ledger, f);
    if m != [] {
      LatestIsLast(m, 0);
      assert m[|m| - 1] in m;
      forall r | r in m ensures r.sequence <= m[|m| - 1].sequence {
        var i :| 0 <= i < |m| && m[i] == r;
        if i < |m| - 1 {
          IncreasingAt(m, i, |m| - 1);
        }
      }
    }
  }

  /** The record belongs to the conversation and is new to the sender. */
  predicate IsNewMatch(r: Record, ledger: seq<Record>, f: Record -> bool, after: Option<nat>) {
    r in ledger && f(r) && (after.Some? ==> after.value < r.sequence)
  }

  ghost function MatchesFor(ledger: seq<Record>, f: Record -> bool, after: Option<nat>): seq<Record> {
    if after.None? then Matching(ledger, f) else Matching(ledger, After(f, after.value))
  }

  lemma MatchesForIff(ledger: seq<Record>, f: Record -> bool, after: Option<nat>, r: Record)
    ensures r in MatchesFor(ledger, f, after) <==> IsNewMatch(r, ledger, f, after)
  {
    if after.None? {
      MatchingMembers(ledger, f);
      if IsNewMatch(r, ledger, f, after) {
        MatchingHas(ledger, f, r);
      }
    } else {
      MatchingMembers(ledger, After(f, after.value));
      if IsNewMatch(r, ledger, f, after) {
        MatchingHas(ledger, After(f, after.value), r);
      }
    }
  }

  lemma HalvesAreMatches(m: seq<Record>, limit: nat)
    ensures |Head(m, limit) + Tail(m, limit)| <= limit
    ensures forall r <- Head(m, limit) + Tail(m, limit) :: r in m
  {
  }

  /** A window shows nothing but new messages of its conversation, and no more than its limit. */
  lemma WindowShowsMatches(ledger: seq<Record>, f: Record -> bool, after: Option<nat>, limit: nat)
    ensures var w := WindowOf(ledger, f, after, limit);
            |w.entries| <= limit && forall r <- w.entries :: IsNewMatch(r, ledger, f, after)
  {
    HalvesAreMatches(MatchesFor(ledger, f, after), limit);
    forall r | r in WindowOf(ledger, f, after, limit).entries ensures IsNewMatch(r, ledger, f, after) {
      MatchesForIff(ledger, f, after, r);
    }
  }

  /** A first window leaves out only what is older than everything it shows, and only when it is full. */
  lemma FirstWindowIsNewest(ledger: seq<Record>, f: Record -> bool, limit: nat, shown: Record, left: Record)
    requires Increasing(ledger)
    requires var w := WindowOf(ledger, f, None, limit); shown in w.entries && left !in w.entries
    requires left in ledger && f(left)
    ensures left.sequence < shown.sequence && |WindowOf(ledger, f, None, limit).entries| == limit
  {
    var m := Matching(ledger, f);
    MatchingIncreases(ledger, f);
    MatchingHas(ledger, f, left);
    var i, j := LeftIsEarlier(m, limit, left, shown);
    IncreasingAt(m, i, j);
  }

  lemma LeftIsEarlier(m: seq<Record>, limit: nat, left: Record, shown: Record) returns (i: nat, j: nat)
    requires left in m && left !in Last(m, limit) && shown in Last(m, limit)
    ensures i < j < |m| && m[i] == left && m[j] == shown && |Last(m, limit)| == limit
  {
    var from := |m| - |Last(m, limit)|;
    i :| 0 <= i < |m| && m[i] == left;
    var k :| 0 <= k < |Last(m, limit)| && Last(m, limit)[k] == shown;
    j := from + k;
    if from <= i {
      LastAt(m, limit, i);
    }
    LastAt(m, limit, j);
  }

  lemma LastAt(m: seq<Record>, limit: nat, i: nat)
    requires |m| - |Last(m, limit)| <= i < |m|
    ensures m[i] in Last(m, limit) && Last(m, limit)[i - (|m| - |Last(m, limit)|)] == m[i]
  {
    if limit < |m| {
      assert Last(m, limit)[i - (|m| - limit)] == m[i];
    }
  }

  ghost function SetOf(m: seq<Record>): set<Record> { set r | r in m }

  lemma {:induction false} IncreasingCounts(m: seq<Record>)
    requires Increasing(m)
    ensures |SetOf(m)| == |m|
  {
    if m != [] {
      var n := |m| - 1;
      IncreasingCounts(m[..n]);
      assert m == m[..n] + [m[n]];
      assert SetOf(m) == SetOf(m[..n]) + {m[n]};
      forall r | r in m[..n] ensures r != m[n] {
        EarlierIsLess(m, r);
      }
    }
  }

  /** The total counts every new message of the conversation once, and the omitted ones are the
      rest behind those that are shown. */
  lemma TotalIsTrue(ledger: seq<Record>, f: Record -> bool, known: nat, limit: nat)
    requires Increasing(ledger)
    ensures var w := WindowOf(ledger, f, Some(known), limit);
            && w.total == |set r | r in ledger && f(r) && known < r.sequence|
            && w.omitted == w.total - |w.entries|
  {
    var m := Matching(ledger, After(f, known));
    MatchingIncreases(ledger, After(f, known));
    IncreasingCounts(m);
    forall r ensures r in m <==> r in ledger && f(r) && known < r.sequence {
      MatchesForIff(ledger, f, Some(known), r);
    }
    assert SetOf(m) == set r | r in ledger && f(r) && known < r.sequence;
    HalvesAreShort(m, limit);
  }

  lemma HalvesAreShort(m: seq<Record>, limit: nat)
    ensures |Head(m, limit) + Tail(m, limit)| <= |m|
  {
  }

  lemma FirstPart(m: seq<Record>, h: nat, i: nat)
    requires Increasing(m) && h <= |m| && i < |m|
    ensures m[i] in m[..h] <==> i < h
  {
    if i < h {
      assert m[..h][i] == m[i];
    } else if m[i] in m[..h] {
      var k :| 0 <= k < h && m[..h][k] == m[i];
      SequencesOrder(m, k, i);
    }
  }

  lemma LastPart(m: seq<Record>, from: nat, i: nat)
    requires Increasing(m) && from <= |m| && i < |m|
    ensures m[i] in m[from..] <==> from <= i
  {
    if from <= i {
      assert m[from..][i - from] == m[i];
    } else if m[i] in m[from..] {
      var k :| 0 <= k < |m| - from && m[from..][k] == m[i];
      SequencesOrder(m, i, from + k);
    }
  }

  lemma GapIsExact(m: seq<Record>, h: nat, from: nat, i: nat)
    requires Increasing(m) && 0 < h < from < |m| && i < |m|
    ensures m[h - 1].sequence < m[i].sequence < m[from].sequence <==> m[i] !in m[..h] + m[from..]
  {
    FirstPart(m, h, i);
    LastPart(m, from, i);
    SequencesOrder(m, h - 1, i);
    SequencesOrder(m, i, from);
  }

  lemma SequencesOrder(m: seq<Record>, i: nat, j: nat)
    requires Increasing(m) && i < |m| && j < |m|
    ensures m[i].sequence < m[j].sequence <==> i < j
  {
    if i < j {
      IncreasingAt(m, i, j);
    } else if j < i {
      IncreasingAt(m, j, i);
    }
  }

  lemma ShownHalves(m: seq<Record>, limit: nat, entries: seq<Record>)
    requires 2 <= limit && entries == Head(m, limit) + Tail(m, limit) && |m| > |entries|
    ensures var h, from := HeadSize(limit), |m| - TailSize(limit);
            && 0 < h < from < |m| && entries == m[..h] + m[from..] && |entries| == limit
            && entries[h - 1] == m[h - 1] && entries[h] == m[from]
  {
    FullHalves(m, limit);
  }

  lemma GapOfHalves(m: seq<Record>, limit: nat, entries: seq<Record>, r: Record)
    requires Increasing(m) && 2 <= limit && entries == Head(m, limit) + Tail(m, limit) && |m| > |entries| && r in m
    ensures var half := HeadSize(|entries|);
            && |entries| == limit && 0 < half < |entries|
            && (entries[half - 1].sequence < r.sequence <= entries[half].sequence - 1 <==> r !in entries)
  {
    var h, from := HeadSize(limit), |m| - TailSize(limit);
    ShownHalves(m, limit, entries);
    var i :| 0 <= i < |m| && m[i] == r;
    GapIsExact(m, h, from, i);
    GapBetween(m, h, from, entries, r);
  }

  lemma GapBetween(m: seq<Record>, h: nat, from: nat, entries: seq<Record>, r: Record)
    requires 0 < h < from < |m| && h < |entries| && entries == m[..h] + m[from..]
    requires m[h - 1].sequence < r.sequence < m[from].sequence <==> r !in m[..h] + m[from..]
    ensures entries[h - 1].sequence < r.sequence <= entries[h].sequence - 1 <==> r !in entries
  {
  }

  /** With a limit of at least two, what is shown and the gap between the halves: the gap's
      reported bounds select exactly the new matches that are not shown. */
  lemma OmittedRangeIsExact(ledger: seq<Record>, f: Record -> bool, known: nat, limit: nat, r: Record)
    requires Increasing(ledger) && 2 <= limit && r in Matching(ledger, After(f, known))
    requires WindowOf(ledger, f, Some(known), limit).omitted > 0
    ensures var entries := WindowOf(ledger, f, Some(known), limit).entries;
            var half := (|entries| + 1) / 2;
            && |entries| == limit && 0 < half < |entries|
            && (entries[half - 1].sequence < r.sequence <= entries[half].sequence - 1 <==> r !in entries)
  {
    MatchingIncreases(ledger, After(f, known));
    GapOfHalves(Matching(ledger, After(f, known)), limit, WindowOf(ledger, f, Some(known), limit).entries, r);
  }

  /** The first half of a full window, rounded up, holds the oldest new matches, the second half the
      newest. */
  lemma HalvesAreEnds(ledger: seq<Record>, f: Record -> bool, known: nat, limit: nat)
    requires |Matching(ledger, After(f, known))| > limit
    ensures var m, entries := Matching(ledger, After(f, known)), WindowOf(ledger, f, Some(known), limit).entries;
            var first, last := (limit + 1) / 2, limit / 2;
            entries == m[..first] + m[|m| - last..]
  {
    FullHalves(Matching(ledger, After(f, known)), limit);
  }

  lemma FullHalves(m: seq<Record>, limit: nat)
    requires limit < |m|
    ensures Head(m, limit) + Tail(m, limit) == m[..(limit + 1) / 2] + m[|m| - limit / 2..]
  {
    var h, t := HeadSize(limit), TailSize(limit);
    CutTwice(m, h, |m| - h - t);
  }

  lemma CutTwice<T>(m: seq<T>, h: nat, k: nat)
    requires h + k <= |m|
    ensures m[h..][k..] == m[h + k..]
  {
  }

  /** The reported index is that of the newest match, or the known one when there is no new match. */
  lemma LatestIsTrue(ledger: seq<Record>, f: Record -> bool, known: nat, limit: nat)
    requires Increasing(ledger)
    ensures var m, latest := Matching(ledger, After(f, known)), WindowOf(ledger, f, Some(known), limit).latest;
            && (m == [] ==> latest == known)
            && (m != [] ==> latest == m[|m| - 1].sequence && known < latest)
            && forall r <- ledger :: f(r) ==> r.sequence <= latest
  {
    var m := Matching(ledger, After(f, known));
    MatchingIncreases(ledger, After(f, known));
    LatestBounds(m, known);
    if m != [] {
      LatestIsLast(m, known);
      MatchesForIff(ledger, f, Some(known), m[|m| - 1]);
    }
    forall r | r in ledger && f(r) && known < r.sequence ensures r in m {
      MatchesForIff(ledger, f, Some(known), r);
    }
  }

  /** A first window counts what it shows. */
  lemma FirstWindowCounts(ledger: seq<Record>, f: Record -> bool, limit: nat)
    ensures var w := WindowOf(ledger, f, None, limit);
            w.total == |w.entries| && w.omitted == 0
  {
  }

  /** Up to the limit, every new match is shown and nothing is reported as omitted. */
  lemma NothingIsOmitted(ledger: seq<Record>, f: Record -> bool, known: nat, limit: nat)
    requires |Matching(ledger, After(f, known))| <= limit
    ensures var w := WindowOf(ledger, f, Some(known), limit);
            w.omitted == 0 && w.entries == Matching(ledger, After(f, known))
  {
    var m := Matching(ledger, After(f, known));
    if |m| > HeadSize(limit) {
      assert Tail(m, limit) == m[HeadSize(limit)..];
    }
  }

  /** With a limit of one there is no record behind the gap, so its end cannot be reported. */
  lemma LimitOneHasNoUpperBound(ledger: seq<Record>, f: Record -> bool, known: nat)
    requires |Matching(ledger, After(f, known))| >= 2
    ensures var w := WindowOf(ledger, f, Some(known), 1);
            w.omitted > 0 && (|w.entries| + 1) / 2 == |w.entries|
  {
  }
}
