/** The ledger on disk: range-named archive files, a current file and a catalog, changed by one
    atomic file write at a time. */
module LedgerFiles {
  import opened Records
  import opened FirstWrite
  import opened ArchiveRanges
  import opened TextOrder
  import opened Decimals

  /** The archive file for the sequences `first` to `last`. */
  function Named(first: int, last: int): Range
    requires 0 <= first && 0 <= last
  {
    Range(Digits(first) + "~" + Digits(last) + ".jsonl", first, last)
  }

  predicate IsNamed(x: Range) {
    0 <= x.first && 0 <= x.last && x == Named(x.first, x.last)
  }

  datatype Catalog = Catalog(nextSequence: nat, archives: seq<Range>)

  datatype Disk = Disk(archives: map<Range, seq<Record>>, current: seq<Record>, catalog: Catalog)

  // ---------------------------------------------------------------- the archive inventory

  /** Files on disk that the catalog neither names nor contains. */
  function Unknown(known: seq<Range>, listing: seq<Range>): (r: seq<Range>)
    ensures forall x :: x in r <==> x in listing && x !in known && forall k <- known :: !Contains(k, x)
  {
    if listing == [] then []
    else
      var x := listing[|listing| - 1];
      assert listing == listing[..|listing| - 1] + [x];
      Unknown(known, listing[..|listing| - 1])
      + if x !in known && forall k <- known :: !Contains(k, x) then [x] else []
  }

  ghost function SortArchives(items: seq<Range>): seq<Range> {
    SortRanges(KeepMaximal(items, items))
  }

  /** `readArchiveIndex`: the catalogued archives and the discovered ones, compacted and sorted. */
  ghost function Inventory(known: seq<Range>, listing: seq<Range>): seq<Range> {
    var unknown := Unknown(known, listing);
    SortArchives(known + KeepMaximal(unknown, unknown))
  }

  ghost predicate NoRepeats(s: seq<Range>) {
    forall x <- s :: multiset(s)[x] == 1
  }

  ghost predicate Ascending(s: seq<Range>) {
    var n := |s| - 1;
    n < 1 || (Ascending(s[..n]) && s[n - 1].first < s[n].first && s[n - 1].last < s[n].last)
  }

  lemma {:induction false} AscendingFromPairs(s: seq<Range>)
    requires forall i, j :: 0 <= i < j < |s| ==> s[i].first < s[j].first && s[i].last < s[j].last
    ensures Ascending(s)
  {
    if |s| > 1 {
      AscendingFromPairs(s[..|s| - 1]);
    }
  }

  lemma {:induction false} KeepMaximalCounts(s: seq<Range>, items: seq<Range>)
    ensures multiset(KeepMaximal(s, items)) <= multiset(s)
  {
    if s != [] {
      KeepMaximalCounts(s[..|s| - 1], items);
      assert s == s[..|s| - 1] + [s[|s| - 1]];
    }
  }

  lemma {:induction false} UnknownCounts(known: seq<Range>, listing: seq<Range>)
    ensures multiset(Unknown(known, listing)) <= multiset(listing)
  {
    if listing != [] {
      UnknownCounts(known, listing[..|listing| - 1]);
      assert listing == listing[..|listing| - 1] + [listing[|listing| - 1]];
    }
  }

  lemma NoRepeatsDistinct(s: seq<Range>, i: nat, j: nat)
    requires NoRepeats(s) && i < j < |s|
    ensures s[i] != s[j]
  {
    var x := s[i];
    assert s == s[..j] + s[j..] && s[..j][i] == x && s[j..][0] == s[j];
    assert x in multiset(s[..j]) && s[j] in multiset(s[j..]);
    assert multiset(s)[x] == multiset(s[..j])[x] + multiset(s[j..])[x];
  }

  lemma FewerHaveNoRepeats(s: seq<Range>, items: seq<Range>)
    requires NoRepeats(items) && multiset(s) <= multiset(items)
    ensures NoRepeats(s)
  {
    forall x | x in s ensures multiset(s)[x] == 1 {
      assert x in multiset(s) && x in multiset(items);
      assert x in items;
    }
  }

  lemma SortArchivesElements(items: seq<Range>)
    ensures forall x :: x in SortArchives(items) <==> x in items && Maximal(items, x)
    ensures NoRepeats(items) ==> NoRepeats(SortArchives(items))
  {
    SortRangesSorts(KeepMaximal(items, items));
    KeptIffMaximal(items, items);
    KeepMaximalCounts(items, items);
    if NoRepeats(items) {
      FewerHaveNoRepeats(SortArchives(items), items);
    }
  }

  lemma SortArchivesAscend(items: seq<Range>)
    requires NoRepeats(items)
    ensures Ascending(SortArchives(items))
  {
    var kept := KeepMaximal(items, items);
    var s := SortRanges(kept);
    SortRangesSorts(kept);
    SortArchivesElements(items);
    forall i, j | 0 <= i < j < |s| ensures s[i].first < s[j].first && s[i].last < s[j].last {
      NoRepeatsDistinct(s, i, j);
      assert s[i] in kept && s[j] in kept;
      KeptRangesAreStaircase(items, s[i], s[j]);
      assert Precedes(s[i], s[j]);
    }
    AscendingFromPairs(s);
  }

  /** A dominated range may be left out without changing which ranges are maximal. */
  lemma MaximalThroughContainers(few: seq<Range>, all: seq<Range>)
    requires forall x <- few :: x in all
    requires forall x <- all :: Maximal(all, x) ==> x in few
    ensures forall x :: (x in few && Maximal(few, x)) <==> (x in all && Maximal(all, x))
  {
    forall x | x in few && Maximal(few, x) ensures Maximal(all, x) {
      if !Maximal(all, x) {
        var y :| y in all && Dominates(y, x);
        var top := KeptContainer(all, y, all);
        if top != y {
          DominatesTransitive(top, y, x);
        }
      }
    }
  }

  /** When every catalogued archive exists, the inventory is the maximal files in order. */
  lemma InventoryIsMaximalFiles(known: seq<Range>, listing: seq<Range>)
    requires NoRepeats(known) && NoRepeats(listing)
    requires forall x <- known :: x in listing
    requires forall x <- listing :: IsNamed(x)
    ensures Ascending(Inventory(known, listing))
    ensures forall x :: x in Inventory(known, listing) <==> x in listing && Maximal(listing, x)
  {
    var unknown := Unknown(known, listing);
    var discovered := KeepMaximal(unknown, unknown);
    var few := known + discovered;
    KeptIffMaximal(unknown, unknown);
    forall x | x in listing && Maximal(listing, x) ensures x in few {
      if x !in known {
        forall k | k in known ensures !Contains(k, x) {
          assert !Dominates(k, x);
        }
        assert x in unknown && Maximal(unknown, x);
      }
    }
    MaximalThroughContainers(few, listing);
    KeepMaximalCounts(unknown, unknown);
    UnknownCounts(known, listing);
    FewerHaveNoRepeats(discovered, listing);
    forall x | x in few ensures multiset(few)[x] == 1 {
      assert x in known <==> x in multiset(known);
      assert x in discovered <==> x in multiset(discovered);
    }
    SortArchivesElements(few);
    SortArchivesAscend(few);
  }

  // ---------------------------------------------------------------- slices of a ledger

  /** Sequences grow from 1 and no key is written twice. */
  ghost predicate Growing(ledger: seq<Record>) {
    var n := |ledger| - 1;
    n < 0 || (
      && Growing(ledger[..n])
      && ledger[n].key !in Keys(ledger[..n])
      && 1 <= ledger[n].sequence
      && (0 < n ==> ledger[n - 1].sequence < ledger[n].sequence))
  }

  lemma {:induction false} GrowingAt(ledger: seq<Record>, i: nat, j: nat)
    requires Growing(ledger) && i <= j < |ledger|
    ensures i < j ==> ledger[i].sequence < ledger[j].sequence
    ensures 1 <= ledger[j].sequence && ledger[j].key !in Keys(ledger[..j])
    decreases |ledger|
  {
    var n := |ledger| - 1;
    if j < n {
      GrowingAt(ledger[..n], i, j);
      assert ledger[..n][..j] == ledger[..j];
    } else if i < n {
      GrowingAt(ledger[..n], i, n - 1);
    }
  }

  type Span = (nat, nat)

  ghost function End(spans: seq<Span>): nat {
    if spans == [] then 0 else spans[|spans| - 1].1
  }

  /** Each span starts no later than the ones before it end. */
  ghost predicate Contiguous(spans: seq<Span>, length: nat) {
    var n := |spans| - 1;
    n < 0 || (Contiguous(spans[..n], length) && spans[n].0 <= End(spans[..n]) <= spans[n].1 <= length)
  }

  ghost function Slices(ledger: seq<Record>, spans: seq<Span>): seq<Record> {
    var n := |spans| - 1;
    if n < 0 then []
    else Slices(ledger, spans[..n])
         + if spans[n].0 <= spans[n].1 <= |ledger| then ledger[spans[n].0..spans[n].1] else []
  }

  lemma DedupeExtendsByOne(t: seq<Record>, ledger: seq<Record>, m: nat, k: nat)
    requires k <= m <= |ledger| && k < |ledger| && Dedupe(t) == ledger[..m]
    requires ledger[k].key in Keys(ledger[..m]) <==> k < m
    ensures Dedupe(t + [ledger[k]]) == ledger[..if k < m then m else m + 1]
  {
    DedupeAppendOne(t, ledger[k]);
    DedupeKeepsKeys(t);
  }

  lemma PrefixOwnsKey(ledger: seq<Record>, m: nat, k: nat)
    requires Growing(ledger) && k <= m <= |ledger| && k < |ledger|
    ensures ledger[k].key in Keys(ledger[..m]) <==> k < m
  {
    GrowingAt(ledger, k, k);
    if k < m {
      assert ledger[..m][k] in ledger[..m];
    }
  }

  lemma SliceFirst(s: seq<Record>, ledger: seq<Record>, i: nat, j: nat)
    requires i < j <= |ledger|
    ensures s + ledger[i..j] == (s + [ledger[i]]) + ledger[i + 1..j]
  {
  }

  /** Appending a ledger slice that starts inside what is there extends it to the slice's end. */
  lemma {:induction false} DedupeExtends(s: seq<Record>, ledger: seq<Record>, e: nat, i: nat, j: nat,
      joined: seq<Record>)
    requires Growing(ledger) && i <= j <= |ledger| && i <= e <= |ledger|
    requires Dedupe(s) == ledger[..e] && joined == s + ledger[i..j]
    ensures Dedupe(joined) == ledger[..if e < j then j else e]
    decreases j - i
  {
    if i == j {
      assert joined == s;
    } else {
      PrefixOwnsKey(ledger, e, i);
      DedupeExtendsByOne(s, ledger, e, i);
      SliceFirst(s, ledger, i, j);
      DedupeExtends(s + [ledger[i]], ledger, if i < e then e else e + 1, i + 1, j, joined);
    }
  }

  lemma {:induction false} SlicesDedupe(ledger: seq<Record>, spans: seq<Span>, length: nat)
    requires Growing(ledger) && Contiguous(spans, length) && length <= |ledger|
    ensures End(spans) <= |ledger| && Dedupe(Slices(ledger, spans)) == ledger[..End(spans)]
  {
    var n := |spans| - 1;
    if n >= 0 {
      SlicesDedupe(ledger, spans[..n], length);
      DedupeExtends(Slices(ledger, spans[..n]), ledger, End(spans[..n]), spans[n].0, spans[n].1, Slices(ledger, spans));
    }
  }

  ghost predicate AscendingSpans(spans: seq<Span>) {
    var n := |spans| - 1;
    n < 0 || (
      && AscendingSpans(spans[..n])
      && spans[n].0 < spans[n].1
      && (0 < n ==> spans[n - 1].0 < spans[n].0 && spans[n - 1].1 < spans[n].1))
  }

  predicate InSpan(spans: seq<Span>, m: int, p: nat) {
    0 <= m < |spans| && spans[m].0 <= p < spans[m].1
  }

  ghost predicate Reached(spans: seq<Span>, p: nat) {
    exists m :: InSpan(spans, m, p)
  }

  lemma {:induction false} AscendingSpansAt(spans: seq<Span>, i: nat, j: nat)
    requires AscendingSpans(spans) && i <= j < |spans|
    ensures spans[i].0 <= spans[j].0 && spans[i].1 <= spans[j].1 && spans[i].0 < spans[i].1
    decreases |spans|
  {
    var n := |spans| - 1;
    if j < n {
      AscendingSpansAt(spans[..n], i, j);
    } else if i < n {
      AscendingSpansAt(spans[..n], i, n - 1);
    }
  }

  /** Ascending spans that reach every position below `covered` leave no gap. */
  lemma {:induction false} ReachedMeansContiguous(spans: seq<Span>, covered: nat, n: nat)
    requires AscendingSpans(spans) && n <= |spans|
    requires forall p: nat :: p < covered ==> Reached(spans, p)
    requires forall m :: 0 <= m < |spans| ==> spans[m].1 <= covered
    ensures Contiguous(spans[..n], covered)
    decreases n
  {
    if n > 0 {
      ReachedMeansContiguous(spans, covered, n - 1);
      assert spans[..n][..n - 1] == spans[..n - 1];
      var e := End(spans[..n - 1]);
      AscendingSpansAt(spans, n - 1, n - 1);
      if n > 1 {
        AscendingSpansAt(spans, n - 2, n - 1);
      }
      AscendingStrict(spans, n - 1);
      assert Reached(spans, e);
      var m :| InSpan(spans, m, e);
      if m < n - 1 {
        AscendingSpansAt(spans, m, n - 2);
      } else {
        AscendingSpansAt(spans, n - 1, m);
      }
    }
  }

  lemma {:induction false} AscendingStrict(spans: seq<Span>, j: nat)
    requires AscendingSpans(spans) && j < |spans|
    ensures 0 < j ==> spans[j - 1].1 < spans[j].1
    decreases |spans|
  {
    var n := |spans| - 1;
    if j < n {
      AscendingStrict(spans[..n], j);
    }
  }

  lemma ReachedToTheEnd(spans: seq<Span>, covered: nat)
    requires AscendingSpans(spans)
    requires forall p: nat :: p < covered ==> Reached(spans, p)
    requires forall m :: 0 <= m < |spans| ==> spans[m].1 <= covered
    ensures End(spans) == covered
  {
    if covered > 0 {
      assert Reached(spans, covered - 1);
      var m :| InSpan(spans, m, covered - 1);
      AscendingSpansAt(spans, m, |spans| - 1);
    }
  }

  // ---------------------------------------------------------------- what a disk stores

  /** Which part of the ledger each file holds: `archives[x] == ledger[at[x].0..at[x].1]`. The
      archives together hold the first `covered` records, the current file those from `kept` on;
      after a crash between two writes they may overlap. */
  datatype Shape = Shape(at: map<Range, Span>, covered: nat, kept: nat)

  predicate HoldsPosition(sh: Shape, x: Range, p: nat) {
    x in sh.at && sh.at[x].0 <= p < sh.at[x].1
  }

  ghost predicate Archived(sh: Shape, p: nat) {
    exists x :: HoldsPosition(sh, x, p)
  }

  ghost predicate AllArchived(sh: Shape) {
    forall p: nat :: p < sh.covered ==> Archived(sh, p)
  }

  ghost predicate FileGood(ledger: seq<Record>, sh: Shape, x: Range, content: seq<Record>) {
    && x in sh.at
    && var i, j := sh.at[x].0, sh.at[x].1;
       && i < j <= sh.covered <= |ledger|
       && content == ledger[i..j]
       && x.first == ledger[i].sequence && x.last == ledger[j - 1].sequence
  }

  ghost predicate CatalogGood(d: Disk) {
    NoRepeats(d.catalog.archives) && forall x <- d.catalog.archives :: x in d.archives
  }

  ghost predicate FilesGood(archives: map<Range, seq<Record>>, ledger: seq<Record>, sh: Shape) {
    && sh.at.Keys == archives.Keys
    && forall x <- archives :: FileGood(ledger, sh, x, archives[x])
  }

  /** The disk stores exactly `ledger`. */
  ghost predicate Stores(d: Disk, ledger: seq<Record>, sh: Shape) {
    && Growing(ledger)
    && sh.kept <= sh.covered <= |ledger|
    && d.current == ledger[sh.kept..]
    && FilesGood(d.archives, ledger, sh)
    && AllArchived(sh)
    && (forall x <- d.archives :: IsNamed(x))
    && CatalogGood(d)
  }

  /** The directory listing, in any order. */
  ghost predicate Lists(listing: seq<Range>, archives: map<Range, seq<Record>>) {
    NoRepeats(listing) && forall x :: x in listing <==> x in archives
  }

  ghost function Concat(archives: map<Range, seq<Record>>, files: seq<Range>): seq<Record>
    requires forall x <- files :: x in archives
  {
    if files == [] then []
    else Concat(archives, files[..|files| - 1]) + archives[files[|files| - 1]]
  }

  /** `files` are the ascending maximal files. */
  ghost predicate CataloguedAs(files: seq<Range>, listing: seq<Range>) {
    Ascending(files) && forall x :: x in files <==> x in listing && Maximal(listing, x)
  }

  /** In a growing ledger, range containment is containment of positions. */
  lemma ContainmentIsPositional(ledger: seq<Record>, sh: Shape, x: Range, cx: seq<Record>, y: Range, cy: seq<Record>)
    requires Growing(ledger) && FileGood(ledger, sh, x, cx) && FileGood(ledger, sh, y, cy)
    ensures Contains(x, y) <==> sh.at[x].0 <= sh.at[y].0 && sh.at[y].1 <= sh.at[x].1
    ensures x.first < y.first <==> sh.at[x].0 < sh.at[y].0
    ensures x.last < y.last <==> sh.at[x].1 < sh.at[y].1
  {
    var a, b, c, d := sh.at[x].0, sh.at[x].1 - 1, sh.at[y].0, sh.at[y].1 - 1;
    assert x.first == ledger[a].sequence && x.last == ledger[b].sequence;
    assert y.first == ledger[c].sequence && y.last == ledger[d].sequence;
    SequenceOrder(ledger, a, c);
    SequenceOrder(ledger, b, d);
  }

  lemma SequenceOrder(ledger: seq<Record>, i: nat, j: nat)
    requires Growing(ledger) && i < |ledger| && j < |ledger|
    ensures ledger[i].sequence < ledger[j].sequence <==> i < j
    ensures ledger[i].sequence == ledger[j].sequence <==> i == j
  {
    if i < j {
      GrowingAt(ledger, i, j);
    } else if j < i {
      GrowingAt(ledger, j, i);
    }
  }

  /** Some catalogued file holds each archived position. */
  lemma CataloguedHolds(archives: map<Range, seq<Record>>, ledger: seq<Record>, sh: Shape, listing: seq<Range>,
      files: seq<Range>, p: nat)
    returns (x: Range)
    requires Growing(ledger) && FilesGood(archives, ledger, sh) && Archived(sh, p)
    requires Lists(listing, archives) && CataloguedAs(files, listing)
    ensures x in files && HoldsPosition(sh, x, p)
  {
    var y :| HoldsPosition(sh, y, p);
    x := KeptContainer(listing, y, listing);
    ContainmentIsPositional(ledger, sh, x, archives[x], y, archives[y]);
  }

  ghost function SpansOf(sh: Shape, files: seq<Range>): (spans: seq<Span>)
    requires forall x <- files :: x in sh.at
    ensures |spans| == |files|
  {
    if files == [] then [] else SpansOf(sh, files[..|files| - 1]) + [sh.at[files[|files| - 1]]]
  }

  lemma {:induction false} SpansOfAt(sh: Shape, files: seq<Range>, n: nat)
    requires (forall x <- files :: x in sh.at) && n < |files|
    ensures SpansOf(sh, files)[n] == sh.at[files[n]]
  {
    if n < |files| - 1 {
      SpansOfAt(sh, files[..|files| - 1], n);
    }
  }

  lemma {:induction false} CataloguedSpansAscend(archives: map<Range, seq<Record>>, ledger: seq<Record>, sh: Shape,
      files: seq<Range>)
    requires Growing(ledger) && FilesGood(archives, ledger, sh)
    requires Ascending(files) && forall x <- files :: x in archives
    ensures forall x <- files :: x in sh.at
    ensures AscendingSpans(SpansOf(sh, files))
  {
    if files != [] {
      var n := |files| - 1;
      var x := files[n];
      CataloguedSpansAscend(archives, ledger, sh, files[..n]);
      var spans := SpansOf(sh, files);
      assert spans == SpansOf(sh, files[..n]) + [sh.at[x]];
      assert FileGood(ledger, sh, x, archives[x]);
      if n > 0 {
        SpansOfAt(sh, files[..n], n - 1);
        ContainmentIsPositional(ledger, sh, files[n - 1], archives[files[n - 1]], x, archives[x]);
      }
      assert spans[..n] == SpansOf(sh, files[..n]);
    }
  }

  lemma CataloguedBounds(archives: map<Range, seq<Record>>, ledger: seq<Record>, sh: Shape, files: seq<Range>)
    requires FilesGood(archives, ledger, sh)
    requires forall x <- files :: x in archives
    ensures forall m :: 0 <= m < |files| ==> SpansOf(sh, files)[m].1 <= sh.covered
  {
    forall m | 0 <= m < |files| ensures SpansOf(sh, files)[m].1 <= sh.covered {
      SpansOfAt(sh, files, m);
      assert FileGood(ledger, sh, files[m], archives[files[m]]);
    }
  }

  lemma {:induction false} ConcatIsSlices(archives: map<Range, seq<Record>>, ledger: seq<Record>, sh: Shape,
      files: seq<Range>)
    requires FilesGood(archives, ledger, sh)
    requires forall x <- files :: x in archives
    ensures Concat(archives, files) == Slices(ledger, SpansOf(sh, files))
  {
    if files != [] {
      var n := |files| - 1;
      ConcatIsSlices(archives, ledger, sh, files[..n]);
      assert FileGood(ledger, sh, files[n], archives[files[n]]);
      assert SpansOf(sh, files)[..n] == SpansOf(sh, files[..n]);
    }
  }

  lemma CataloguedReach(archives: map<Range, seq<Record>>, ledger: seq<Record>, sh: Shape, listing: seq<Range>,
      files: seq<Range>, p: nat)
    requires Growing(ledger) && FilesGood(archives, ledger, sh) && Archived(sh, p)
    requires Lists(listing, archives) && CataloguedAs(files, listing)
    ensures forall x <- files :: x in sh.at
    ensures Reached(SpansOf(sh, files), p)
  {
    var x := CataloguedHolds(archives, ledger, sh, listing, files, p);
    var m :| 0 <= m < |files| && files[m] == x;
    SpansOfAt(sh, files, m);
    assert InSpan(SpansOf(sh, files), m, p);
  }

  lemma CataloguedReachAll(archives: map<Range, seq<Record>>, ledger: seq<Record>, sh: Shape, listing: seq<Range>,
      files: seq<Range>)
    requires Growing(ledger) && FilesGood(archives, ledger, sh) && AllArchived(sh)
    requires Lists(listing, archives) && CataloguedAs(files, listing)
    requires forall x <- files :: x in sh.at
    ensures forall p: nat :: p < sh.covered ==> Reached(SpansOf(sh, files), p)
  {
    forall p: nat | p < sh.covered ensures Reached(SpansOf(sh, files), p) {
      CataloguedReach(archives, ledger, sh, listing, files, p);
    }
  }

  lemma GaplessSpans(spans: seq<Span>, covered: nat)
    requires AscendingSpans(spans)
    requires forall p: nat :: p < covered ==> Reached(spans, p)
    requires forall m :: 0 <= m < |spans| ==> spans[m].1 <= covered
    ensures Contiguous(spans, covered) && End(spans) == covered
  {
    ReachedMeansContiguous(spans, covered, |spans|);
    ReachedToTheEnd(spans, covered);
    assert spans[..|spans|] == spans;
  }

  lemma CatalogLeavesNoGap(archives: map<Range, seq<Record>>, ledger: seq<Record>, sh: Shape, listing: seq<Range>,
      files: seq<Range>)
    requires Growing(ledger) && FilesGood(archives, ledger, sh) && AllArchived(sh)
    requires Lists(listing, archives) && CataloguedAs(files, listing)
    ensures forall x <- files :: x in sh.at && x in archives
    ensures Contiguous(SpansOf(sh, files), sh.covered) && End(SpansOf(sh, files)) == sh.covered
  {
    CataloguedSpansAscend(archives, ledger, sh, files);
    CataloguedBounds(archives, ledger, sh, files);
    CataloguedReachAll(archives, ledger, sh, listing, files);
    GaplessSpans(SpansOf(sh, files), sh.covered);
  }

  /** The catalogued archives, read in order, hold exactly the archived part of the ledger. */
  lemma CatalogReadsAsPrefix(archives: map<Range, seq<Record>>, ledger: seq<Record>, sh: Shape, listing: seq<Range>,
      files: seq<Range>)
    requires Growing(ledger) && FilesGood(archives, ledger, sh) && AllArchived(sh) && sh.covered <= |ledger|
    requires Lists(listing, archives) && CataloguedAs(files, listing)
    ensures forall x <- files :: x in archives
    ensures Dedupe(Concat(archives, files)) == ledger[..sh.covered]
  {
    CatalogLeavesNoGap(archives, ledger, sh, listing, files);
    ConcatIsSlices(archives, ledger, sh, files);
    SlicesDedupe(ledger, SpansOf(sh, files), sh.covered);
  }

  lemma CurrentExtendsArchives(archived: seq<Record>, ledger: seq<Record>, covered: nat, kept: nat,
      current: seq<Record>)
    requires Growing(ledger) && kept <= covered <= |ledger| && current == ledger[kept..]
    requires Dedupe(archived) == ledger[..covered]
    ensures Dedupe(archived + current) == ledger
  {
    assert ledger[kept..|ledger|] == current;
    DedupeExtends(archived, ledger, covered, kept, |ledger|, archived + current);
    assert ledger[..|ledger|] == ledger;
  }

  /** Archives in catalog order, then the current file: first writes give back the ledger. */
  lemma DiskReadsAsLedger(d: Disk, ledger: seq<Record>, sh: Shape, listing: seq<Range>, files: seq<Range>)
    requires Stores(d, ledger, sh) && Lists(listing, d.archives) && CataloguedAs(files, listing)
    ensures forall x <- files :: x in d.archives
    ensures Dedupe(Concat(d.archives, files) + d.current) == ledger
  {
    CatalogReadsAsPrefix(d.archives, ledger, sh, listing, files);
    CurrentExtendsArchives(Concat(d.archives, files), ledger, sh.covered, sh.kept, d.current);
  }
}
