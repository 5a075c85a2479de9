/** What the send check sees of a stored ledger: it reads the catalog on disk, without looking
    for archives that the catalog does not name, and without leaving out second copies. */
module LedgerWindow {
  import opened Records
  import opened FirstWrite
  import opened ArchiveRanges
  import opened LedgerFiles
  import opened LedgerAppend
  import opened LedgerCrash
  import opened LedgerNumbers
  import opened ConversationWindow

  /** The archives that the catalog on disk names, as `conversationMessageWindow` orders them. */
  ghost function Catalogued(d: Disk): seq<Range> {
    SortArchives(d.catalog.archives)
  }

  ghost predicate CatalogExists(d: Disk) {
    forall x <- Catalogued(d) :: x in d.archives
  }

  /** The records that the window is taken from. */
  ghost function Seen(d: Disk): seq<Record>
    requires CatalogExists(d)
  {
    Concat(d.archives, Catalogued(d)) + d.current
  }

  // ---------------------------------------------------------------- tiled spans

  /** Each span starts exactly where the one before it ends, the first at zero. */
  ghost predicate Tiled(spans: seq<Span>) {
    var n := |spans| - 1;
    n < 0 || (Tiled(spans[..n]) && spans[n].0 == End(spans[..n]))
  }

  ghost predicate Inside(spans: seq<Span>, length: nat) {
    forall m :: 0 <= m < |spans| ==> spans[m].0 < spans[m].1 <= length
  }

  lemma SlicesStep(ledger: seq<Record>, spans: seq<Span>)
    requires spans != [] && Inside(spans, |ledger|)
    ensures var n := |spans| - 1;
            && Slices(ledger, spans) == Slices(ledger, spans[..n]) + ledger[spans[n].0..spans[n].1]
            && End(spans) == spans[n].1
  {
  }

  lemma Adjoining(ledger: seq<Record>, i: nat, j: nat)
    requires i <= j <= |ledger|
    ensures ledger[..i] + ledger[i..j] == ledger[..j]
  {
  }

  lemma {:induction false} TiledSlices(ledger: seq<Record>, spans: seq<Span>)
    requires Inside(spans, |ledger|) && Tiled(spans)
    ensures End(spans) <= |ledger| && Slices(ledger, spans) == ledger[..End(spans)]
  {
    var n := |spans| - 1;
    if n >= 0 {
      TiledSlices(ledger, spans[..n]);
      SlicesStep(ledger, spans);
      Adjoining(ledger, spans[n].0, spans[n].1);
    }
  }

  lemma SliceInPlace(ledger: seq<Record>, e: nat, i: nat, j: nat, m: nat)
    requires Growing(ledger) && i < j <= |ledger| && e <= m <= |ledger|
    requires ledger[..e] + ledger[i..j] == ledger[..m]
    ensures i == e && j == m
  {
    assert |ledger[..e] + ledger[i..j]| == e + (j - i);
    assert (ledger[..e] + ledger[i..j])[e] == ledger[i];
    assert ledger[..m][e] == ledger[e];
    SequenceOrder(ledger, i, e);
  }

  lemma {:induction false} PrefixSlicesAreTiled(ledger: seq<Record>, spans: seq<Span>, m: nat)
    requires Growing(ledger) && Inside(spans, |ledger|) && m <= |ledger| && Slices(ledger, spans) == ledger[..m]
    ensures Tiled(spans) && End(spans) == m
  {
    var n := |spans| - 1;
    if n >= 0 {
      var e := |Slices(ledger, spans[..n])|;
      assert Slices(ledger, spans[..n]) == Slices(ledger, spans)[..e] == ledger[..e];
      PrefixSlicesAreTiled(ledger, spans[..n], e);
      SliceInPlace(ledger, e, spans[n].0, spans[n].1, m);
    }
  }

  // ---------------------------------------------------------------- when the window sees the ledger

  /** Each range starts with the number behind the range before it, the first one with 1. */
  predicate Consecutive(files: seq<Range>) {
    var n := |files| - 1;
    n < 0 || (Consecutive(files[..n]) && files[n].first == LastNumber(files[..n]) + 1)
  }

  function LastNumber(files: seq<Range>): int {
    if files == [] then 0 else files[|files| - 1].last
  }

  /** The first number that is not archived: that of the current file's first line, or the next
      one to be given out. */
  ghost function FirstCurrent(d: Disk, listing: seq<Range>): int {
    if d.current != [] then d.current[0].sequence else NextSequence(d, Inventory(d.catalog.archives, listing))
  }

  /** Told by file names and one line of the current file: the catalogued ranges follow each other
      without gap or overlap, from 1 to the current file. */
  ghost predicate CatalogIsWhole(d: Disk, listing: seq<Range>) {
    Consecutive(Catalogued(d)) && LastNumber(Catalogued(d)) + 1 == FirstCurrent(d, listing)
  }

  lemma CataloguedFilesExist(d: Disk, ledger: seq<Record>, sh: Shape)
    requires Stores(d, ledger, sh)
    ensures CatalogExists(d) && forall x <- Catalogued(d) :: x in sh.at
  {
    SortArchivesElements(d.catalog.archives);
  }

  lemma SpansAreInside(archives: map<Range, seq<Record>>, ledger: seq<Record>, sh: Shape, files: seq<Range>)
    requires FilesGood(archives, ledger, sh) && forall x <- files :: x in archives
    ensures Inside(SpansOf(sh, files), |ledger|)
  {
    forall m | 0 <= m < |files| ensures SpansOf(sh, files)[m].0 < SpansOf(sh, files)[m].1 <= |ledger| {
      SpansOfAt(sh, files, m);
      assert FileGood(ledger, sh, files[m], archives[files[m]]);
    }
  }

  lemma JoinedIsLedgerIff(ledger: seq<Record>, spans: seq<Span>, kept: nat)
    requires Growing(ledger) && Inside(spans, |ledger|) && kept <= |ledger|
    ensures Slices(ledger, spans) + ledger[kept..] == ledger <==> Tiled(spans) && End(spans) == kept
  {
    if Slices(ledger, spans) + ledger[kept..] == ledger {
      assert |Slices(ledger, spans)| == kept;
      assert Slices(ledger, spans) == (Slices(ledger, spans) + ledger[kept..])[..kept] == ledger[..kept];
      PrefixSlicesAreTiled(ledger, spans, kept);
    }
    if Tiled(spans) && End(spans) == kept {
      TiledSlices(ledger, spans);
    }
  }

  /** The window sees the ledger if and only if the catalogued files hold the records before the
      current file, each once and in order. */
  lemma SeenIsLedgerIffTiled(d: Disk, ledger: seq<Record>, sh: Shape)
    requires Stores(d, ledger, sh)
    ensures CatalogExists(d) && (forall x <- Catalogued(d) :: x in sh.at)
    ensures Seen(d) == ledger
            <==> Tiled(SpansOf(sh, Catalogued(d))) && End(SpansOf(sh, Catalogued(d))) == sh.kept
  {
    CataloguedFilesExist(d, ledger, sh);
    SpansAreInside(d.archives, ledger, sh, Catalogued(d));
    ConcatIsSlices(d.archives, ledger, sh, Catalogued(d));
    JoinedIsLedgerIff(ledger, SpansOf(sh, Catalogued(d)), sh.kept);
  }

  lemma {:induction false} ConsecutiveIffTiled(archives: map<Range, seq<Record>>, ledger: seq<Record>, sh: Shape,
      files: seq<Range>)
    requires FilesGood(archives, ledger, sh) && Numbered(ledger) && forall x <- files :: x in archives
    ensures Consecutive(files) <==> Tiled(SpansOf(sh, files))
    ensures LastNumber(files) == End(SpansOf(sh, files))
  {
    if files != [] {
      var n := |files| - 1;
      ConsecutiveIffTiled(archives, ledger, sh, files[..n]);
      FileWithin(ledger, sh, files[n], archives[files[n]]);
      assert SpansOf(sh, files)[..n] == SpansOf(sh, files[..n]);
    }
  }

  lemma FirstCurrentIsKept(d: Disk, ledger: seq<Record>, sh: Shape, listing: seq<Range>)
    requires Stores(d, ledger, sh) && Counts(d, ledger) && Lists(listing, d.archives)
    ensures FirstCurrent(d, listing) == sh.kept + 1
  {
    if d.current == [] {
      NextIsCount(d, ledger, listing);
      assert |ledger[sh.kept..]| == 0;
    }
  }

  lemma SeenIsLedgerIff(d: Disk, ledger: seq<Record>, listing: seq<Range>)
    requires Counts(d, ledger) && Lists(listing, d.archives)
    ensures CatalogExists(d)
    ensures Seen(d) == ledger <==> CatalogIsWhole(d, listing)
  {
    var sh := ShapeOf(d, ledger);
    SeenIsLedgerIffTiled(d, ledger, sh);
    ConsecutiveIffTiled(d.archives, ledger, sh, Catalogued(d));
    FirstCurrentIsKept(d, ledger, sh, listing);
  }

  /** Whatever completed and crashed before: the window sees what a full read of the directory
      gives, if and only if the file names of the catalog are whole. */
  lemma WindowSeesAllIff(attempts: seq<Attempt>, d: Disk, listing: seq<Range>)
    requires History(Empty, attempts, d) && Lists(listing, d.archives)
    ensures CatalogExists(d)
    ensures var files := Inventory(d.catalog.archives, listing);
            && (forall x <- files :: x in d.archives)
            && (Seen(d) == Dedupe(Concat(d.archives, files) + d.current) <==> CatalogIsWhole(d, listing))
  {
    EmptyCounts();
    var ledger := HistoryCounts(Empty, [], attempts, d);
    ReadsAsLedger(d, ledger, listing);
    SeenIsLedgerIff(d, ledger, listing);
  }

  // ---------------------------------------------------------------- the stages of a rotation

  lemma {:induction false} ConcatOfSame(archives: map<Range, seq<Record>>, archives': map<Range, seq<Record>>,
      files: seq<Range>)
    requires forall x <- files :: x in archives && x in archives' && archives[x] == archives'[x]
    ensures Concat(archives, files) == Concat(archives', files)
  {
    if files != [] {
      ConcatOfSame(archives, archives', files[..|files| - 1]);
    }
  }

  /** Between the archive write and the current rewrite the window still sees the ledger. */
  lemma ArchiveStageIsSeen(d: Disk, ledger: seq<Record>, n: nat)
    requires CatalogExists(d) && Seen(d) == ledger && 0 < n <= |d.current|
    ensures CatalogExists(ArchiveStage(d, n)) && Seen(ArchiveStage(d, n)) == ledger
  {
    ConcatOfSame(d.archives, ArchiveStage(d, n).archives, Catalogued(d));
  }

  lemma MissingMiddle(s: seq<Record>, t: seq<Record>, all: seq<Record>, n: nat)
    requires 0 < n <= |t| && s + t == all
    ensures s + t[n..] == all[..|all| - |t|] + all[|all| - |t| + n..]
    ensures s + t[n..] != all
  {
    assert |s + t[n..]| < |all|;
  }

  lemma SeenRotated(d: Disk, n: nat)
    requires CatalogExists(d) && 0 < n <= |d.current|
    ensures CatalogExists(Rotated(d, n))
    ensures Seen(Rotated(d, n)) == Concat(d.archives, Catalogued(d)) + d.current[n..]
  {
    ConcatOfSame(d.archives, Rotated(d, n).archives, Catalogued(d));
  }

  /** Behind the current rewrite, until the catalog is written, the rotated records are missing. */
  lemma RotatedStageIsNotSeen(d: Disk, ledger: seq<Record>, n: nat)
    requires CatalogExists(d) && Seen(d) == ledger && 0 < n <= |d.current|
    ensures CatalogExists(Rotated(d, n))
    ensures var k := |ledger| - |d.current|; Seen(Rotated(d, n)) == ledger[..k] + ledger[k + n..]
    ensures Seen(Rotated(d, n)) != ledger
  {
    SeenRotated(d, n);
    MissingMiddle(Concat(d.archives, Catalogued(d)), d.current, ledger, n);
  }

  /** Every append that rotates passes through that disk. */
  lemma RotatedIsAStage(d: Disk, listing: seq<Range>, input: Option<Record>, rotation: Rotation)
    requires 0 < Archivable(d.current, rotation)
    ensures Rotated(d, Archivable(d.current, rotation)) in Stages(d, listing, input, rotation)
  {
    var n := Archivable(d.current, rotation);
    assert Stages(d, listing, input, rotation)[2] == Rotated(d, n);
  }

  /** The whole way to such a disk: one append, and another one that stops behind the rewrite of
      the current file. The only record there is lies in an archive that nothing names. */
  lemma CrashedRotationCase(input: Record) returns (attempts: seq<Attempt>, d: Disk)
    requires input.time <= 10
    ensures History(Empty, attempts, d)
    ensures d == Disk(map[Named(1, 1) := [input.(sequence := 1)]], [], Catalog(2, []))
    ensures CatalogExists(d) && Seen(d) == [] && !CatalogIsWhole(d, [Named(1, 1)])
  {
    var r, x := input.(sequence := 1), Named(1, 1);
    var mid := Disk(map[], [r], Catalog(2, []));
    var first, second := Attempt([], Some(input), Off, 2), Attempt([], None, On(10, 10), 2);
    d := Disk(map[x := [r]], [], Catalog(2, []));
    attempts := [first, second];
    FirstAppend(input);
    StoppedRotation(r);
    TwoSteps(Empty, first, mid, second, d);
    assert Catalogued(d) == [];
  }

  lemma StoppedRotation(r: Record)
    requires r.time <= 10 && r.sequence == 1
    ensures Step(Disk(map[], [r], Catalog(2, [])), Attempt([], None, On(10, 10), 2),
                 Disk(map[Named(1, 1) := [r]], [], Catalog(2, [])))
  {
    var mid := Disk(map[], [r], Catalog(2, []));
    assert Archivable(mid.current, On(10, 10)) == 1;
    assert mid.current[..1] == [r] && mid.current[1..] == [];
  }

  lemma TwoSteps(a: Disk, first: Attempt, b: Disk, second: Attempt, c: Disk)
    requires Step(a, first, b) && Step(b, second, c)
    ensures History(a, [first, second], c)
  {
    var attempts := [first, second];
    assert attempts[..1] == [first] && [first][..0] == [];
    assert History(a, [first][..0], a);
    assert History(a, attempts[..1], b);
  }

  lemma FirstAppend(input: Record)
    ensures Step(Empty, Attempt([], Some(input), Off, 2), Disk(map[], [input.(sequence := 1)], Catalog(2, [])))
  {
    var files := Inventory([], []);
    assert files == [];
    assert NextSequence(Empty, files) == 1;
    assert KeysOnDisk(Empty, files) == {};
  }

  // ---------------------------------------------------------------- the window over a disk

  ghost function EntriesOf(archives: map<Range, seq<Record>>, files: seq<Range>): (entries: seq<CatalogEntry>)
    requires forall x <- files :: x in archives
    ensures |entries| == |files|
    ensures forall m :: 0 <= m < |files| ==> entries[m] == CatalogEntry(files[m].last, archives[files[m]])
  {
    if files == [] then []
    else
      var x := files[|files| - 1];
      EntriesOf(archives, files[..|files| - 1]) + [CatalogEntry(x.last, archives[x])]
  }

  lemma {:induction false} FilesOfAppend(entries: seq<CatalogEntry>, e: CatalogEntry)
    ensures FilesOf(entries + [e]) == FilesOf(entries) + [e.records]
  {
    if entries == [] {
      assert [e][1..] == [];
    } else {
      assert (entries + [e])[1..] == entries[1..] + [e];
      FilesOfAppend(entries[1..], e);
    }
  }

  lemma {:induction false} EntriesAreConcat(archives: map<Range, seq<Record>>, files: seq<Range>)
    requires forall x <- files :: x in archives
    ensures Flat(FilesOf(EntriesOf(archives, files))) == Concat(archives, files)
  {
    if files != [] {
      var n := |files| - 1;
      EntriesAreConcat(archives, files[..n]);
      FilesOfAppend(EntriesOf(archives, files[..n]), CatalogEntry(files[n].last, archives[files[n]]));
      FlatAppend(FilesOf(EntriesOf(archives, files[..n])), [archives[files[n]]]);
      FlatOne(archives[files[n]]);
    }
  }

  lemma FileIsBounded(ledger: seq<Record>, sh: Shape, x: Range, content: seq<Record>)
    requires Growing(ledger) && FileGood(ledger, sh, x, content)
    ensures forall r <- content :: r.sequence <= x.last
  {
    var i, j := sh.at[x].0, sh.at[x].1;
    forall r | r in content ensures r.sequence <= x.last {
      var k :| 0 <= k < |content| && content[k] == r;
      GrowingAt(ledger, i + k, j - 1);
    }
  }

  lemma BoundsAppend(entries: seq<CatalogEntry>, e: CatalogEntry)
    requires CatalogBounds(entries) && forall r <- e.records :: r.sequence <= e.last
    ensures CatalogBounds(entries + [e])
  {
  }

  lemma {:induction false} EntriesAreBounded(archives: map<Range, seq<Record>>, ledger: seq<Record>, sh: Shape,
      files: seq<Range>)
    requires Growing(ledger) && FilesGood(archives, ledger, sh)
    requires forall x <- files :: x in archives
    ensures CatalogBounds(EntriesOf(archives, files))
  {
    if files != [] {
      var x := files[|files| - 1];
      EntriesAreBounded(archives, ledger, sh, files[..|files| - 1]);
      FileIsBounded(ledger, sh, x, archives[x]);
      BoundsAppend(EntriesOf(archives, files[..|files| - 1]), CatalogEntry(x.last, archives[x]));
    }
  }

  lemma SliceIsLayered(ledger: seq<Record>, i: nat, j: nat, k: nat, n: nat)
    requires Growing(ledger) && i <= j <= n <= |ledger| && k <= n
    ensures NewerIsLater(ledger[i..j], ledger[k..n])
  {
    forall r, s | r in ledger[i..j] && s in ledger[k..n] ensures r.sequence < s.sequence || r in ledger[k..n] {
      var p :| i <= p < j && ledger[p] == r;
      var q :| k <= q < n && ledger[q] == s;
      SequenceOrder(ledger, p, q);
      if q <= p {
        assert ledger[k..n][p - k] == r;
      }
    }
  }

  lemma FilesAreLayered(archives: map<Range, seq<Record>>, ledger: seq<Record>, sh: Shape, files: seq<Range>, i: nat,
      j: nat)
    requires Growing(ledger) && FilesGood(archives, ledger, sh)
    requires Ascending(files) && (forall x <- files :: x in archives) && i < j < |files|
    ensures NewerIsLater(archives[files[i]], archives[files[j]])
  {
    CataloguedSpansAscend(archives, ledger, sh, files);
    AscendingSpansAt(SpansOf(sh, files), i, j);
    SpansOfAt(sh, files, i);
    SpansOfAt(sh, files, j);
    assert FileGood(ledger, sh, files[i], archives[files[i]]) && FileGood(ledger, sh, files[j], archives[files[j]]);
    SliceIsLayered(ledger, sh.at[files[i]].0, sh.at[files[i]].1, sh.at[files[j]].0, sh.at[files[j]].1);
  }

  lemma CurrentIsLayered(ledger: seq<Record>, sh: Shape, x: Range, content: seq<Record>, current: seq<Record>)
    requires Growing(ledger) && FileGood(ledger, sh, x, content) && sh.kept <= |ledger| && current == ledger[sh.kept..]
    ensures NewerIsLater(content, current)
  {
    assert current == ledger[sh.kept..|ledger|];
    SliceIsLayered(ledger, sh.at[x].0, sh.at[x].1, sh.kept, |ledger|);
  }

  lemma LayeredWith(files: seq<seq<Record>>, current: seq<Record>)
    requires Layered(files) && forall i | 0 <= i < |files| :: NewerIsLater(files[i], current)
    ensures Layered(files + [current])
  {
  }

  lemma ArchivesAreLayered(d: Disk, ledger: seq<Record>, sh: Shape, names: seq<Range>, files: seq<seq<Record>>)
    requires Stores(d, ledger, sh) && Ascending(names) && (forall x <- names :: x in d.archives)
    requires |files| == |names| && forall m :: 0 <= m < |names| ==> files[m] == d.archives[names[m]]
    ensures Layered(files) && forall i | 0 <= i < |files| :: NewerIsLater(files[i], d.current)
  {
    forall i, j | 0 <= i < j < |files| ensures NewerIsLater(files[i], files[j]) {
      FilesAreLayered(d.archives, ledger, sh, names, i, j);
    }
    forall i | 0 <= i < |files| ensures NewerIsLater(files[i], d.current) {
      CurrentIsLayered(ledger, sh, names[i], d.archives[names[i]], d.current);
    }
  }

  /** However catalogued archives and the current file overlap after crashes, an earlier file has
      nothing behind a later one that is not in the later one as well. */
  lemma SeenIsLayered(d: Disk, ledger: seq<Record>, sh: Shape)
    requires Stores(d, ledger, sh) && CatalogExists(d)
    ensures Layered(FilesOf(EntriesOf(d.archives, Catalogued(d))) + [d.current])
  {
    SortArchivesAscend(d.catalog.archives);
    ArchivesAreLayered(d, ledger, sh, Catalogued(d), FilesOf(EntriesOf(d.archives, Catalogued(d))));
    LayeredWith(FilesOf(EntriesOf(d.archives, Catalogued(d))), d.current);
  }

  /** On every disk that stores a ledger the send check answers from what it sees of it: the
      catalogued archives and the current file, second copies counted. */
  method WindowOfDisk(d: Disk, files: seq<Range>, entries: seq<CatalogEntry>, f: Record -> bool, after: Option<nat>,
      limit: int, ghost ledger: seq<Record>, ghost sh: Shape)
    returns (w: Window)
    requires Stores(d, ledger, sh) && CatalogExists(d)
    requires files == Catalogued(d) && entries == EntriesOf(d.archives, files)
    ensures w == WindowOf(Seen(d), f, after, if limit < 1 then 1 else limit)
  {
    EntriesAreConcat(d.archives, files);
    EntriesAreBounded(d.archives, ledger, sh, files);
    FlatAppend(FilesOf(entries), [d.current]);
    FlatOne(d.current);
    SeenIsLayered(d, ledger, sh);
    w := ConversationMessageWindow(entries, d.current, f, after, limit);
  }
}
