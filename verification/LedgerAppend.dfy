/** One append to the ledger as the list of file writes it performs, and what any prefix of
    that list leaves on disk. */
module LedgerAppend {
  import opened Records
  import opened FirstWrite
  import opened ArchiveRanges
  import opened LedgerFiles

  /** `On(t, i)`: rotate when some record is not younger than `t`, and take the leading records
      that are not younger than `i`. */
  datatype Rotation = Off | On(triggerBefore: int, includeBefore: int)

  datatype Write =
    | WriteArchive(x: Range, content: seq<Record>)
    | WriteCurrent(records: seq<Record>)
    | AppendCurrent(r: Record)
    | WriteCatalog(catalog: Catalog)

  function Applied(d: Disk, w: Write): Disk {
    match w
    case WriteArchive(x, content) => d.(archives := d.archives[x := content])
    case WriteCurrent(records) => d.(current := records)
    case AppendCurrent(r) => d.(current := d.current + [r])
    case WriteCatalog(catalog) => d.(catalog := catalog)
  }

  function PrefixLength(records: seq<Record>, includeBefore: int): (n: nat)
    ensures n <= |records|
  {
    if records == [] || records[0].time > includeBefore then 0 else 1 + PrefixLength(records[1..], includeBefore)
  }

  /** How many leading records `archiveEligiblePrefix` moves. */
  function Archivable(records: seq<Record>, rotation: Rotation): (n: nat)
    ensures n <= |records|
  {
    if rotation.Off? || forall r <- records :: r.time > rotation.triggerBefore then 0
    else
      var n := PrefixLength(records, rotation.includeBefore);
      if n == 0 || records[0].sequence == 0 || records[n - 1].sequence == 0 then 0 else n
  }

  /** What a rotation may move: nothing younger than the one limit, everything that leads up to it,
      and nothing at all unless some record is as old as the other limit. */
  ghost predicate RightPrefix(records: seq<Record>, rotation: Rotation, n: nat) {
    && n <= |records|
    && (0 < n ==>
          && rotation.On? && (exists r <- records :: r.time <= rotation.triggerBefore)
          && (forall r <- records[..n] :: r.time <= rotation.includeBefore)
          && (n < |records| ==> records[n].time > rotation.includeBefore)
          && 1 <= records[0].sequence && 1 <= records[n - 1].sequence)
    && (n == 0 ==> !MustMove(records, rotation))
  }

  /** Something is old enough to start a rotation and the leading records are old enough to move. */
  ghost predicate MustMove(records: seq<Record>, rotation: Rotation) {
    && rotation.On? && (exists r <- records :: r.time <= rotation.triggerBefore)
    && exists n: nat ::
         IsOldRun(records, rotation.includeBefore, n) && 1 <= records[0].sequence && 1 <= records[n - 1].sequence
  }

  /** The first `n` records are the longest leading run that is old enough. */
  ghost predicate IsOldRun(records: seq<Record>, includeBefore: int, n: nat) {
    && 0 < n <= |records|
    && (forall r <- records[..n] :: r.time <= includeBefore)
    && (n < |records| ==> records[n].time > includeBefore)
  }

  lemma OneOldRun(records: seq<Record>, includeBefore: int, m: nat, n: nat)
    requires IsOldRun(records, includeBefore, m) && IsOldRun(records, includeBefore, n)
    ensures m == n
  {
  }

  lemma {:induction false} PrefixIsOldRun(records: seq<Record>, includeBefore: int)
    ensures var n := PrefixLength(records, includeBefore);
            if n == 0 then records == [] || records[0].time > includeBefore else IsOldRun(records, includeBefore, n)
  {
    if records != [] && records[0].time <= includeBefore {
      PrefixIsOldRun(records[1..], includeBefore);
      var n := PrefixLength(records, includeBefore);
      assert records[..n] == [records[0]] + records[1..][..n - 1];
    }
  }

  /** There is only one right prefix. */
  lemma OneRightPrefix(records: seq<Record>, rotation: Rotation, m: nat, n: nat)
    requires RightPrefix(records, rotation, m) && RightPrefix(records, rotation, n)
    ensures m == n
  {
    assert 0 < m ==> IsOldRun(records, rotation.includeBefore, m);
    assert 0 < n ==> IsOldRun(records, rotation.includeBefore, n);
    if 0 < m && 0 < n {
      OneOldRun(records, rotation.includeBefore, m, n);
    }
  }

  /** An old run that could move is the one that is found. */
  lemma OldRunIsPrefix(records: seq<Record>, includeBefore: int, n: nat)
    requires IsOldRun(records, includeBefore, n)
    ensures PrefixLength(records, includeBefore) == n
  {
    PrefixIsOldRun(records, includeBefore);
    assert records[0] in records[..n];
    OneOldRun(records, includeBefore, n, PrefixLength(records, includeBefore));
  }

  /** The rotation takes the right prefix. */
  lemma ArchivableIsRight(records: seq<Record>, rotation: Rotation)
    ensures RightPrefix(records, rotation, Archivable(records, rotation))
  {
    if rotation.On? {
      PrefixIsOldRun(records, rotation.includeBefore);
    }
    if MustMove(records, rotation) {
      var m: nat :| IsOldRun(records, rotation.includeBefore, m) && 1 <= records[0].sequence
        && 1 <= records[m - 1].sequence;
      OldRunIsPrefix(records, rotation.includeBefore, m);
    }
  }

  function LastSequence(records: seq<Record>): nat {
    if records == [] then 0
    else
      var rest := LastSequence(records[..|records| - 1]);
      var s := records[|records| - 1].sequence;
      if rest < s then s else rest
  }

  function LastArchived(files: seq<Range>): nat {
    if files == [] then 0
    else
      var rest := LastArchived(files[..|files| - 1]);
      var s := files[|files| - 1].last;
      if rest < s then s else rest
  }

  function NextSequence(d: Disk, files: seq<Range>): nat {
    Larger(Larger(1, d.catalog.nextSequence),
           Larger(LastSequence(d.current), LastArchived(files)) + 1)
  }

  function WithoutFile(files: seq<Range>, x: Range): (r: seq<Range>)
    ensures forall y :: y in r <==> y in files && y != x
    ensures multiset(r) <= multiset(files)
  {
    if files == [] then []
    else
      var y := files[|files| - 1];
      assert files == files[..|files| - 1] + [y];
      WithoutFile(files[..|files| - 1], x) + if y == x then [] else [y]
  }

  /** The archive that a rotation of the first `n` current records writes. */
  function RotationFile(current: seq<Record>, n: nat): Range
    requires 0 < n <= |current|
  {
    Named(current[0].sequence, current[n - 1].sequence)
  }

  ghost function RotatedFiles(d: Disk, files: seq<Range>, n: nat): seq<Range>
    requires n <= |d.current|
  {
    if n == 0 then files
    else
      var x := RotationFile(d.current, n);
      SortArchives(WithoutFile(files, x) + [x])
  }

  /** The keys that `findExistingRecord` can find. */
  ghost function KeysOnDisk(d: Disk, files: seq<Range>): set<string>
    requires forall x <- files :: x in d.archives
  {
    Keys(Concat(d.archives, files) + d.current)
  }

  // ---------------------------------------------------------------- single writes

  ghost predicate DistinctSequences(ledger: seq<Record>) {
    forall i, j :: 0 <= i < |ledger| && 0 <= j < |ledger| && ledger[i].sequence == ledger[j].sequence ==> i == j
  }

  lemma GrowingIsDistinct(ledger: seq<Record>)
    requires Growing(ledger)
    ensures DistinctSequences(ledger)
  {
    forall i, j | 0 <= i < |ledger| && 0 <= j < |ledger| && ledger[i].sequence == ledger[j].sequence
      ensures i == j
    {
      SequenceOrder(ledger, i, j);
    }
  }

  /** One range name stands for one slice of the ledger. */
  lemma RangeNamesSlice(ledger: seq<Record>, sh: Shape, x: Range, content: seq<Record>, i: nat, j: nat)
    requires DistinctSequences(ledger) && FileGood(ledger, sh, x, content) && i < j <= |ledger|
    requires x.first == ledger[i].sequence && x.last == ledger[j - 1].sequence
    ensures sh.at[x] == (i, j) && content == ledger[i..j]
  {
  }

  lemma RotationIsSlice(current: seq<Record>, ledger: seq<Record>, k: nat, n: nat)
    requires k <= |ledger| && current == ledger[k..] && 0 < n <= |current|
    ensures current[..n] == ledger[k..k + n]
    ensures RotationFile(current, n).first == ledger[k].sequence
    ensures RotationFile(current, n).last == ledger[k + n - 1].sequence
  {
    assert current[0] == ledger[k] && current[n - 1] == ledger[k + n - 1];
  }

  /** An existing file of the new archive's name holds the same slice. */
  lemma ExistingRotationFile(current: seq<Record>, ledger: seq<Record>, sh: Shape, n: nat, content: seq<Record>)
    requires DistinctSequences(ledger) && sh.kept <= |ledger| && current == ledger[sh.kept..] && 0 < n <= |current|
    requires FileGood(ledger, sh, RotationFile(current, n), content)
    ensures sh.at[RotationFile(current, n)] == (sh.kept, sh.kept + n) && content == current[..n]
  {
    RotationIsSlice(current, ledger, sh.kept, n);
    RangeNamesSlice(ledger, sh, RotationFile(current, n), content, sh.kept, sh.kept + n);
  }

  /** The new archive file is a slice of the ledger, and an existing one of its name is the same slice. */
  lemma RotationFileIsSlice(d: Disk, ledger: seq<Record>, sh: Shape, n: nat)
    requires DistinctSequences(ledger) && sh.kept <= |ledger|
    requires d.current == ledger[sh.kept..] && 0 < n <= |d.current|
    requires var x := RotationFile(d.current, n); x in d.archives ==> FileGood(ledger, sh, x, d.archives[x])
    ensures var x := RotationFile(d.current, n);
            && d.current[..n] == ledger[sh.kept..sh.kept + n]
            && x.first == ledger[sh.kept].sequence && x.last == ledger[sh.kept + n - 1].sequence
            && (x in d.archives ==> sh.at[x] == (sh.kept, sh.kept + n) && d.archives[x] == d.current[..n])
  {
    var x := RotationFile(d.current, n);
    RotationIsSlice(d.current, ledger, sh.kept, n);
    if x in d.archives {
      ExistingRotationFile(d.current, ledger, sh, n, d.archives[x]);
    }
  }

  lemma FilesGoodWith(archives: map<Range, seq<Record>>, ledger: seq<Record>, sh: Shape, sh': Shape, x: Range,
      content: seq<Record>)
    requires FilesGood(archives, ledger, sh) && FileGood(ledger, sh', x, content)
    requires sh'.at == sh.at[x := sh'.at[x]] && sh.covered <= sh'.covered
    ensures FilesGood(archives[x := content], ledger, sh')
  {
    forall y | y in archives && y != x ensures FileGood(ledger, sh', y, archives[y]) {
      assert FileGood(ledger, sh, y, archives[y]);
    }
  }

  lemma ArchiveWritten(d: Disk, ledger: seq<Record>, sh: Shape, n: nat) returns (sh': Shape)
    requires Stores(d, ledger, sh) && 0 < n <= |d.current|
    ensures var x := RotationFile(d.current, n);
            && (x in d.archives ==> d.archives[x] == d.current[..n])
            && sh' == Shape(sh.at[x := (sh.kept, sh.kept + n)], Larger(sh.covered, sh.kept + n), sh.kept)
            && Stores(Applied(d, WriteArchive(x, d.current[..n])), ledger, sh')
  {
    var x, k := RotationFile(d.current, n), sh.kept;
    sh' := Shape(sh.at[x := (k, k + n)], Larger(sh.covered, k + n), k);
    GrowingIsDistinct(ledger);
    RotationFileIsSlice(d, ledger, sh, n);
    FilesGoodWith(d.archives, ledger, sh, sh', x, d.current[..n]);
    ArchiveCovers(sh, sh', x, n);
  }

  lemma ArchiveCovers(sh: Shape, sh': Shape, x: Range, n: nat)
    requires AllArchived(sh) && sh.kept <= sh.covered
    requires sh' == Shape(sh.at[x := (sh.kept, sh.kept + n)], Larger(sh.covered, sh.kept + n), sh.kept)
    requires x in sh.at ==> sh.at[x] == (sh.kept, sh.kept + n)
    ensures AllArchived(sh')
  {
    forall p: nat | p < sh'.covered ensures Archived(sh', p) {
      if sh.kept <= p < sh.kept + n {
        assert HoldsPosition(sh', x, p);
      } else {
        assert Archived(sh, p);
        var y :| HoldsPosition(sh, y, p);
        assert HoldsPosition(sh', y, p);
      }
    }
  }

  /** Where the current file begins does not matter to the archives. */
  lemma ArchivesIgnoreKept(archives: map<Range, seq<Record>>, ledger: seq<Record>, sh: Shape, sh': Shape)
    requires FilesGood(archives, ledger, sh) && sh'.at == sh.at && sh'.covered == sh.covered
    ensures FilesGood(archives, ledger, sh')
  {
    forall y | y in archives ensures FileGood(ledger, sh', y, archives[y]) {
      assert FileGood(ledger, sh, y, archives[y]);
    }
  }

  lemma CoverIgnoresKept(sh: Shape, sh': Shape)
    requires AllArchived(sh) && sh'.at == sh.at && sh'.covered == sh.covered
    ensures AllArchived(sh')
  {
    forall p: nat | p < sh'.covered ensures Archived(sh', p) {
      assert Archived(sh, p);
      var y :| HoldsPosition(sh, y, p);
      assert HoldsPosition(sh', y, p);
    }
  }

  lemma CurrentRewritten(d: Disk, ledger: seq<Record>, sh: Shape, n: nat)
    requires Stores(d, ledger, sh) && n <= |d.current| && sh.kept + n <= sh.covered
    ensures Stores(Applied(d, WriteCurrent(d.current[n..])), ledger, sh.(kept := sh.kept + n))
  {
    var sh' := sh.(kept := sh.kept + n);
    ArchivesIgnoreKept(d.archives, ledger, sh, sh');
    CoverIgnoresKept(sh, sh');
    assert d.current[n..] == ledger[sh'.kept..];
  }

  lemma GrowingAppend(ledger: seq<Record>, r: Record)
    requires Growing(ledger)
    requires r.key !in Keys(ledger) && 1 <= r.sequence && (ledger != [] ==> ledger[|ledger| - 1].sequence < r.sequence)
    ensures Growing(ledger + [r])
  {
    assert (ledger + [r])[..|ledger|] == ledger;
  }

  lemma FilesGoodInLongerLedger(archives: map<Range, seq<Record>>, ledger: seq<Record>, sh: Shape, longer: seq<Record>)
    requires FilesGood(archives, ledger, sh) && ledger <= longer
    ensures FilesGood(archives, longer, sh)
  {
    forall y | y in archives ensures FileGood(longer, sh, y, archives[y]) {
      assert FileGood(ledger, sh, y, archives[y]);
      assert longer[sh.at[y].0..sh.at[y].1] == ledger[sh.at[y].0..sh.at[y].1];
    }
  }

  lemma CurrentAppended(d: Disk, ledger: seq<Record>, sh: Shape, r: Record)
    requires Stores(d, ledger, sh)
    requires r.key !in Keys(ledger) && 1 <= r.sequence && (ledger != [] ==> ledger[|ledger| - 1].sequence < r.sequence)
    ensures Stores(Applied(d, AppendCurrent(r)), ledger + [r], sh)
  {
    GrowingAppend(ledger, r);
    FilesGoodInLongerLedger(d.archives, ledger, sh, ledger + [r]);
    assert (ledger + [r])[sh.kept..] == ledger[sh.kept..] + [r];
  }

  lemma CatalogWritten(d: Disk, ledger: seq<Record>, sh: Shape, c: Catalog)
    requires Stores(d, ledger, sh)
    requires NoRepeats(c.archives) && forall x <- c.archives :: x in d.archives
    ensures Stores(Applied(d, WriteCatalog(c)), ledger, sh)
  {
  }

  // ---------------------------------------------------------------- the sequence and the key

  lemma {:induction false} LastSequenceBounds(records: seq<Record>, i: nat)
    requires i < |records|
    ensures records[i].sequence <= LastSequence(records)
  {
    if i < |records| - 1 {
      LastSequenceBounds(records[..|records| - 1], i);
    }
  }

  lemma {:induction false} LastArchivedBounds(files: seq<Range>, x: Range)
    requires x in files && 0 <= x.last
    ensures x.last <= LastArchived(files)
  {
    if x != files[|files| - 1] {
      assert files == files[..|files| - 1] + [files[|files| - 1]];
      LastArchivedBounds(files[..|files| - 1], x);
    }
  }

  lemma CurrentEndBounds(current: seq<Record>, ledger: seq<Record>, kept: nat)
    requires kept < |ledger| && current == ledger[kept..]
    ensures ledger[|ledger| - 1].sequence <= LastSequence(current)
  {
    assert current[|ledger| - 1 - kept] == ledger[|ledger| - 1];
    LastSequenceBounds(current, |ledger| - 1 - kept);
  }

  lemma ArchivedEndBounds(archives: map<Range, seq<Record>>, ledger: seq<Record>, sh: Shape, listing: seq<Range>,
      files: seq<Range>)
    requires Growing(ledger) && FilesGood(archives, ledger, sh) && ledger != [] && Archived(sh, |ledger| - 1)
    requires Lists(listing, archives) && CataloguedAs(files, listing)
    ensures ledger[|ledger| - 1].sequence <= LastArchived(files)
  {
    var x := CataloguedHolds(archives, ledger, sh, listing, files, |ledger| - 1);
    assert FileGood(ledger, sh, x, archives[x]);
    LastArchivedBounds(files, x);
  }

  /** The sequence an append would use is larger than every sequence of the ledger. */
  lemma NextSequenceIsNew(d: Disk, ledger: seq<Record>, sh: Shape, listing: seq<Range>, files: seq<Range>)
    requires Stores(d, ledger, sh) && Lists(listing, d.archives) && CataloguedAs(files, listing)
    ensures 1 <= NextSequence(d, files)
    ensures ledger != [] ==> ledger[|ledger| - 1].sequence < NextSequence(d, files)
  {
    if ledger != [] {
      if sh.kept < |ledger| {
        CurrentEndBounds(d.current, ledger, sh.kept);
      } else {
        assert Archived(sh, |ledger| - 1);
        ArchivedEndBounds(d.archives, ledger, sh, listing, files);
      }
    }
  }

  lemma KeysOnDiskAreLedgerKeys(d: Disk, ledger: seq<Record>, sh: Shape, listing: seq<Range>, files: seq<Range>)
    requires Stores(d, ledger, sh) && Lists(listing, d.archives) && CataloguedAs(files, listing)
    ensures forall x <- files :: x in d.archives
    ensures KeysOnDisk(d, files) == Keys(ledger)
  {
    DiskReadsAsLedger(d, ledger, sh, listing, files);
    DedupeKeepsKeys(Concat(d.archives, files) + d.current);
  }

  /** The catalog in memory after a rotation is again the ascending maximal files. */
  lemma RotatedFilesAreCatalogued(d: Disk, listing: seq<Range>, files: seq<Range>, x: Range)
    requires NoRepeats(listing) && CataloguedAs(files, listing) && NoRepeats(files)
    ensures var files' := SortArchives(WithoutFile(files, x) + [x]);
            var listing' := if x in listing then listing else listing + [x];
            CataloguedAs(files', listing') && NoRepeats(files') && NoRepeats(listing')
  {
    var few := WithoutFile(files, x) + [x];
    var all := if x in listing then listing else listing + [x];
    forall y | y in all && Maximal(all, y) ensures y in few {
      if y != x {
        assert forall z <- listing :: z in all;
        assert Maximal(listing, y);
      }
    }
    MaximalThroughContainers(few, all);
    FewerHaveNoRepeats(WithoutFile(files, x), files);
    AddedOnce(WithoutFile(files, x), x);
    if x !in listing {
      AddedOnce(listing, x);
    }
    SortArchivesElements(few);
    SortArchivesAscend(few);
  }

  lemma AddedOnce(s: seq<Range>, x: Range)
    requires NoRepeats(s) && x !in s
    ensures NoRepeats(s + [x])
  {
    forall y | y in s + [x] ensures multiset(s + [x])[y] == 1 {
      assert multiset(s + [x]) == multiset(s) + multiset{x};
      assert y in s <==> y in multiset(s);
    }
  }
}
