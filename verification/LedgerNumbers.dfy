/** Sequences count: whatever crashed before, the k-th record that was ever accepted has sequence k. */
module LedgerNumbers {
  import opened Records
  import opened FirstWrite
  import opened ArchiveRanges
  import opened LedgerFiles
  import opened LedgerAppend
  import opened LedgerCrash

  ghost predicate Numbered(ledger: seq<Record>) {
    forall i :: 0 <= i < |ledger| ==> ledger[i].sequence == i + 1
  }

  /** The disk holds a numbered ledger, and its catalog, stale or not, does not run ahead of it. */
  ghost predicate Counts(d: Disk, ledger: seq<Record>) {
    Holds(d, ledger) && Numbered(ledger) && d.catalog.nextSequence <= |ledger| + 1
  }

  lemma {:induction false} LastSequenceWithin(records: seq<Record>, bound: nat)
    requires forall r <- records :: r.sequence <= bound
    ensures LastSequence(records) <= bound
  {
    if records != [] {
      LastSequenceWithin(records[..|records| - 1], bound);
      assert records[|records| - 1] in records;
    }
  }

  lemma {:induction false} LastArchivedWithin(files: seq<Range>, bound: nat)
    requires forall x <- files :: x.last <= bound
    ensures LastArchived(files) <= bound
  {
    if files != [] {
      LastArchivedWithin(files[..|files| - 1], bound);
      assert files[|files| - 1] in files;
    }
  }

  lemma NumberedWithin(ledger: seq<Record>, k: nat)
    requires Numbered(ledger) && k <= |ledger|
    ensures forall r <- ledger[k..] :: r.sequence <= |ledger|
  {
  }

  lemma FileWithin(ledger: seq<Record>, sh: Shape, x: Range, content: seq<Record>)
    requires Numbered(ledger) && FileGood(ledger, sh, x, content)
    ensures x.first == sh.at[x].0 + 1 && x.last == sh.at[x].1 <= |ledger|
  {
  }

  lemma NextWithin(d: Disk, ledger: seq<Record>, sh: Shape, files: seq<Range>)
    requires Stores(d, ledger, sh) && Numbered(ledger) && d.catalog.nextSequence <= |ledger| + 1
    requires forall x <- files :: x in d.archives
    ensures NextSequence(d, files) <= |ledger| + 1
  {
    NumberedWithin(ledger, sh.kept);
    LastSequenceWithin(d.current, |ledger|);
    forall x | x in files ensures x.last <= |ledger| {
      FileWithin(ledger, sh, x, d.archives[x]);
    }
    LastArchivedWithin(files, |ledger|);
  }

  /** The next sequence is the number of the next record. */
  lemma NextIsCount(d: Disk, ledger: seq<Record>, listing: seq<Range>)
    requires Counts(d, ledger) && Lists(listing, d.archives)
    ensures NextSequence(d, Inventory(d.catalog.archives, listing)) == |ledger| + 1
  {
    var files := Inventory(d.catalog.archives, listing);
    InventoryIsCatalogued(d, ledger, listing);
    FreshSequence(d, ledger, listing, files);
    var sh := ShapeOf(d, ledger);
    NextWithin(d, ledger, sh, files);
  }

  /** Only the last disk may have another catalog, and not one that counts beyond `bound`. */
  ghost predicate CatalogLast(stages: seq<Disk>, catalog: Catalog, bound: nat) {
    forall i :: 0 <= i < |stages| ==>
      stages[i].catalog == catalog || (i == |stages| - 1 && stages[i].catalog.nextSequence <= bound)
  }

  lemma RotationKeepsStored(d: Disk, n: nat)
    requires n <= |d.current|
    ensures Rotated(d, n).catalog == d.catalog
    ensures forall s <- RotationStages(d, n) :: s.catalog == d.catalog
  {
  }

  lemma WritesStoreLast(d: Disk, files: seq<Range>, input: Record, next: nat, known: bool)
    ensures CatalogLast(WriteStages(d, files, input, next, known), d.catalog, if known then next else next + 1)
  {
  }

  lemma StoredLast(before: seq<Disk>, after: seq<Disk>, catalog: Catalog, bound: nat)
    requires (forall s <- before :: s.catalog == catalog) && CatalogLast(after, catalog, bound)
    ensures CatalogLast(before + after, catalog, bound)
  {
    forall i | 0 <= i < |before| ensures (before + after)[i].catalog == catalog {
      assert (before + after)[i] == before[i];
    }
  }

  lemma StageCatalogs(d: Disk, ledger: seq<Record>, a: Attempt)
    requires Holds(d, ledger) && Lists(a.listing, d.archives)
    ensures var next := NextSequence(d, Inventory(d.catalog.archives, a.listing));
            CatalogLast(Stages(d, a.listing, a.input, a.rotation), d.catalog,
              next + |Appended(ledger, a.input, next)| - |ledger|)
  {
    var files, n := Inventory(d.catalog.archives, a.listing), Archivable(d.current, a.rotation);
    var next := NextSequence(d, files);
    RotationKeepsStored(d, n);
    if a.input.Some? {
      InventoryIsCatalogued(d, ledger, a.listing);
      RotatedReads(d, ledger, a.listing, files, n);
      var known := a.input.value.key in Keys(ledger);
      var writes := WriteStages(Rotated(d, n), RotatedFiles(d, files, n), a.input.value, next, known);
      WritesStoreLast(Rotated(d, n), RotatedFiles(d, files, n), a.input.value, next, known);
      StoredLast(RotationStages(d, n), writes, d.catalog, if known then next else next + 1);
    } else {
      assert Stages(d, a.listing, a.input, a.rotation) == RotationStages(d, n);
    }
  }

  lemma StepCounts(d: Disk, ledger: seq<Record>, a: Attempt, d': Disk) returns (ledger': seq<Record>)
    requires Counts(d, ledger) && Step(d, a, d')
    ensures Counts(d', ledger') && ledger <= ledger'
  {
    NextIsCount(d, ledger, a.listing);
    StagesAreSafe(d, ledger, a.listing, a.input, a.rotation);
    StageCatalogs(d, ledger, a);
    ledger' := Appended(ledger, a.input, |ledger| + 1);
    if a.reached < |Stages(d, a.listing, a.input, a.rotation)| - 1 && Holds(d', ledger) {
      ledger' := ledger;
    }
  }

  lemma {:induction false} HistoryCounts(start: Disk, ledger: seq<Record>, attempts: seq<Attempt>, end: Disk)
    returns (ledger': seq<Record>)
    requires Counts(start, ledger) && History(start, attempts, end)
    ensures Counts(end, ledger') && ledger <= ledger'
  {
    if attempts == [] {
      ledger' := ledger;
    } else {
      var n := |attempts| - 1;
      var mid :| History(start, attempts[..n], mid) && Step(mid, attempts[n], end);
      var grown := HistoryCounts(start, ledger, attempts[..n], mid);
      ledger' := StepCounts(mid, grown, attempts[n], end);
    }
  }

  lemma EmptyCounts()
    ensures Counts(Empty, [])
  {
    EmptyHoldsNothing();
  }

  /** Over any history of completed and crashed appends the record read at place k has sequence
      k + 1, and the next one continues the count: no sequence is ever skipped or used twice. */
  lemma SequencesCount(attempts: seq<Attempt>, d: Disk, listing: seq<Range>)
    requires History(Empty, attempts, d) && Lists(listing, d.archives)
    ensures var files := Inventory(d.catalog.archives, listing);
            && (forall x <- files :: x in d.archives)
            && var read := Dedupe(Concat(d.archives, files) + d.current);
               && (forall i :: 0 <= i < |read| ==> read[i].sequence == i + 1)
               && NextSequence(d, files) == |read| + 1
  {
    EmptyCounts();
    var ledger := HistoryCounts(Empty, [], attempts, d);
    ReadsAsLedger(d, ledger, listing);
    NextIsCount(d, ledger, listing);
  }
}
