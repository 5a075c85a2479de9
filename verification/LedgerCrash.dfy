/** Crash safety of the ledger: an append as the disks it passes through, stopped at any of them. */
module LedgerCrash {
  import opened Records
  import opened FirstWrite
  import opened ArchiveRanges
  import opened LedgerFiles
  import opened LedgerAppend

  /** The disk holds exactly `ledger`, whatever the archives overlap. */
  ghost predicate Holds(d: Disk, ledger: seq<Record>) {
    exists sh :: Shaped(d, ledger, sh)
  }

  /** `stored` names the disk, so that a disk can be passed on without taking it apart. */
  ghost predicate Shaped(d: Disk, ledger: seq<Record>, sh: Shape) {
    forall stored :: stored == d ==> Stores(stored, ledger, sh)
  }

  lemma ShapeOf(d: Disk, ledger: seq<Record>) returns (sh: Shape)
    requires Holds(d, ledger)
    ensures Stores(d, ledger, sh)
  {
    sh :| Shaped(d, ledger, sh);
  }

  lemma HoldsWith(d: Disk, ledger: seq<Record>, sh: Shape)
    requires Stores(d, ledger, sh)
    ensures Holds(d, ledger)
  {
    assert Shaped(d, ledger, sh);
  }

  // ---------------------------------------------------------------- the rotation

  /** The disk between the two writes of a rotation. An archive file of that name is left alone. */
  function ArchiveStage(d: Disk, n: nat): Disk
    requires 0 < n <= |d.current|
  {
    var x := RotationFile(d.current, n);
    if x in d.archives then d else Applied(d, WriteArchive(x, d.current[..n]))
  }

  function Rotated(d: Disk, n: nat): Disk
    requires n <= |d.current|
  {
    if n == 0 then d else Applied(ArchiveStage(d, n), WriteCurrent(d.current[n..]))
  }

  /** The disks that a rotation passes through, its start included. */
  function RotationStages(d: Disk, n: nat): seq<Disk>
    requires n <= |d.current|
  {
    if n == 0 then [d] else [d, ArchiveStage(d, n), Rotated(d, n)]
  }

  lemma ArchiveStageIsWrite(d: Disk, n: nat)
    requires 0 < n <= |d.current|
    requires var x := RotationFile(d.current, n); x in d.archives ==> d.archives[x] == d.current[..n]
    ensures ArchiveStage(d, n) == Applied(d, WriteArchive(RotationFile(d.current, n), d.current[..n]))
  {
    var x := RotationFile(d.current, n);
    if x in d.archives {
      assert d.archives[x := d.current[..n]] == d.archives;
    }
  }

  lemma RotationHolds(d: Disk, ledger: seq<Record>, n: nat)
    requires Holds(d, ledger) && n <= |d.current|
    ensures Holds(Rotated(d, n), ledger)
    ensures 0 < n ==> Holds(ArchiveStage(d, n), ledger)
  {
    if n > 0 {
      var sh := ShapeOf(d, ledger);
      var sh' := ArchiveWritten(d, ledger, sh, n);
      ArchiveStageIsWrite(d, n);
      HoldsWith(ArchiveStage(d, n), ledger, sh');
      CurrentRewritten(ArchiveStage(d, n), ledger, sh', n);
      HoldsWith(Rotated(d, n), ledger, sh'.(kept := sh'.kept + n));
    }
  }

  ghost function ListingAfter(d: Disk, listing: seq<Range>, n: nat): seq<Range>
    requires n <= |d.current|
  {
    if n == 0 || RotationFile(d.current, n) in listing then listing else listing + [RotationFile(d.current, n)]
  }

  /** After the rotation, the catalog in memory is the inventory of the new disk. */
  lemma RotationKeepsCatalog(d: Disk, listing: seq<Range>, files: seq<Range>, n: nat)
    requires n <= |d.current|
    requires Lists(listing, d.archives) && CataloguedAs(files, listing) && NoRepeats(files)
    ensures Lists(ListingAfter(d, listing, n), Rotated(d, n).archives)
    ensures CataloguedAs(RotatedFiles(d, files, n), ListingAfter(d, listing, n))
    ensures NoRepeats(RotatedFiles(d, files, n))
  {
    if n > 0 {
      RotatedFilesAreCatalogued(d, listing, files, RotationFile(d.current, n));
    }
  }

  lemma InventoryIsCatalogued(d: Disk, ledger: seq<Record>, listing: seq<Range>)
    requires Holds(d, ledger) && Lists(listing, d.archives)
    ensures var files := Inventory(d.catalog.archives, listing);
            CataloguedAs(files, listing) && NoRepeats(files)
  {
    var sh := ShapeOf(d, ledger);
    InventoryIsMaximalFiles(d.catalog.archives, listing);
    InventoryHasNoRepeats(d.catalog.archives, listing);
  }

  lemma InventoryHasNoRepeats(known: seq<Range>, listing: seq<Range>)
    requires NoRepeats(known) && NoRepeats(listing)
    ensures NoRepeats(Inventory(known, listing))
  {
    var unknown := Unknown(known, listing);
    var discovered := KeepMaximal(unknown, unknown);
    KeptIffMaximal(unknown, unknown);
    KeepMaximalCounts(unknown, unknown);
    UnknownCounts(known, listing);
    FewerHaveNoRepeats(discovered, listing);
    forall x | x in known + discovered ensures multiset(known + discovered)[x] == 1 {
      assert x in known <==> x in multiset(known);
      assert x in discovered <==> x in multiset(discovered);
    }
    SortArchivesElements(known + discovered);
  }

  // ---------------------------------------------------------------- one append

  /** What the ledger becomes when the append completes. */
  ghost function Appended(ledger: seq<Record>, input: Option<Record>, next: nat): seq<Record> {
    if input.None? || input.value.key in Keys(ledger) then ledger else ledger + [input.value.(sequence := next)]
  }

  ghost predicate NewSequence(ledger: seq<Record>, next: nat) {
    1 <= next && (ledger != [] ==> ledger[|ledger| - 1].sequence < next)
  }

  /** The disks after the rotation: a known key only rewrites the catalog, a new one appends first. */
  ghost function WriteStages(d: Disk, files: seq<Range>, input: Record, next: nat, known: bool): seq<Disk> {
    if known then [Applied(d, WriteCatalog(Catalog(next, SortArchives(files))))]
    else
      var d' := Applied(d, AppendCurrent(input.(sequence := next)));
      [d', Applied(d', WriteCatalog(Catalog(next + 1, SortArchives(files))))]
  }

  /** Every disk that one `appendMessageContextToDir` passes through, its start included. `None`
      is an input without any text, which is rejected after the rotation. */
  ghost function Stages(d: Disk, listing: seq<Range>, input: Option<Record>, rotation: Rotation): seq<Disk>
  {
    var files, n := Inventory(d.catalog.archives, listing), Archivable(d.current, rotation);
    var d', files' := Rotated(d, n), RotatedFiles(d, files, n);
    RotationStages(d, n)
    + if input.None? || exists x <- files' :: x !in d'.archives then []
      else WriteStages(d', files', input.value, NextSequence(d, files), input.value.key in KeysOnDisk(d', files'))
  }

  ghost predicate Safe(stages: seq<Disk>, ledger: seq<Record>, ledger': seq<Record>) {
    && stages != []
    && (forall d <- stages :: Holds(d, ledger) || Holds(d, ledger'))
    && Holds(stages[|stages| - 1], ledger')
  }

  lemma CatalogStageHolds(d: Disk, d': Disk, ledger: seq<Record>, files: seq<Range>, next: nat)
    requires Holds(d, ledger) && NoRepeats(files) && forall x <- files :: x in d.archives
    requires d' == Applied(d, WriteCatalog(Catalog(next, SortArchives(files))))
    ensures Holds(d', ledger)
  {
    var sh := ShapeOf(d, ledger);
    SortArchivesElements(files);
    CatalogWritten(d, ledger, sh, Catalog(next, SortArchives(files)));
    HoldsWith(d', ledger, sh);
  }

  lemma AppendStageHolds(d: Disk, d': Disk, ledger: seq<Record>, longer: seq<Record>, r: Record)
    requires Holds(d, ledger) && r.key !in Keys(ledger) && NewSequence(ledger, r.sequence)
    requires d' == Applied(d, AppendCurrent(r)) && longer == ledger + [r]
    ensures Holds(d', longer)
  {
    var sh := ShapeOf(d, ledger);
    CurrentAppended(d, ledger, sh, r);
    HoldsWith(d', longer, sh);
  }

  lemma SafeOne(a: Disk, ledger: seq<Record>)
    requires Holds(a, ledger)
    ensures Safe([a], ledger, ledger)
  {
  }

  lemma SafeTwo(a: Disk, b: Disk, ledger: seq<Record>, ledger': seq<Record>)
    requires Holds(a, ledger') && Holds(b, ledger')
    ensures Safe([a, b], ledger, ledger')
  {
    forall d | d in [a, b] ensures Holds(d, ledger') {
      assert d == a || d == b;
    }
  }

  lemma AppendKeepsFiles(d: Disk, d': Disk, r: Record, files: seq<Range>)
    requires d' == Applied(d, AppendCurrent(r)) && forall x <- files :: x in d.archives
    ensures forall x <- files :: x in d'.archives
  {
  }

  /** The first write stores the record, the second one the catalog. */
  lemma NewWritesAreSafe(d: Disk, d': Disk, d'': Disk, ledger: seq<Record>, longer: seq<Record>, files: seq<Range>,
      r: Record)
    requires Holds(d, ledger) && NewSequence(ledger, r.sequence) && r.key !in Keys(ledger)
    requires NoRepeats(files) && forall x <- files :: x in d.archives
    requires d' == Applied(d, AppendCurrent(r)) && longer == ledger + [r]
    requires d'' == Applied(d', WriteCatalog(Catalog(r.sequence + 1, SortArchives(files))))
    ensures Safe([d', d''], ledger, longer)
  {
    AppendStageHolds(d, d', ledger, longer, r);
    AppendKeepsFiles(d, d', r, files);
    CatalogStageHolds(d', d'', longer, files, r.sequence + 1);
    SafeTwo(d', d'', ledger, longer);
  }

  /** A known key leaves the ledger alone and only rewrites the catalog. */
  lemma KnownWritesAreSafe(d: Disk, d': Disk, ledger: seq<Record>, files: seq<Range>, next: nat)
    requires Holds(d, ledger) && NoRepeats(files) && forall x <- files :: x in d.archives
    requires d' == Applied(d, WriteCatalog(Catalog(next, SortArchives(files))))
    ensures Safe([d'], ledger, ledger)
  {
    CatalogStageHolds(d, d', ledger, files, next);
    SafeOne(d', ledger);
  }

  lemma WritesAreSafe(d: Disk, ledger: seq<Record>, files: seq<Range>, input: Record, next: nat)
    requires Holds(d, ledger) && NewSequence(ledger, next)
    requires NoRepeats(files) && forall x <- files :: x in d.archives
    ensures Safe(WriteStages(d, files, input, next, input.key in Keys(ledger)), ledger,
            Appended(ledger, Some(input), next))
  {
    var stages := WriteStages(d, files, input, next, input.key in Keys(ledger));
    var longer := Appended(ledger, Some(input), next);
    if input.key in Keys(ledger) {
      KnownWritesAreSafe(d, stages[0], ledger, files, next);
      assert stages == [stages[0]] && longer == ledger;
    } else {
      NewWritesAreSafe(d, stages[0], stages[1], ledger, longer, files, input.(sequence := next));
      assert stages == [stages[0], stages[1]];
    }
  }

  lemma RotatedReads(d: Disk, ledger: seq<Record>, listing: seq<Range>, files: seq<Range>, n: nat)
    requires Holds(d, ledger) && n <= |d.current|
    requires Lists(listing, d.archives) && CataloguedAs(files, listing) && NoRepeats(files)
    ensures var d', files' := Rotated(d, n), RotatedFiles(d, files, n);
            && Holds(d', ledger) && NoRepeats(files')
            && (forall x <- files' :: x in d'.archives)
            && KeysOnDisk(d', files') == Keys(ledger)
            && Dedupe(Concat(d'.archives, files') + d'.current) == ledger
  {
    RotationHolds(d, ledger, n);
    RotationKeepsCatalog(d, listing, files, n);
    var d', files', listing' := Rotated(d, n), RotatedFiles(d, files, n), ListingAfter(d, listing, n);
    var sh := ShapeOf(d', ledger);
    DiskReadsAsLedger(d', ledger, sh, listing', files');
    KeysOnDiskAreLedgerKeys(d', ledger, sh, listing', files');
  }

  lemma FreshSequence(d: Disk, ledger: seq<Record>, listing: seq<Range>, files: seq<Range>)
    requires Holds(d, ledger) && Lists(listing, d.archives) && CataloguedAs(files, listing)
    ensures NewSequence(ledger, NextSequence(d, files))
  {
    var sh := ShapeOf(d, ledger);
    NextSequenceIsNew(d, ledger, sh, listing, files);
  }

  lemma SafeConcat(before: seq<Disk>, after: seq<Disk>, ledger: seq<Record>, ledger': seq<Record>)
    requires Safe(before, ledger, ledger) && Safe(after, ledger, ledger')
    ensures Safe(before + after, ledger, ledger')
  {
    assert (before + after)[|before + after| - 1] == after[|after| - 1];
  }

  lemma SafeChain(a: Disk, b: Disk, c: Disk, ledger: seq<Record>)
    requires Holds(a, ledger) && Holds(b, ledger) && Holds(c, ledger)
    ensures Safe([a], ledger, ledger) && Safe([a, b, c], ledger, ledger)
  {
    forall d | d in [a, b, c] ensures Holds(d, ledger) {
      assert d == a || d == b || d == c;
    }
  }

  lemma RotationIsSafe(d: Disk, ledger: seq<Record>, n: nat)
    requires Holds(d, ledger) && n <= |d.current|
    ensures Safe(RotationStages(d, n), ledger, ledger)
  {
    RotationHolds(d, ledger, n);
    SafeChain(d, if n == 0 then d else ArchiveStage(d, n), Rotated(d, n), ledger);
  }

  /** Stop an append at any disk it passes through: it holds the old ledger, or the old ledger
      with the new record at its end under a sequence never used before. Run to its end, it
      holds the new record exactly when its key was not there. */
  lemma StagesAreSafe(d: Disk, ledger: seq<Record>, listing: seq<Range>, input: Option<Record>, rotation: Rotation)
    requires Holds(d, ledger) && Lists(listing, d.archives)
    ensures var next := NextSequence(d, Inventory(d.catalog.archives, listing));
            && NewSequence(ledger, next)
            && Safe(Stages(d, listing, input, rotation), ledger, Appended(ledger, input, next))
  {
    var files, n := Inventory(d.catalog.archives, listing), Archivable(d.current, rotation);
    InventoryIsCatalogued(d, ledger, listing);
    FreshSequence(d, ledger, listing, files);
    RotationIsSafe(d, ledger, n);
    if input.Some? {
      RotatedReads(d, ledger, listing, files, n);
      var d', files', next := Rotated(d, n), RotatedFiles(d, files, n), NextSequence(d, files);
      WritesAreSafe(d', ledger, files', input.value, next);
      SafeConcat(RotationStages(d, n), WriteStages(d', files', input.value, next, input.value.key in Keys(ledger)),
        ledger, Appended(ledger, input, next));
    } else {
      assert Stages(d, listing, input, rotation) == RotationStages(d, n);
    }
  }

  // ---------------------------------------------------------------- whole histories

  /** One call under the writer lock, which got as far as disk number `reached`. */
  datatype Attempt = Attempt(listing: seq<Range>, input: Option<Record>, rotation: Rotation, reached: nat)

  ghost predicate Step(d: Disk, a: Attempt, d': Disk) {
    && Lists(a.listing, d.archives)
    && a.reached < |Stages(d, a.listing, a.input, a.rotation)|
    && d' == Stages(d, a.listing, a.input, a.rotation)[a.reached]
  }

  ghost predicate History(start: Disk, attempts: seq<Attempt>, end: Disk) {
    if attempts == [] then start == end
    else
      var n := |attempts| - 1;
      exists mid :: History(start, attempts[..n], mid) && Step(mid, attempts[n], end)
  }

  lemma StepExtends(d: Disk, ledger: seq<Record>, a: Attempt, d': Disk) returns (ledger': seq<Record>)
    requires Holds(d, ledger) && Step(d, a, d')
    ensures Holds(d', ledger') && ledger <= ledger'
  {
    StagesAreSafe(d, ledger, a.listing, a.input, a.rotation);
    ledger' := Appended(ledger, a.input, NextSequence(d, Inventory(d.catalog.archives, a.listing)));
    if Holds(d', ledger) {
      ledger' := ledger;
    }
  }

  /** Over any history of completed and crashed appends the ledger only grows at its end:
      no record is lost, changed or reordered. */
  lemma {:induction false} LedgerOnlyGrows(start: Disk, ledger: seq<Record>, attempts: seq<Attempt>, end: Disk)
    returns (ledger': seq<Record>)
    requires Holds(start, ledger) && History(start, attempts, end)
    ensures Holds(end, ledger') && ledger <= ledger'
  {
    if attempts == [] {
      ledger' := ledger;
    } else {
      var n := |attempts| - 1;
      var mid :| History(start, attempts[..n], mid) && Step(mid, attempts[n], end);
      var grown := LedgerOnlyGrows(start, ledger, attempts[..n], mid);
      ledger' := StepExtends(mid, grown, attempts[n], end);
    }
  }

  /** An imported directory without any message. */
  const Empty := Disk(map[], [], Catalog(1, []))

  lemma EmptyHoldsNothing()
    ensures Holds(Empty, [])
  {
    HoldsWith(Empty, [], Shape(map[], 0, 0));
  }

  /** Reading a disk gives exactly its ledger, in append order with strictly increasing
      sequences and one record per key. */
  lemma ReadsAsLedger(d: Disk, ledger: seq<Record>, listing: seq<Range>)
    requires Holds(d, ledger) && Lists(listing, d.archives)
    ensures var files := Inventory(d.catalog.archives, listing);
            && (forall x <- files :: x in d.archives)
            && Dedupe(Concat(d.archives, files) + d.current) == ledger
    ensures DistinctKeys(ledger)
    ensures forall i, j :: 0 <= i < j < |ledger| ==> ledger[i].sequence < ledger[j].sequence
  {
    var files := Inventory(d.catalog.archives, listing);
    InventoryIsCatalogued(d, ledger, listing);
    var sh := ShapeOf(d, ledger);
    DiskReadsAsLedger(d, ledger, sh, listing, files);
    DedupeOwnsEveryKey(Concat(d.archives, files) + d.current);
    forall i, j | 0 <= i < j < |ledger| ensures ledger[i].sequence < ledger[j].sequence {
      GrowingAt(ledger, i, j);
    }
  }

  /** Whatever happened before, what a reader sees once it keeps seeing: extending a history only
      adds records behind those that were there. */
  lemma ReadsOnlyGrow(attempts: seq<Attempt>, mid: Disk, more: seq<Attempt>, end: Disk, seen: seq<Range>,
      listing: seq<Range>)
    requires History(Empty, attempts, mid) && History(mid, more, end)
    requires Lists(seen, mid.archives) && Lists(listing, end.archives)
    ensures forall x <- Inventory(mid.catalog.archives, seen) :: x in mid.archives
    ensures forall x <- Inventory(end.catalog.archives, listing) :: x in end.archives
    ensures Dedupe(Concat(mid.archives, Inventory(mid.catalog.archives, seen)) + mid.current)
         <= Dedupe(Concat(end.archives, Inventory(end.catalog.archives, listing)) + end.current)
  {
    EmptyHoldsNothing();
    var first := LedgerOnlyGrows(Empty, [], attempts, mid);
    var last := LedgerOnlyGrows(mid, first, more, end);
    ReadsAsLedger(mid, first, seen);
    ReadsAsLedger(end, last, listing);
  }
}
