/** Reading the ledger without the writer lock: the current file, the catalog, the directory and
    the archive files are read one after the other while appends go on between the reads. */
module LedgerReaders {
  import opened Records
  import opened FirstWrite
  import opened ArchiveRanges
  import opened LedgerFiles
  import opened LedgerAppend
  import opened LedgerCrash

  // ---------------------------------------------------------------- archives stay

  lemma RotationKeepsArchives(d: Disk, n: nat)
    requires n <= |d.current|
    ensures d.archives.Keys <= Rotated(d, n).archives.Keys
    ensures forall s <- RotationStages(d, n) :: d.archives.Keys <= s.archives.Keys
  {
  }

  lemma WritesKeepArchives(d: Disk, files: seq<Range>, input: Record, next: nat, known: bool)
    ensures forall s <- WriteStages(d, files, input, next, known) :: s.archives == d.archives
  {
  }

  lemma StagesKeepArchives(d: Disk, listing: seq<Range>, input: Option<Record>, rotation: Rotation)
    ensures forall s <- Stages(d, listing, input, rotation) :: d.archives.Keys <= s.archives.Keys
  {
    var files, n := Inventory(d.catalog.archives, listing), Archivable(d.current, rotation);
    var d', files' := Rotated(d, n), RotatedFiles(d, files, n);
    RotationKeepsArchives(d, n);
    if input.Some? && forall x <- files' :: x in d'.archives {
      WritesKeepArchives(d', files', input.value, NextSequence(d, files), input.value.key in KeysOnDisk(d', files'));
    }
  }

  /** No archive file ever goes away. */
  lemma {:induction false} HistoryKeepsArchives(start: Disk, attempts: seq<Attempt>, end: Disk)
    requires History(start, attempts, end)
    ensures start.archives.Keys <= end.archives.Keys
  {
    if attempts != [] {
      var n := |attempts| - 1;
      var a := attempts[n];
      var mid :| History(start, attempts[..n], mid) && Step(mid, a, end);
      HistoryKeepsArchives(start, attempts[..n], mid);
      StagesKeepArchives(mid, a.listing, a.input, a.rotation);
      assert end in Stages(mid, a.listing, a.input, a.rotation);
    }
  }

  // ---------------------------------------------------------------- and keep what they hold

  /** A file holds the same part of the ledger at both times. */
  lemma FileIsTheSame(ledger: seq<Record>, sh: Shape, content: seq<Record>, longer: seq<Record>, sh': Shape,
      content': seq<Record>, x: Range)
    requires Growing(longer) && ledger <= longer
    requires FileGood(ledger, sh, x, content) && FileGood(longer, sh', x, content')
    ensures sh'.at[x] == sh.at[x] && content' == content
  {
    var i, j := sh.at[x].0, sh.at[x].1;
    assert longer[i] == ledger[i] && longer[j - 1] == ledger[j - 1];
    GrowingIsDistinct(longer);
    RangeNamesSlice(longer, sh', x, content', i, j);
    assert longer[i..j] == ledger[i..j];
  }

  lemma ArchivesAreTheSame(d: Disk, ledger: seq<Record>, sh: Shape, d': Disk, longer: seq<Record>, sh': Shape, x: Range)
    requires Stores(d, ledger, sh) && Stores(d', longer, sh') && ledger <= longer
    requires x in d.archives && x in d'.archives
    ensures x in sh.at && x in sh'.at && sh'.at[x] == sh.at[x] && d'.archives[x] == d.archives[x]
  {
    FileIsTheSame(ledger, sh, d.archives[x], longer, sh', d'.archives[x], x);
  }

  /** What was archived stays archived. */
  lemma ArchivedPartGrows(d: Disk, ledger: seq<Record>, sh: Shape, d': Disk, longer: seq<Record>, sh': Shape)
    requires Stores(d, ledger, sh) && Stores(d', longer, sh') && ledger <= longer
    requires d.archives.Keys <= d'.archives.Keys
    ensures sh.covered <= sh'.covered
  {
    if sh.covered > 0 {
      assert Archived(sh, sh.covered - 1);
      var x :| HoldsPosition(sh, x, sh.covered - 1);
      ArchivesAreTheSame(d, ledger, sh, d', longer, sh', x);
      assert FileGood(longer, sh', x, d'.archives[x]);
    }
  }

  lemma {:induction false} ConcatStays(d: Disk, ledger: seq<Record>, sh: Shape, d': Disk, longer: seq<Record>,
      sh': Shape, files: seq<Range>)
    requires Stores(d, ledger, sh) && Stores(d', longer, sh') && ledger <= longer && d.archives.Keys <= d'.archives.Keys
    requires forall x <- files :: x in d.archives
    ensures forall x <- files :: x in d'.archives
    ensures Concat(d'.archives, files) == Concat(d.archives, files)
  {
    if files != [] {
      var n := |files| - 1;
      ConcatStays(d, ledger, sh, d', longer, sh', files[..n]);
      ArchivesAreTheSame(d, ledger, sh, d', longer, sh', files[n]);
    }
  }

  // ---------------------------------------------------------------- one unlocked read

  /** Archives that cover the ledger up to `covered`, then an older current file that began inside
      them: the dedupe is the ledger up to whichever reaches further. */
  lemma OlderCurrentExtends(archived: seq<Record>, ledger: seq<Record>, covered: nat, older: seq<Record>, kept: nat)
    requires Growing(ledger) && older <= ledger && kept <= covered <= |ledger| && kept <= |older|
    requires Dedupe(archived) == ledger[..covered]
    ensures Dedupe(archived + older[kept..]) == ledger[..Larger(covered, |older|)]
  {
    assert older[kept..] == ledger[kept..|older|];
    DedupeExtends(archived, ledger, covered, kept, |older|, archived + older[kept..]);
  }

  /** The inventory out of an older catalog and a newer directory is that of the directory. */
  lemma InventoryOfLaterListing(d: Disk, ledger: seq<Record>, sh: Shape, known: seq<Range>, listing: seq<Range>)
    requires Stores(d, ledger, sh) && Lists(listing, d.archives)
    requires NoRepeats(known) && forall x <- known :: x in d.archives
    ensures CataloguedAs(Inventory(known, listing), listing)
  {
    InventoryIsMaximalFiles(known, listing);
  }

  lemma ReadOfStored(early: Disk, older: seq<Record>, sh0: Shape, d: Disk, ledger: seq<Record>, sh: Shape,
                     known: seq<Range>, listing: seq<Range>)
    returns (m: nat)
    requires Stores(early, older, sh0) && Stores(d, ledger, sh) && older <= ledger
    requires early.archives.Keys <= d.archives.Keys
    requires Lists(listing, d.archives) && NoRepeats(known) && forall x <- known :: x in d.archives
    ensures |older| <= m <= |ledger|
    ensures forall x <- Inventory(known, listing) :: x in d.archives
    ensures Dedupe(Concat(d.archives, Inventory(known, listing)) + early.current) == ledger[..m]
  {
    var files := Inventory(known, listing);
    m := Larger(sh.covered, |older|);
    InventoryOfLaterListing(d, ledger, sh, known, listing);
    CatalogReadsAsPrefix(d.archives, ledger, sh, listing, files);
    ArchivedPartGrows(early, older, sh0, d, ledger, sh);
    OlderCurrentExtends(Concat(d.archives, files), ledger, sh.covered, older, sh0.kept);
  }

  /** The current file is read first, then the catalog, then the directory, then the archive
      files, with any appends and crashes between them. The first writes that come out are the
      ledger as it stood when the current file was read, perhaps with records behind it that were
      appended before the directory was read: nothing is missing, and nothing is out of order. */
  lemma UnlockedReadIsPrefix(h0: seq<Attempt>, early: Disk, h1: seq<Attempt>, catalogued: Disk, h2: seq<Attempt>,
      listed: Disk, h3: seq<Attempt>, bodies: Disk, listing: seq<Range>)
    returns (older: seq<Record>, seen: seq<Record>, ledger: seq<Record>)
    requires History(Empty, h0, early) && History(early, h1, catalogued) && History(catalogued, h2, listed)
             && History(listed, h3, bodies)
    requires Lists(listing, listed.archives)
    ensures Holds(early, older) && Holds(listed, ledger) && older <= seen <= ledger
    ensures var files := Inventory(catalogued.catalog.archives, listing);
            && (forall x <- files :: x in bodies.archives)
            && Dedupe(Concat(bodies.archives, files) + early.current) == seen
  {
    EmptyHoldsNothing();
    older := LedgerOnlyGrows(Empty, [], h0, early);
    var middle := LedgerOnlyGrows(early, older, h1, catalogued);
    ledger := LedgerOnlyGrows(catalogued, middle, h2, listed);
    var last := LedgerOnlyGrows(listed, ledger, h3, bodies);
    HistoryKeepsArchives(early, h1, catalogued);
    HistoryKeepsArchives(catalogued, h2, listed);
    HistoryKeepsArchives(listed, h3, bodies);
    CatalogNamesArchives(catalogued, middle);
    var known := catalogued.catalog.archives;
    seen := ReadAtListing(early, older, listed, ledger, known, listing);
    BodiesStay(listed, ledger, bodies, last, Inventory(known, listing));
  }

  lemma CatalogNamesArchives(d: Disk, ledger: seq<Record>)
    requires Holds(d, ledger)
    ensures NoRepeats(d.catalog.archives) && forall x <- d.catalog.archives :: x in d.archives
  {
    var sh := ShapeOf(d, ledger);
  }

  lemma ReadAtListing(early: Disk, older: seq<Record>, listed: Disk, ledger: seq<Record>, known: seq<Range>,
      listing: seq<Range>)
    returns (seen: seq<Record>)
    requires Holds(early, older) && Holds(listed, ledger) && older <= ledger
    requires early.archives.Keys <= listed.archives.Keys && Lists(listing, listed.archives)
    requires NoRepeats(known) && forall x <- known :: x in listed.archives
    ensures older <= seen <= ledger
    ensures forall x <- Inventory(known, listing) :: x in listed.archives
    ensures Dedupe(Concat(listed.archives, Inventory(known, listing)) + early.current) == seen
  {
    var sh0 := ShapeOf(early, older);
    var sh := ShapeOf(listed, ledger);
    var m := ReadOfStored(early, older, sh0, listed, ledger, sh, known, listing);
    seen := ledger[..m];
  }

  lemma BodiesStay(listed: Disk, ledger: seq<Record>, bodies: Disk, last: seq<Record>, files: seq<Range>)
    requires Holds(listed, ledger) && Holds(bodies, last) && ledger <= last
             && listed.archives.Keys <= bodies.archives.Keys
    requires forall x <- files :: x in listed.archives
    ensures forall x <- files :: x in bodies.archives
    ensures Concat(bodies.archives, files) == Concat(listed.archives, files)
  {
    var sh := ShapeOf(listed, ledger);
    var sh' := ShapeOf(bodies, last);
    ConcatStays(listed, ledger, sh, bodies, last, sh', files);
  }
}
