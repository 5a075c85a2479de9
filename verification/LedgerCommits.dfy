/** What a completed append reports to the index: the evidence that a snapshot is later cut by. */
module LedgerCommits {
  import opened Records
  import opened FirstWrite
  import opened ArchiveRanges
  import opened LedgerFiles
  import opened LedgerAppend
  import opened LedgerCrash
  import LedgerDirectory
  import AppendProof

  type Stamp = AppendProof.Stamp

  /** The versions that one append reads: of the current file when it starts, after a rotation, and
      at its end; of the catalog before and after; and the layout of the archives. */
  datatype Versions = Versions(captured: Stamp, base: Stamp, after: Stamp, beforeCatalog: Option<Stamp>,
    catalog: Option<Stamp>, layout: string)

  /** The versions tell what the current file held at those moments. */
  ghost predicate Truthful(v: Versions, d: Disk, rotation: Rotation, d': Disk, world: Stamp -> seq<Record>) {
    && world(v.captured) == d.current
    && world(v.base) == Rotated(d, Archivable(d.current, rotation)).current
    && world(v.after) == d'.current
  }

  /** The commit of an append that is completed; a rotation or a foreign change of the file leaves
      nothing to report. `appended` is false for a message that was stored before. */
  function CommitOf(current: seq<Record>, rotation: Rotation, appended: bool, v: Versions): Option<AppendProof.Commit> {
    if Archivable(current, rotation) > 0 || v.base != v.captured then None
    else if appended then
      Some(AppendProof.Commit(v.base, v.after, |current|, |current| + 1, v.layout, v.beforeCatalog, v.catalog))
    else
      Some(AppendProof.Commit(v.base, v.base, |current|, |current|, v.layout, v.beforeCatalog, v.catalog))
  }

  /** Without a rotation, the current file only changes by the new record at its end. */
  lemma CurrentOfCompleted(d: Disk, ledger: seq<Record>, listing: seq<Range>, input: Record, rotation: Rotation,
      result: Option<LedgerDirectory.AppendResult>, passed: seq<Disk>, d': Disk, ledger': seq<Record>)
    requires Holds(d, ledger) && Lists(listing, d.archives) && Archivable(d.current, rotation) == 0
    requires LedgerDirectory.Completed(d, ledger, listing, Some(input), rotation, result, passed, d', ledger')
    ensures result.Some?
    ensures d'.current == d.current + if result.value.appended then [result.value.record] else []
  {
    LedgerDirectory.AppendIsPlanned(d, ledger, listing, Some(input), rotation);
    var files := Inventory(d.catalog.archives, listing);
    var writes := WriteStages(d, files, input, NextSequence(d, files), input.key in Keys(ledger));
    assert passed == RotationStages(d, 0) + writes;
    assert passed[|passed| - 1] == writes[|writes| - 1];
  }

  /** What a completed append reports is true of the files, and it says nothing only after a
      rotation or when someone else changed the file. */
  lemma CommitIsHonest(d: Disk, ledger: seq<Record>, listing: seq<Range>, input: Record, rotation: Rotation,
      result: Option<LedgerDirectory.AppendResult>, passed: seq<Disk>, d': Disk, ledger': seq<Record>, v: Versions,
      world: Stamp -> seq<Record>)
    requires Holds(d, ledger) && Lists(listing, d.archives)
    requires LedgerDirectory.Completed(d, ledger, listing, Some(input), rotation, result, passed, d', ledger')
    requires Truthful(v, d, rotation, d', world)
    ensures result.Some?
    ensures var commit := CommitOf(d.current, rotation, result.value.appended, v);
            && (commit.Some? ==> AppendProof.Honest(commit.value, world))
            && (commit.Some? <==> Archivable(d.current, rotation) == 0 && v.base == v.captured)
            && (commit.Some? ==>
                  && commit.value.before == v.captured
                  && commit.value.after == (if result.value.appended then v.after else v.captured)
                  && commit.value.layout == v.layout
                  && commit.value.beforeCatalog == v.beforeCatalog && commit.value.catalog == v.catalog)
  {
    if Archivable(d.current, rotation) == 0 {
      CurrentOfCompleted(d, ledger, listing, input, rotation, result, passed, d', ledger');
    }
  }

  ghost predicate AllHonest(commits: seq<AppendProof.Commit>, world: Stamp -> seq<Record>) {
    forall c <- commits :: AppendProof.Honest(c, world)
  }

  /** An append and its report. `version` is the stamp of a file with the given records; with
      distinct stamps, every commit that the registry was told of stays true of the files. */
  method AppendAndReport(directory: LedgerDirectory.LedgerDirectory, registry: AppendProof.ProofRegistry, name: string,
      listing: seq<Range>, input: Option<Record>, rotation: Rotation, hint: (seq<Record>, string) -> bool,
      version: seq<Record> -> Stamp, beforeCatalog: Option<Stamp>, catalog: Option<Stamp>, layout: string,
      ghost world: Stamp -> seq<Record>)
    returns (result: Option<LedgerDirectory.AppendResult>)
    requires directory.Valid() && Lists(listing, directory.archives) && LedgerDirectory.NeverMisses(hint)
    requires registry.Valid() && AllHonest(AppendProof.Reported(registry.history, name), world)
    requires forall records :: world(version(records)) == records
    modifies directory, registry
    ensures directory.Valid() && registry.Valid()
    ensures LedgerDirectory.Completed(old(directory.Now()), old(directory.ledger), listing, input, rotation, result,
                                      directory.passed, directory.Now(), directory.ledger)
    ensures AllHonest(AppendProof.Reported(registry.history, name), world)
    ensures input.Some? && Archivable(old(directory.current), rotation) == 0
            ==> |AppendProof.Reported(registry.history, name)|
                == |AppendProof.Reported(old(registry.history), name)| + 1
  {
    ghost var d, was := directory.Now(), directory.ledger;
    var before := directory.current;
    var captured := version(before);
    result := directory.AppendMessageContext(listing, input, rotation, hint);
    if input.Some? {
      var n := Archivable(before, rotation);
      var base := if n == 0 then captured else version(before[n..]);
      var v := Versions(captured, base, version(directory.current), beforeCatalog, catalog, layout);
      CommitIsHonest(d, was, listing, input.value, rotation, result, directory.passed, directory.Now(),
                     directory.ledger, v, world);
      var commit := CommitOf(before, rotation, result.value.appended, v);
      if commit.Some? {
        registry.Remember(name, commit.value);
      }
    }
  }
}
