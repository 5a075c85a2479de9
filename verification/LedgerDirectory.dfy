/** The message ledger's directory, appended to in place. */
module LedgerDirectory {
  import opened Records
  import opened FirstWrite
  import opened ArchiveRanges
  import opened LedgerFiles
  import opened LedgerAppend
  import opened LedgerCrash

  function FirstWith(s: seq<Record>, key: string): Option<Record> {
    if s == [] then None
    else
      var n := |s| - 1;
      var earlier := FirstWith(s[..n], key);
      if earlier.Some? then earlier else if s[n].key == key then Some(s[n]) else None
  }

  lemma {:induction false} FirstWithAppend(s: seq<Record>, t: seq<Record>, key: string)
    ensures FirstWith(s + t, key) == if FirstWith(s, key).Some? then FirstWith(s, key) else FirstWith(t, key)
  {
    if t == [] {
      assert s + t == s;
    } else {
      var n := |t| - 1;
      FirstWithAppend(s, t[..n], key);
      assert (s + t)[..|s + t| - 1] == s + t[..n];
    }
  }

  /** The first record with a key is the one that owns it. */
  lemma {:induction false} FirstWithOwns(s: seq<Record>, key: string)
    ensures FirstWith(s, key).Some? <==> key in Keys(s)
    ensures FirstWith(s, key).Some? ==> FirstWith(s, key).value in Dedupe(s) && FirstWith(s, key).value.key == key
  {
    if s != [] {
      var n := |s| - 1;
      FirstWithOwns(s[..n], key);
      assert s == s[..n] + [s[n]];
      KeysAppend(s[..n], [s[n]]);
    }
  }

  /** `archiveMayContain` never rules out a file that holds the key. */
  ghost predicate NeverMisses(hint: (seq<Record>, string) -> bool) {
    forall content, key :: key in Keys(content) ==> hint(content, key)
  }

  /** The first `n` records lie in the archive of their sequences; an archive of that name that was
      there before is left alone, like every other one. */
  ghost predicate MovedTo(records: seq<Record>, n: nat, archives: map<Range, seq<Record>>,
      archives': map<Range, seq<Record>>)
    requires 0 < n <= |records|
  {
    exists x: Range ::
      && x.first == records[0].sequence && x.last == records[n - 1].sequence
      && archives' == if x in archives then archives else archives[x := records[..n]]
  }

  datatype AppendResult = AppendResult(record: Record, appended: bool)

  class LedgerDirectory {
    var archives: map<Range, seq<Record>>
    var current: seq<Record>
    var catalog: Catalog
    /** The conversation that the files stand for. */
    ghost var ledger: seq<Record>
    /** The disks between the file writes of the latest append, oldest first. */
    ghost var passed: seq<Disk>

    function Now(): Disk
      reads this
    {
      Disk(archives, current, catalog)
    }

    ghost predicate Valid()
      reads this
    {
      Holds(Now(), ledger)
    }

    constructor ()
      ensures Valid() && ledger == [] && Now() == Empty
    {
      archives, current, catalog := map[], [], Catalog(1, []);
      ledger, passed := [], [];
      new;
      EmptyHoldsNothing();
    }

    method ReadArchiveIndex(listing: seq<Range>) returns (files: seq<Range>)
      ensures files == Inventory(catalog.archives, listing)
    {
      var discovered := CompactContainedArchives(Unknown(catalog.archives, listing));
      files := SortedArchives(catalog.archives + discovered);
    }

    static method SortedArchives(items: seq<Range>) returns (files: seq<Range>)
      ensures files == SortArchives(items)
    {
      var kept := CompactContainedArchives(items);
      files := SortRanges(kept);
    }

    /** Move the old enough leading records of the current file into an archive file. */
    method ArchiveEligiblePrefix(files: seq<Range>, rotation: Rotation) returns (files': seq<Range>)
      requires passed == [Now()]
      modifies this
      ensures var n := Archivable(old(current), rotation);
              && Now() == Rotated(old(Now()), n)
              && files' == RotatedFiles(old(Now()), files, n)
              && passed == RotationStages(old(Now()), n)
      ensures ledger == old(ledger)
      ensures exists n: nat :: RightPrefix(old(current), rotation, n) && current == old(current)[n..]
                          && (n == 0 ==> archives == old(archives))
                          && (0 < n ==> MovedTo(old(current), n, old(archives), archives))
    {
      files' := files;
      var prefix := EligiblePrefix(rotation);
      if prefix > 0 {
        var x := RotationFile(current, prefix);
        files' := SortedArchives(WithoutFile(files, x) + [x]);
        MovePrefix(prefix);
      }
      assert current == old(current)[prefix..];
    }

    /** The archive file first, unless it is there already; then the rest of the current file. */
    method MovePrefix(prefix: nat)
      requires 0 < prefix <= |current|
      modifies this
      ensures Now() == Rotated(old(Now()), prefix) && ledger == old(ledger)
      ensures passed == old(passed) + [ArchiveStage(old(Now()), prefix), Rotated(old(Now()), prefix)]
    {
      var x := RotationFile(current, prefix);
      if x !in archives {
        archives := archives[x := current[..prefix]];
      }
      passed := passed + [Now()];
      current := current[prefix..];
      passed := passed + [Now()];
    }

    /** How many leading records are old enough to move, if the rotation is due. */
    method EligiblePrefix(rotation: Rotation) returns (prefix: nat)
      ensures prefix == Archivable(current, rotation) <= |current|
      ensures RightPrefix(current, rotation, prefix)
    {
      ArchivableIsRight(current, rotation);
      if rotation.Off? || forall r <- current :: r.time > rotation.triggerBefore {
        return 0;
      }
      prefix := LeadingRun(rotation.includeBefore);
      if prefix == 0 || current[0].sequence == 0 || current[prefix - 1].sequence == 0 {
        return 0;
      }
    }

    method LeadingRun(includeBefore: int) returns (prefix: nat)
      ensures prefix == PrefixLength(current, includeBefore) <= |current|
    {
      prefix := 0;
      while prefix < |current| && current[prefix].time <= includeBefore
        invariant prefix <= |current|
        invariant PrefixLength(current, includeBefore) == prefix + PrefixLength(current[prefix..], includeBefore)
      {
        assert current[prefix..][1..] == current[prefix + 1..];
        prefix := prefix + 1;
      }
    }

    /** Look through the archives whose hint does not rule the key out, then the current file. */
    method FindExistingRecord(files: seq<Range>, key: string, hint: (seq<Record>, string) -> bool)
        returns (existing: Option<Record>)
      requires (forall x <- files :: x in archives) && NeverMisses(hint)
      ensures existing == FirstWith(Concat(archives, files) + current, key)
    {
      FirstWithAppend(Concat(archives, files), current, key);
      for i := 0 to |files|
        invariant FirstWith(Concat(archives, files[..i]), key) == None
      {
        var content := archives[files[i]];
        FirstWithOwns(content, key);
        ConcatStep(archives, files, i);
        FirstWithAppend(Concat(archives, files[..i]), content, key);
        if hint(content, key) {
          var archived := FirstWith(content, key);
          if archived.Some? {
            ConcatPrefix(archives, files, i + 1, key);
            return archived;
          }
        }
      }
      assert files[..|files|] == files;
      return FirstWith(current, key);
    }

    /** The writes after the rotation. */
    method WriteRecord(files: seq<Range>, input: Record, next: nat, existing: Option<Record>)
        returns (result: AppendResult)
      modifies this
      ensures passed == old(passed) + WriteStages(old(Now()), files, input, next, existing.Some?)
      ensures passed[|passed| - 1] == Now()
      ensures archives == old(archives)
      ensures current == old(current) + if existing.Some? then [] else [input.(sequence := next)]
      ensures ledger == if existing.Some? then old(ledger) else old(ledger) + [input.(sequence := next)]
      ensures result == if existing.Some? then AppendResult(existing.value, false)
                        else AppendResult(input.(sequence := next), true)
    {
      var sorted := SortedArchives(files);
      if existing.Some? {
        catalog := Catalog(next, sorted);
        passed := passed + [Now()];
        return AppendResult(existing.value, false);
      }
      var candidate := input.(sequence := next);
      current := current + [candidate];
      passed := passed + [Now()];
      catalog := Catalog(next + 1, sorted);
      passed := passed + [Now()];
      ledger := ledger + [candidate];
      result := AppendResult(candidate, true);
    }

    /** `appendMessageContextToDir`. */
    method AppendMessageContext(listing: seq<Range>, input: Option<Record>, rotation: Rotation,
        hint: (seq<Record>, string) -> bool)
      returns (result: Option<AppendResult>)
      requires Valid() && Lists(listing, archives) && NeverMisses(hint)
      modifies this
      ensures Valid()
      ensures Completed(old(Now()), old(ledger), listing, input, rotation, result, passed, Now(), ledger)
      ensures exists n: nat ::
                RightPrefix(old(current), rotation, n)
                && current == old(current)[n..]
                   + if result.Some? && result.value.appended then [result.value.record] else []
    {
      ghost var before, was := Now(), ledger;
      passed := [Now()];
      RotatedFilesExist(before, was, listing, rotation);
      var files := ReadArchiveIndex(listing);
      var next := NextSequence(Now(), files);
      files := ArchiveEligiblePrefix(files, rotation);
      if input.None? {
        result := None;
      } else {
        var existing := FindExistingRecord(files, input.value.key, hint);
        var written := WriteRecord(files, input.value, next, existing);
        result := Some(written);
      }
      AppendCompletes(before, was, listing, input, rotation, result, passed, Now(), ledger);
    }
  }

  /** A new key is appended under a fresh sequence, a known one answers with the record that owns
      it, and every disk on the way is safe to stop at. */
  ghost predicate Completed(
    d: Disk, ledger: seq<Record>, listing: seq<Range>, input: Option<Record>, rotation: Rotation,
    result: Option<AppendResult>, passed: seq<Disk>, d': Disk, ledger': seq<Record>)
  {
    var next := NextSequence(d, Inventory(d.catalog.archives, listing));
    && NewSequence(ledger, next)
    && ledger' == Appended(ledger, input, next)
    && Answers(ledger, input, next, result)
    && passed == Stages(d, listing, input, rotation)
    && Safe(passed, ledger, ledger')
    && passed[|passed| - 1] == d'
  }

  /** The disk after the rotation, as the rest of the append sees it. */
  ghost predicate Planned(d: Disk, files: seq<Range>, ledger: seq<Record>, key: string) {
    && (forall x <- files :: x in d.archives)
    && var found := FirstWith(Concat(d.archives, files) + d.current, key);
       && (found.Some? <==> key in Keys(ledger))
       && (found.Some? ==> found.value in ledger && found.value.key == key)
  }

  lemma RotatedIsPlanned(d: Disk, ledger: seq<Record>, listing: seq<Range>, files: seq<Range>, n: nat, key: string)
    requires Holds(d, ledger) && n <= |d.current|
    requires Lists(listing, d.archives) && CataloguedAs(files, listing) && NoRepeats(files)
    ensures Planned(Rotated(d, n), RotatedFiles(d, files, n), ledger, key)
    ensures KeysOnDisk(Rotated(d, n), RotatedFiles(d, files, n)) == Keys(ledger)
  {
    RotatedReads(d, ledger, listing, files, n);
    FirstWithOwns(Concat(Rotated(d, n).archives, RotatedFiles(d, files, n)) + Rotated(d, n).current, key);
  }

  lemma RotatedFilesExist(d: Disk, ledger: seq<Record>, listing: seq<Range>, rotation: Rotation)
    requires Holds(d, ledger) && Lists(listing, d.archives)
    ensures var files, n := Inventory(d.catalog.archives, listing), Archivable(d.current, rotation);
            forall x <- RotatedFiles(d, files, n) :: x in Rotated(d, n).archives
  {
    InventoryIsCatalogued(d, ledger, listing);
    RotatedReads(d, ledger, listing, Inventory(d.catalog.archives, listing), Archivable(d.current, rotation));
  }

  lemma AppendIsPlanned(d: Disk, ledger: seq<Record>, listing: seq<Range>, input: Option<Record>, rotation: Rotation)
    requires Holds(d, ledger) && Lists(listing, d.archives)
    ensures var files, n := Inventory(d.catalog.archives, listing), Archivable(d.current, rotation);
            && NewSequence(ledger, NextSequence(d, files))
            && Safe(Stages(d, listing, input, rotation), ledger, Appended(ledger, input, NextSequence(d, files)))
            && if input.None? then Stages(d, listing, input, rotation) == RotationStages(d, n)
               else
                 var d', files' := Rotated(d, n), RotatedFiles(d, files, n);
                 && Planned(d', files', ledger, input.value.key)
                 && Stages(d, listing, input, rotation)
                    == RotationStages(d, n) + WriteStages(d', files', input.value, NextSequence(d, files),
                      input.value.key in Keys(ledger))
  {
    StagesAreSafe(d, ledger, listing, input, rotation);
    InventoryIsCatalogued(d, ledger, listing);
    if input.Some? {
      RotatedIsPlanned(d, ledger, listing, Inventory(d.catalog.archives, listing), Archivable(d.current, rotation),
        input.value.key);
    }
  }

  /** The tail of an append does what its plan says. */
  ghost predicate Followed(
    d: Disk, ledger: seq<Record>, listing: seq<Range>, input: Option<Record>, rotation: Rotation,
    result: Option<AppendResult>, passed: seq<Disk>, d': Disk, ledger': seq<Record>)
  {
    var files, n := Inventory(d.catalog.archives, listing), Archivable(d.current, rotation);
    var rotated, files', next := Rotated(d, n), RotatedFiles(d, files, n), NextSequence(d, files);
    && passed != [] && passed[|passed| - 1] == d'
    && if input.None? then result.None? && ledger' == ledger && passed == RotationStages(d, n)
       else
         && (forall x <- files' :: x in rotated.archives)
         && var existing := FirstWith(Concat(rotated.archives, files') + rotated.current, input.value.key);
            && passed == RotationStages(d, n) + WriteStages(rotated, files', input.value, next, existing.Some?)
            && if existing.Some? then ledger' == ledger && result == Some(AppendResult(existing.value, false))
               else var r := input.value.(sequence := next);
                    ledger' == ledger + [r] && result == Some(AppendResult(r, true))
  }

  lemma AppendCompletes(
    d: Disk, ledger: seq<Record>, listing: seq<Range>, input: Option<Record>, rotation: Rotation,
    result: Option<AppendResult>, passed: seq<Disk>, d': Disk, ledger': seq<Record>)
    requires Holds(d, ledger) && Lists(listing, d.archives)
    requires Followed(d, ledger, listing, input, rotation, result, passed, d', ledger')
    ensures Completed(d, ledger, listing, input, rotation, result, passed, d', ledger')
    ensures Holds(d', ledger')
  {
    AppendIsPlanned(d, ledger, listing, input, rotation);
    assert ledger' == Appended(ledger, input, NextSequence(d, Inventory(d.catalog.archives, listing)));
    assert passed == Stages(d, listing, input, rotation);
  }

  /** A known key answers with its owner, a new one with the record just stored. */
  ghost predicate Answers(ledger: seq<Record>, input: Option<Record>, next: nat, result: Option<AppendResult>) {
    if input.None? then result.None?
    else
      && result.Some?
      && var r := result.value;
         if input.value.key in Keys(ledger)
         then !r.appended && r.record in ledger && r.record.key == input.value.key
         else r == AppendResult(input.value.(sequence := next), true)
  }

  lemma ConcatStep(archives: map<Range, seq<Record>>, files: seq<Range>, i: nat)
    requires (forall x <- files :: x in archives) && i < |files|
    ensures Concat(archives, files[..i + 1]) == Concat(archives, files[..i]) + archives[files[i]]
  {
    assert files[..i + 1][..i] == files[..i];
  }

  /** What an earlier file answers, the whole concatenation answers. */
  lemma {:induction false} ConcatPrefix(archives: map<Range, seq<Record>>, files: seq<Range>, i: nat, key: string)
    requires (forall x <- files :: x in archives) && i <= |files|
    requires FirstWith(Concat(archives, files[..i]), key).Some?
    ensures FirstWith(Concat(archives, files), key) == FirstWith(Concat(archives, files[..i]), key)
    decreases |files| - i
  {
    if i == |files| {
      assert files[..i] == files;
    } else {
      ConcatStep(archives, files, i);
      FirstWithAppend(Concat(archives, files[..i]), archives[files[i]], key);
      ConcatPrefix(archives, files, i + 1, key);
    }
  }
}
