/** The ledger's key search with the duplicate filters that its archives carry. */
module LedgerFilters {
  import opened Records
  import opened FirstWrite
  import opened ArchiveRanges
  import opened ArchiveHints
  import opened LedgerFiles
  import opened LedgerAppend
  import opened LedgerCrash
  import LedgerDirectory

  /** The filter of a file with this content; a file without a usable one has none. */
  type Filters = seq<Record> -> Option<Hint>

  ghost predicate AllDescribe(hash: KeyHash, filters: Filters) {
    forall content: seq<Record> :: filters(content).Some? ==> Describes(hash, filters(content).value, content)
  }

  /** `archiveMayContain`: without a usable filter every key may be there. */
  function Probe(hash: KeyHash, filters: Filters): (seq<Record>, string) -> bool {
    (content: seq<Record>, key: string) =>
      var hint := filters(content);
      hint.None? || hint.value.bits == [] || MayContain(hash, hint.value.bits, key)
  }

  /** Filters that describe their files never rule out a key that is there. */
  lemma DescribedFiltersNeverMiss(hash: KeyHash, filters: Filters)
    requires AllDescribe(hash, filters)
    ensures LedgerDirectory.NeverMisses(Probe(hash, filters))
  {
    forall content: seq<Record>, key | key in Keys(content) ensures Probe(hash, filters)(content, key) {
      var hint := filters(content);
      if hint.Some? && hint.value.bits != [] {
        var r :| r in content && r.key == key;
        HintNeverMissesStoredKey(hash, hint.value, content, r);
      }
    }
  }

  /** An append whose key search skips archives by their filters. */
  method AppendWithFilters(directory: LedgerDirectory.LedgerDirectory, listing: seq<Range>, input: Option<Record>,
                           rotation: Rotation, hash: KeyHash, filters: Filters)
    returns (result: Option<LedgerDirectory.AppendResult>)
    requires directory.Valid() && Lists(listing, directory.archives) && AllDescribe(hash, filters)
    modifies directory
    ensures directory.Valid()
    ensures LedgerDirectory.Completed(old(directory.Now()), old(directory.ledger), listing, input, rotation, result,
                                      directory.passed, directory.Now(), directory.ledger)
  {
    DescribedFiltersNeverMiss(hash, filters);
    result := directory.AppendMessageContext(listing, input, rotation, Probe(hash, filters));
  }
}
