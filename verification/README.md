# RabiRoute: message ledger and protocols

A Dafny model of RabiRoute's conversation ledger and of the protocols around it, with proofs of what
they promise over every input, every run and every crash.

- **Ledger** (`LedgerFiles`, `LedgerAppend`, `LedgerCrash`, `LedgerDirectory`, `LedgerNumbers`, `LedgerReaders`,
  `LedgerWindow`, `LedgerFilters`, `LedgerCommits`, `ArchiveRanges`, `ArchiveHints`, `FirstWrite`): an
  append-only record list in range-named archive files and a current file. The ledger is what first-write dedupe reads
  out of them. Appends are lists of atomic file writes with a crash allowed between any two, and readers without a lock
  run beside them.
- **Search** (`RecentItems`, `SearchMeaning`, `SearchGrams`, `HistorySearch`, `HistoryPaging`, `PageCursor`, `AppendProof`,
  `HistorySnapshot`, `IndexLifecycle`): the index agrees with the plain scan, pages lose nothing, older snapshots
  come out of newer indexes, leased index generations are never deleted, and damaged
  ones are not handed out again.
- **Identity** (`IdentityHeads`, `IdentityViews`, `IdentityMixes`, `IdentityStore`, `IdentityLearning`,
  `IdentityMerges`, `IdentityAuthority`, `IdentityRepeats`, `IdentityFailures`, `IdentityRetention`, `IdentityTeaching`): an
  event log whose events name the heads they replace; when its fold converges, what automatic learning teaches and
  keeps, when it is quiet or fails, and that it never gains authority.
- **Delivery** (`MessageGrouping`, `ThreadReservation`, `MemoryDelivery`, `ConversationQueue`): at-least-once grouping,
  at-most-once task creation, no blind resend, and one send at a time per conversation.
- **Algorithms** (`ConversationWindow`, `ArchiveReadCache`, `DiagramCuts`): bounded windows, a bounded cache, page cuts.

`Records`, `OrderedSets`, `Sorting`, `Decimals` and `TextOrder` hold what the others share. Code that changes state
step by step is modelled by methods and classes that are proved equal to specification functions; the lemmas
about runs speak of those functions. Record ids, file stamps and hashes are opaque values; hash positions are an
arbitrary function.

`dafny verify dfyconfig.toml` checks the whole project.

Some promises do not hold on all inputs. The model keeps the code as it is, and states exactly when they do hold:

- An update leaves a single head exactly when the ids of the heads it replaces survive normalization
  (`IdentityHeads.SiblingsAreHeads`, `IdentityHeads.BlankIdsSurviveUpdates`).
- Repeating a successful observation appends nothing exactly when the new link has a place among the fifty that an
  account keeps - fewer than 50 links, or a candidate among the first 50 - and the participant retains what it learned
  (`IdentityRepeats.RepeatIsQuietIff`, `IdentityRepeats.RepeatIsQuiet`). This bullet and the next take event ids as the
  program generates them.
- An observation fails exactly when the links it would write name a participant twice or have a candidate whose
  participant is retired or conflicted (`IdentityFailures.ObservationFailsIff`). Retiring a participant checks no account:
  while an account without authority or conflict has it as its one candidate, among the first 50 links, every observation
  of that account fails (`IdentityFailures.BlockedCandidateFails`, `IdentityFailures.RetiredCandidateCase`). A failed
  observation can leave a participant behind (`IdentityRepeats.AnotherParticipant`).
- An accepted clue fails on the way exactly when one of its relations names another participant that is not shown, retired
  or in conflict (`IdentityTeaching.LearnFailsIff`); what it wrote before stays.
- Page cuts advance for every diagram exactly from a width of 200/23 (`DiagramCuts.CutsAdvanceIff`).
- With every citation written down and identifying ids, the view of a log is independent of its order exactly when some
  event is not superseded or all events would be shown alike (`IdentityViews.ShownConvergesIff`). Where events without
  citations are mixed in, the heads of distinct events are independent of the order exactly when there is one event, or
  some event is not cited and none without citations has another uncited one beside it
  (`IdentityMixes.HeadsConvergeExactly`, `IdentityMixes.MixedLogsDiverge`).
- An accepted message stays stored or delivered for ever exactly when it has an identity and a route kind and the group
  that receives it has all its identifying fields, or it was safe before (`MessageGrouping.AcceptedIsSafeIff`). The one
  caller in the repository never sends an empty sender (`src/routing/messageGroupingForward.ts:72`).
- The grouping queue remembers at most 2000 delivered identities exactly when none of those that should leave is empty
  (`MessageGrouping.TrimmedIsBoundedIff`).
- The conversation window reads the catalog on disk, and sees the whole ledger exactly when the names of the catalogued
  files follow each other from 1 up to the current file (`LedgerWindow.WindowSeesAllIff`). A crash behind the rewrite of
  the current file leaves a catalog for which they do not (`LedgerWindow.CrashedRotationCase`).

## Model

| member | source | states |
|---|---|---|
| LedgerDirectory.LedgerDirectory.AppendMessageContext | src/messageContextStore.ts:808-904 | One append in place: a new key goes to the end of the ledger under a sequence larger than all before, a known key answers with the record that owns it and changes nothing, every disk between two file writes holds the old or the new ledger, and what a rotation takes out of the current file is old enough and all that is |
| LedgerDirectory.LedgerDirectory.ArchiveEligiblePrefix | src/messageContextStore.ts:765-806 | The rotation moves the leading records up to the first one younger than the limit into a range-named file, archive first, current file second; something moves if and only if some record is old enough to trigger, the first one is old enough to go, and the sequences at both ends are positive |
| LedgerDirectory.LedgerDirectory.EligiblePrefix | src/messageContextStore.ts:771-785 | The loop finds the leading records that are not younger than the limit, stops at the first younger one, and finds none unless some record is old enough to trigger |
| LedgerAppend.ArchivableIsRight | src/messageContextStore.ts:771-785 | What a rotation may move, said about the records alone: every moved one old enough, the first one left too young, and nothing stays that must go |
| LedgerAppend.OneRightPrefix | src/messageContextStore.ts:771-785 | Only one number of leading records meets that description |
| LedgerDirectory.LedgerDirectory.ReadArchiveIndex | src/messageContextStore.ts:598-656 | Catalogued and discovered archives, compacted and sorted, are the inventory |
| LedgerDirectory.LedgerDirectory.FindExistingRecord | src/messageContextStore.ts:749-763 | With hints that never miss a stored key, the search answers the first write of the key over all archives and the current file |
| LedgerDirectory.LedgerDirectory.WriteRecord | src/messageContextStore.ts:831-878 | A known key only rewrites the catalog; a new one is appended first and catalogued second |
| LedgerDirectory.FirstWithOwns | src/messageContextStore.ts:749-763 | The first record with a key is the one that first-write dedupe keeps, and it is found exactly when the key was ever written |
| LedgerCrash.StagesAreSafe | src/messageContextStore.ts:765-904 | Every disk that an append passes through holds the old ledger or the old ledger plus the new record at its end |
| LedgerCrash.LedgerOnlyGrows | src/messageContextStore.ts:765-904 | Over any history of completed and crashed appends the earlier ledger stays a prefix of the later one |
| LedgerCrash.ReadsAsLedger | src/messageContextStore.ts:629-656 | Reading the inventory in order, then the current file, and deduping gives exactly the ledger, with strictly increasing sequences and one record per key, whatever the files overlap |
| LedgerCrash.ReadsOnlyGrow | src/messageContextStore.ts:808-904 | What a reader sees after any number of appends and crashes, a later reader sees as a prefix |
| LedgerCrash.RotationHolds | src/messageContextStore.ts:783-804 | The disk between the archive write and the current rewrite, and the disk after both, hold the same ledger as before |
| LedgerCrash.RotatedReads | src/messageContextStore.ts:788-804 | After a rotation the catalog in memory is again complete: it reads as the ledger and knows exactly its keys |
| LedgerCrash.WritesAreSafe | src/messageContextStore.ts:831-878 | Each write after the rotation is safe to stop at |
| LedgerReaders.UnlockedReadIsPrefix | src/messageContextStore.ts:1168-1186 | A reader that takes no lock - the current file first, then catalog, directory listing and archive bodies, with appends and crashes between any two of these - sees a prefix of the ledger at its listing that extends the ledger at its first read |
| LedgerReaders.HistoryKeepsArchives | src/messageContextStore.ts:783-804 | No append or crash ever removes an archive file |
| LedgerReaders.ReadAtListing | src/messageContextStore.ts:1099-1123 | The same for archives read at the moment of the listing, whatever the catalog knew |
| LedgerWindow.WindowSeesAllIff | src/messageContextStore.ts:1231-1248 | After any history of appends and crashes, a reader of the catalog alone sees what a full read gives if and only if the names of the catalogued files follow each other from 1 without gap or overlap, up to the first line of the current file |
| LedgerWindow.SeenIsLedgerIff | src/messageContextStore.ts:1231-1248 | The same on any disk whose sequences count |
| LedgerWindow.SeenIsLedgerIffTiled | src/messageContextStore.ts:1231-1248 | On any disk that stores a ledger: exactly when the catalogued files hold what precedes the current file, each record once and in order |
| LedgerWindow.CrashedRotationCase | src/messageContextStore.ts:783-804 | One append and a rotation stopped behind its second write: the only record lies in an archive that the catalog does not name, and the window is empty |
| LedgerNumbers.SequencesCount | src/messageContextStore.ts:644-655 | Over any history of appends and crashes the k-th record that a read gives has sequence k, and the next sequence continues the count |
| LedgerNumbers.NextIsCount | src/messageContextStore.ts:644-655 | The next sequence is the number of the next record, even when the catalog was never rewritten |
| LedgerWindow.ArchiveStageIsSeen | src/messageContextStore.ts:783-804 | Between the archive write and the current rewrite the ledger is still seen |
| LedgerWindow.RotatedStageIsNotSeen | src/messageContextStore.ts:783-804 | Behind the current rewrite, until the catalog is written, exactly the rotated records are missing |
| LedgerWindow.RotatedIsAStage | src/messageContextStore.ts:783-804 | Every append that rotates passes through that disk |
| LedgerWindow.SeenIsLayered | src/messageContextStore.ts:1247-1250 | However catalogued archives and the current file overlap after crashes, nothing of an earlier file lies behind a later one without being in it |
| LedgerWindow.WindowOfDisk | src/messageContextStore.ts:1208-1287 | On every disk that stores a ledger the bounded read answers with the window over the catalogued archives and the current file, overlaps counted |
| LedgerFilters.DescribedFiltersNeverMiss | src/messageContextStore.ts:717-730 | Duplicate hints that describe the archives never rule out a stored key in the search of the ledger |
| LedgerFilters.AppendWithFilters | src/messageContextStore.ts:749-763 | An append that skips archives by their Bloom filters does what an append that reads all of them does |
| LedgerAppend.NextSequenceIsNew | src/messageContextStore.ts:644-655 | The next sequence is larger than every sequence of the ledger even when the catalog was never rewritten |
| LedgerAppend.RotatedFilesAreCatalogued | src/messageContextStore.ts:788-803 | Replacing or adding the rotated file in the catalog keeps it the ascending maximal files |
| LedgerAppend.KeysOnDiskAreLedgerKeys | src/messageContextStore.ts:749-763 | The keys found in the catalogued files and the current file are exactly the keys of the ledger |
| LedgerFiles.InventoryIsMaximalFiles | src/messageContextStore.ts:598-643 | The inventory is exactly the files that no other file contains, in ascending order, whether or not the catalog knew them |
| LedgerFiles.DiskReadsAsLedger | src/messageContextStore.ts:629-656 | Archives in catalog order, then the current file: first writes give back the ledger, overlaps included |
| LedgerFiles.CatalogReadsAsPrefix | src/messageContextStore.ts:629-643 | The catalogued archives alone hold exactly the archived part of the ledger, without a gap |
| ArchiveRanges.RetainedRanges | src/messageContextStore.ts:580-594 | The one sorted pass with its moving container retains exactly the items that no other item contains |
| ArchiveRanges.CompactContainedArchives | src/messageContextStore.ts:580-596 | The one-pass form equals the quadratic definition, order and identical copies kept |
| ArchiveRanges.KeptIffMaximal | src/messageContextStore.ts:576-596 | An item is kept if and only if no other item contains it with more, or with an earlier name |
| ArchiveRanges.KeptContainer | src/messageContextStore.ts:576-596 | Every item lies inside one that is kept |
| ArchiveRanges.CompactionKeepsCoverage | src/messageContextStore.ts:580-596 | Compaction covers exactly the same sequence numbers |
| ArchiveRanges.KeptRangesAreStaircase | src/messageContextStore.ts:619-623 | Among kept ranges a later start means a later end, so sorting by start sorts by end |
| ArchiveHints.BuildDuplicateFilter | src/messageContextStore.ts:704-715 | The filter sets exactly the positions of the stored keys, and the four bounds hold and are reached |
| ArchiveHints.HintNeverMissesStoredKey | src/messageContextStore.ts:717-726 | A stored key is never ruled out, for any hash |
| ArchiveHints.ArchiveRecords | src/messageContextStore.ts:1099-1123 | The two-phase read loads the archives inside the bounds and those whose hint admits a candidate key |
| ArchiveHints.SkippingArchivesIsInvisible | src/messageContextStore.ts:1099-1123 | Dropping archives gives the same result as reading all of them, deduping by first write and then filtering |
| ArchiveHints.NothingIsSkipped | src/messageContextStore.ts:1099-1109 | When several directories are read together no archive is left out, whatever its bounds |
| FirstWrite.DedupeThenFilter | src/messageContextStore.ts:671-686 | Dedupe before filter keeps exactly the matching records that are the first write of their key |
| FirstWrite.DedupeOwnsEveryKey | src/messageContextStore.ts:675-686 | Dedupe keeps one record per key |
| FirstWrite.DedupeKeepsKeys | src/messageContextStore.ts:675-686 | Dedupe loses no key |
| RecentItems.DedupeRecords | src/messageContextStore.ts:682-686 | The loop over the Map computes first-write dedupe |
| RecentItems.MatchesQuery | src/messageContextStore.ts:1133-1150 | The record check agrees with the declared meaning of a query, substring search included |
| RecentItems.SelectNewest | src/messageContextStore.ts:1191-1200 | The newest-first selection with skip-over-budget |
| RecentItems.RecentMessageContextItems | src/messageContextStore.ts:1168-1202 | Dedupe, filter, then the newest matches that fit |
| RecentItems.NewestRespectsLimits | src/messageContextStore.ts:1191-1200 | Never more than the limit, never over the budget except for one first item, and the newest match is always there |
| RecentItems.NewestWithinBudgetIsSuffix | src/messageContextStore.ts:1191-1200 | When the budget covers everything the result is the last `limit` matches |
| SearchMeaning.AnswersAreWanted | src/messageContextStore.ts:1133-1150 | Field by field: every answer is the first write of its key, within the bounds of sequence and time, of the wanted adapter, channel, kind, sender, target and conversation, with the wanted terms and not excluded |
| SearchMeaning.WantedIsAnswered | src/messageContextStore.ts:1189-1200 | When limit and budget cover all matches, the answer holds exactly the wanted records |
| SearchMeaning.SelectionIsGreedy | src/messageContextStore.ts:1191-1200 | From the newest on, each record is taken exactly when the limit allows it and it is the first or fits into the budget beside those taken before it |
| SearchMeaning.CostCountsSegments | src/messageContextStore.ts:1152-1154 | A record costs its text, each segment with 40 characters more, and 160 for its storage |
| SearchMeaning.TinyBudgetShowsOne | src/messageContextStore.ts:1172-1199 | A budget below what any record costs, even none at all, still shows the newest match and no more |
| SearchGrams.MessageSearchGrams | src/messageHistorySearchIndex.ts:102-110 | The nested loops push each distinct gram of the text, in order of first occurrence |
| SearchGrams.GramsNeverMiss | src/messageHistorySearchIndex.ts:102-110 | Every gram of a contained term is a gram of the text: the filter has no false negatives |
| SearchGrams.ShortTermGramsAreExact | src/messageHistorySearchIndex.ts:102-110 | For terms up to three code units the filter is exact |
| HistorySearch.CandidatesCoverMatches | src/messageHistorySearchIndex.ts:410-447 | The SQL candidate filter admits every matching row |
| HistorySearch.ShortTermsAreExact | src/messageHistorySearchIndex.ts:102-110 | For terms of up to three code units the index says exactly where they occur |
| HistorySearch.JudgeRow | src/messageHistorySearchIndex.ts:494-500 | Filter, duplicate lookup and payload check together recognize exactly the matching first writes |
| HistorySearch.SearchMessageHistory | src/messageHistorySearchIndex.ts:428-515 | The gram-filtered newest-first walk with first-write winners, skip-over-budget and early stop returns exactly what the plain scan returns |
| RecentItems.NothingFitsBelowOverhead | src/messageHistorySearchIndex.ts:462-467 | Once less than the storage overhead is left no record fits, so stopping early is sound |
| HistorySearch.SearchPage | src/messageHistorySearchIndex.ts:494-515 | A page holds every matching first write between its cursor and the next one, within its limits, and is never empty while something is left |
| HistorySearch.WalkAnswers | src/messageHistorySearchIndex.ts:502-515 | The cursor names the last row of the page, and no cursor means that nothing older is left |
| HistoryPaging.PagesEnumerateHistory | src/messageHistorySearchIndex.ts:382-385 | Following cursors to the end yields every matching first write exactly once, in order, for any budget, even while records are appended |
| HistoryPaging.CursorsDecrease | src/messageHistorySearchIndex.ts:459-460 | Every cursor lies strictly before the one that led to it |
| HistoryPaging.PagesGatherWinners | src/messageHistorySearchIndex.ts:502-515 | The pages that have come so far are adjacent, their entries are the winners between the first and the last cursor, and there are no more pages than rows passed |
| HistoryPaging.PagesHoldEntries | src/messageHistorySearchIndex.ts:502-515 | Every page but the last holds an entry: there are no more pages than matches |
| HistoryPaging.RunGathersWinners | src/messageHistorySearchIndex.ts:502-515 | The pages of a finished run together are the winners below the starting cursor |
| PageCursor.CursorRoundTrip | src/messageHistoryPageCursor.ts:10-22 | A written cursor gives back its position under its own scope and expires under every other |
| PageCursor.CursorsAreDistinct | src/messageHistoryPageCursor.ts:10-12 | No two positions or scopes share a cursor |
| PageCursor.CursorIsShort | src/messageHistoryPageCursor.ts:10-16 | A cursor with safe integers never exceeds the accepted length |
| PageCursor.ReadIsStrict | src/messageHistoryPageCursor.ts:13-22 | A cursor of more than 1024 characters is refused, one that is read names a safe position, and it is good for one scope alone |
| PageCursor.ReadIffWritten | src/messageHistoryPageCursor.ts:13-22 | A cursor is read as a position under a scope if and only if it is short, the position is safe, and its decoded text is the one that is written for them |
| PageCursor.ExpiredIsReadable | src/messageHistoryPageCursor.ts:18-20 | A cursor is called expired only if some other scope can still read it |
| PageCursor.Base64RoundTrip | src/messageHistoryPageCursor.ts:10-17 | The base64url coding loses nothing |
| PageCursor.JsonRoundTrip | src/messageHistoryPageCursor.ts:10-17 | The JSON text is read back to the same scope and position |
| AppendProof.ProofRegistry.Remember | src/messageHistorySourceVersion.ts:23-33 | Reporting a commit keeps every remembered proof a gap-free suffix of the reported commits; the directory moves to the end and the oldest may leave |
| AppendProof.ProofRegistry.AppendProof | src/messageHistorySourceVersion.ts:57-60 | The returned proof is a gap-free suffix too |
| AppendProof.ProofRegistry.Discard | src/messageHistorySourceVersion.ts:62-67 | Exactly the proof that still ends at the expected version is dropped |
| AppendProof.EndsAtIff | src/messageHistorySourceVersion.ts:64-65 | That proof ends at the expected version of the current file and, if one is named, of the catalog |
| AppendProof.OldestLeaves | src/messageHistorySourceVersion.ts:30-32 | A report makes its directory the newest, and only the oldest of 128 others leaves for it, and only for a new directory |
| AppendProof.ContinuedIsKept | src/messageHistorySourceVersion.ts:25-31 | A commit that starts where the proof ends, under the same layout, extends it; any other starts a new one |
| AppendProof.RememberedStaysGapFree | src/messageHistorySourceVersion.ts:23-33 | A commit extends the run only when it starts where the last one ended, under the same layout |
| AppendProof.GapFreeProofReflectsWorld | src/messageHistorySourceVersion.ts:23-33 | Along a gap-free run every remembered version holds what was in the file then, and the file only grew |
| AppendProof.EarlierIsPrefix | src/messageHistorySearchIndex.ts:353-368 | The record count of an earlier version cuts a later version of the file back to it |
| LedgerCommits.CommitIsHonest | src/messageContextStore.ts:842-893 | The commit that a completed append reports is true of the files, and it reports none only after a rotation or when someone else changed the file |
| LedgerCommits.AppendAndReport | src/messageContextStore.ts:808-904 | An append and its report in place: every commit that the registry was told of stays true, as the snapshots rely on |
| HistorySnapshot.SearchSnapshot | src/messageHistorySearchIndex.ts:353-369 | A search answered by a newer index equals the plain scan over the ledger at the requested commit, or says that it lags |
| HistorySnapshot.SearchSnapshotPage | src/messageHistorySearchIndex.ts:353-369 | A page at an earlier commit is a page of the ledger as it stood then, or says that the index lags |
| HistorySnapshot.SnapshotIsLedgerAtCommit | src/messageHistorySearchIndex.ts:353-369 | The visible rows are exactly the ledger as it stood at the requested commit |
| HistorySnapshot.VisibleIsRequestedVersion | src/messageHistorySearchIndex.ts:353-368 | Whenever the check does not lag, the record limit yields the requested version |
| HistorySnapshot.AnswersIffProven | src/messageHistorySearchIndex.ts:351-368 | A newer index answers at all if and only if a proof of the same layout and epoch knows both versions of the current file, the index is not behind, and no archive changed; then exactly the records of the requested version are visible |
| HistorySnapshot.EligibleOfLedger | src/messageHistorySearchIndex.ts:282-288 | The position limit on the current file keeps the archives and a prefix of the current rows |
| IndexLifecycle.LeasedGenerationIsNeverDeleted | src/messageHistoryIndexLifecycle.ts:55-84 | In every interleaving of readers, writers and crashes, a returned and unreleased lease keeps its file, its directory and its database |
| IndexLifecycle.PointersNeverDangle | src/messageHistoryIndexLifecycle.ts:154-235 | The serving and the rollback pointer never name a missing database |
| IndexLifecycle.MarkedIsNeverLeased | src/messageHistoryIndexLifecycle.ts:55-84 | In any run, a reader that comes to a generation behind its quarantine mark is never handed it, whatever is published, rolled back, collected or crashes meanwhile; it even holds a lease on it only once the generation has lost every pointer for good |
| IndexLifecycle.MarkedIsNeverServed | src/messageHistoryIndexLifecycle.ts:154-235 | A generation that was marked while it was not serving never serves again, not even after a rollback |
| IndexLifecycle.MarksStay | src/messageHistoryIndexLifecycle.ts:108-151 | No step takes the mark away from a generation that a pointer names or a reader relies on |
| IndexLifecycle.DamageIsMarked | src/messageHistoryIndexLifecycle.ts:108-116 | A reader, a builder and a writer each mark the generation that they find damaged |
| IndexLifecycle.HandedOutIsThere | src/messageHistoryIndexLifecycle.ts:63-81 | A lease is handed out only where the database is, and handed out again only while its generation serves unmarked, without touching a file |
| IndexLifecycle.RollbackSwaps | src/messageHistoryIndexLifecycle.ts:219-234 | A rollback swaps the serving and the rollback pointer, whatever readers do between its writes, and only to an unmarked generation whose database is there |
| IndexLifecycle.PublishServes | src/messageHistoryIndexLifecycle.ts:204-207 | A publication serves the candidate, keeps the old generation for a rollback if it was judged healthy, and ends the build, whatever readers do between the writes |
| IndexLifecycle.NoLeaseLeaks | src/messageHistoryIndexLifecycle.ts:71-79 | In any run every lease file belongs to a reader that holds it or to a process that ended |
| IndexLifecycle.LeaseEnds | src/messageHistoryIndexLifecycle.ts:75-80 | A released lease is gone, one of a process that died is recognized as dead, and no other lease is touched |
| IndexLifecycle.ScanJudgesLease | src/messageHistoryIndexLifecycle.ts:118-131 | A collector takes away the lease of a process that has ended, and spares the generation of any other lease |
| IndexLifecycle.UnpointedIsTarget | src/messageHistoryIndexLifecycle.ts:134-144 | A collection may take exactly the generations without a pointer that it is not told to keep |
| IndexLifecycle.KeptIsSpared | src/messageHistoryIndexLifecycle.ts:141-149 | A damaged generation that a collection is told to keep stays through all of it |
| IndexLifecycle.UnleasedCanGo | src/messageHistoryIndexLifecycle.ts:144-150 | A collector can take away any generation of its list that nobody leases, with all its files |
| IndexLifecycle.FilesHaveDirectories | src/messageHistoryIndexLifecycle.ts:71-74 | In any run databases, marks and lease files lie in generation directories that are there |
| IndexLifecycle.RunKeepsInv | src/messageHistoryIndexLifecycle.ts:55-235 | The invariant of the publish, lease and collect protocol holds after every run |
| IndexLifecycle.ReaderKeepsFreshLeaseKept | src/messageHistoryIndexLifecycle.ts:63-76 | A lease that was just written survives as long as its generation is pointed to |
| IndexLifecycle.IndexDirectory.ReaderStep | src/messageHistoryIndexLifecycle.ts:55-84 | The atomic steps of taking, confirming, reusing and releasing a lease, on the files; a step that was reached by a run keeps everything that holds of runs |
| IndexLifecycle.IndexDirectory.WriterStep | src/messageHistoryIndexLifecycle.ts:134-235 | The atomic steps of building, publishing, rolling back and collecting, on the files |
| IndexLifecycle.WriterKeepsWriterGood | src/messageHistoryIndexLifecycle.ts:118-151 | A collector that saw no live lease removes only generations that no reader relies on |
| IndexLifecycle.IndexDirectory.HeldIsServed | src/messageHistoryIndexLifecycle.ts:55-84 | Whatever steps the directory went through, a held lease still has its database, directory and file |
| IdentityHeads.CollectHeads | src/identityRelations.ts:511-524 | The two passes of the state loop compute the heads |
| IdentityHeads.CitedIff | src/identityRelations.ts:407-414 | An event cites the ids that it names, normalized, except its own and empty ones |
| IdentityHeads.SupersededByBlock | src/identityRelations.ts:511-522 | Appended events with citations supersede exactly what they cite, besides what was superseded before, in mixed and cyclic logs alike |
| IdentityHeads.SiblingsAreHeads | src/identityRelations.ts:407-414 | Updates made from one state and merged behind it are exactly the heads, if and only if the heads they replace have ids that survive normalization |
| IdentityHeads.UpdateLeavesOneHead | src/identityRelations.ts:703-711 | With ids as the program writes them, an update leaves exactly one head |
| IdentityHeads.BlankIdsSurviveUpdates | src/identityRelations.ts:407-414 | The condition is needed: an id that ends in a blank cannot be cited and stays a head |
| IdentityHeads.GeneratedIdsAreCanonical | src/identityRelations.ts:214-217 | Ids without white space of up to 300 characters are left alone |
| IdentityViews.AcyclicLogsConverge | src/identityRelations.ts:482-538 | With every citation written down, identifying ids and no cycle, record, conflict flag and alternatives are the same for every order of the log |
| IdentityViews.HeadsConvergeIff | src/identityRelations.ts:511-524 | With every citation written down, the heads are the same for every order if and only if some event is not superseded or all events are equal |
| IdentityViews.ShownConvergesIff | src/identityRelations.ts:500-538 | The shown view is the same for every order if and only if some event is not superseded or all events alone would be shown alike |
| IdentityViews.CyclicLogExists | src/identityRelations.ts:511-524 | Two events that cite each other are such a log without a live event |
| IdentityViews.CyclicLogsDiverge | src/identityRelations.ts:523-524 | When these two differ in substance, neither heads nor view are independent of their order |
| IdentityViews.CyclicLogShowsAny | src/identityRelations.ts:523-524 | A log whose events are all superseded can be ordered to show any one of its events |
| IdentityMixes.HeadsConvergeExactly | src/identityRelations.ts:511-524 | For any log of distinct events, with and without citations: the heads are the same for every order if and only if there is one event, or some event is not cited and none without citations has another uncited one beside it |
| IdentityMixes.ShownConvergesExactly | src/identityRelations.ts:500-538 | Between events that differ in substance the same condition decides about the view |
| IdentityMixes.MixedLogsDiverge | src/identityRelations.ts:511-524 | Two events without citations: one is live, and which one that is the order decides |
| IdentityViews.AcyclicLogsHaveLiveEvents | src/identityRelations.ts:511-524 | An acyclic log has an event that nothing supersedes |
| IdentityViews.CollapsedIgnoresOrder | src/identityRelations.ts:482-498 | The fold of the heads does not depend on their order |
| IdentityViews.TwoHeads | src/identityRelations.ts:482-498 | Two heads conflict exactly when they differ in substance, and the conflict lists both in id order |
| IdentityViews.MergedIsLatest | src/identityRelations.ts:454-480 | The merged record is the latest head's, up to what equivalent heads may differ in |
| IdentityViews.MergedAccountName | src/identityRelations.ts:454-465 | An account shows the latest name that any of its heads carries |
| IdentityMerges.MergedKnowsAll | src/identityRelations.ts:466-478 | A merged observed participant shows nothing that no head knows, and every alias and all evidence of all its heads while that is at most fifty of each; beyond that it shows fifty |
| IdentityMerges.MergedKeepsEnds | src/identityRelations.ts:470-476 | Beyond fifty the aliases of the earliest head stay, and what only the latest head gives as evidence |
| IdentityMerges.MergedParticipantName | src/identityRelations.ts:470-474 | It shows the latest name that any of its heads carries |
| IdentityMerges.AgreementIsShown | src/identityRelations.ts:482-491 | Heads that agree are shown as their merge, without conflict |
| IdentityViews.SubstanceIff | src/identityRelations.ts:427-452 | Two records agree in substance exactly when they are equal up to time, an account's name, and what was only observed of a participant that nobody has judged |
| IdentityStore.IdentityLedger.Update | src/identityRelations.ts:614-702 | An update appends one event citing all heads, or nothing when the record is already shown without conflict |
| IdentityStore.UpdateIsShown | src/identityRelations.ts:614-702 | After an update the record is shown as written without conflict, and every other record as before |
| IdentityStore.ConcurrentUpdates | src/identityRelations.ts:614-702 | Two updates made from the same log and merged are exactly the heads and conflict exactly when they differ in substance |
| IdentityLearning.Learner.ObserveIdentityEndpoint | src/identityRelations.ts:749-843 | The observation in place equals its specification, failed calls included |
| IdentityLearning.Learner.RecordIdentityCandidateObservation | src/identityRelations.ts:849-938 | The candidate clue in place equals its specification, failed calls included |
| IdentityRetention.ObserveKeepsKnowledge | src/identityRelations.ts:800-834 | An observation loses nothing: every participant keeps kind, habits, status, a name it had, its first fifty aliases and its newest evidence up to one; every account keeps whether it is the persona's own and its first fifty links; relations stay as they were, whether the call succeeds or fails |
| IdentityTeaching.SubjectIff | src/identityRelations.ts:757-798 | Which participant an observation is about, said of the account's links: the one candidate, or a new one when there is none, and nobody when several are open or the account is settled |
| IdentityTeaching.ObserveTeaches | src/identityRelations.ts:799-834 | What a successful observation adds: the name joins the aliases and fills an empty display name, the evidence joins the evidence, the account shows the observed name and links the participant; without a subject nothing is written |
| IdentityTeaching.LearnAcceptsIff | src/identityRelations.ts:859-918 | A clue is accepted if and only if its account is shown, open and not the persona's own, the candidate it names or the only one is unjudged, some evidence carries a message, and no relation of it has been judged |
| IdentityTeaching.LearnTeaches | src/identityRelations.ts:879-932 | What an accepted clue does: only a kind or name that it gives replaces the old one, aliases and evidence join, habits stay, every relation of the clue is shown with the clue's evidence, and nothing else changes |
| IdentityTeaching.LearnFailsIff | src/identityRelations.ts:676-681 | An accepted clue fails on the way if and only if one of its relations names another participant that is not shown, retired or in conflict |
| IdentityTeaching.FirstClueCase | src/identityRelations.ts:849-938 | The concrete run: observe a new account, then record a clue with one project relation, which is accepted and written |
| IdentityLearning.ObserveKeepsAuthority | src/identityRelations.ts:749-843 | With ids as the program writes them, observing an account grants nothing and leaves no new conflict |
| IdentityLearning.LearnKeepsAuthority | src/identityRelations.ts:849-938 | With ids as the program writes them, a clue grants nothing and leaves no new conflict, even when it fails half way |
| IdentityLearning.LearningNeverGainsAuthority | src/identityRelations.ts:745-938 | With ids as the program writes them, any run leaves every confirmed, corrected, retired or conflicted record as it was, and everything else without authority or conflict |
| IdentityAuthority.LearningGrantsNothing | src/identityRelations.ts:745-938 | Any run over any log, with any event ids and stamps: no record gains authority, and what had authority or a conflict when a call began is shown as before |
| IdentityAuthority.ObserveGrantsNothing | src/identityRelations.ts:749-843 | An observation of any log grants nothing, failed or not |
| IdentityAuthority.LearnGrantsNothing | src/identityRelations.ts:849-938 | A clue over any log grants nothing, even when its own relations collide |
| IdentityAuthority.GrantsNothingIff | src/identityRelations.ts:482-498 | A view and its alternatives are without authority exactly when all heads are |
| IdentityRepeats.RepeatIsQuiet | src/identityRelations.ts:749-843 | Repeating an observation that succeeded appends nothing if and only if it had no subject or the account has fewer than 50 links or a candidate among its first 50 |
| IdentityRepeats.RepeatIsQuietIff | src/identityRelations.ts:749-843 | The exact condition without any assumption on the stored fields: the link has a place among the fifty, and a participant that may still learn retains the observation |
| IdentityRepeats.TaughtIsQuietIff | src/identityRelations.ts:800-843 | The same condition for any log that shows the account and the participant as the observation left them |
| IdentityRepeats.FullAccountsKeepGrowing | src/identityRelations.ts:826-834 | With 50 links the new link is cut off and every further observation makes another participant |
| IdentityFailures.ObservationFailsIff | src/identityRelations.ts:749-843 | An observation fails if and only if it has a subject and the links it would write name a participant twice or have a candidate that is shown as retired or conflicted |
| IdentityFailures.BlockedCandidateFails | src/identityRelations.ts:582-612 | While the account's one candidate is retired or conflicted, every observation fails and writes nothing |
| IdentityFailures.RetiringTheCandidateBlocks | src/identityRelations.ts:614-660 | Retiring a linked participant validates no account, so this update alone blocks the account that links it |
| IdentityFailures.RetiredCandidateCase | src/identityRelations.ts:749-843 | The concrete run: observe a new account, retire the participant it made, and the next observation fails |
| IdentityFailures.RetiredLinkFails | src/identityRelations.ts:314-330 | An observation fails when the account already links, as retired, the participant that it is about to create |
| IdentityRepeats.AnotherParticipant | src/identityRelations.ts:780-790 | For an account without a candidate a participant that was not shown before is shown after, even when the call then fails |
| ThreadReservation.CallerCreatesAtMostOnce | src/codexThreadCreationReservations.ts:184-292 | For a caller key, native creation starts at most once over all interleavings at awaits and all crashes |
| ThreadReservation.CallerIntentIsFrozen | src/codexThreadCreationReservations.ts:105-115 | The intent hash of a caller key never changes |
| ThreadReservation.OtherIntentIsRefused | src/codexThreadCreationReservations.ts:110-116 | A call with another intent than the file's throws the intent conflict, whatever the reservation has come to, and changes nothing |
| ThreadReservation.CallsShareIntent | src/codexThreadCreationReservations.ts:105-116 | In every run under a caller key each pending call has the intent that the file was reserved for |
| ThreadReservation.ReturnedIsStored | src/codexThreadCreationReservations.ts:184-292 | Whatever task a call returns in any step of a consistent desk, the file holds it as completed |
| ThreadReservation.PendingIsWaiting | src/codexThreadCreationReservations.ts:184-292 | A segment of a call answers nothing exactly while the call waits for something |
| ThreadReservation.FreshCallCreates | src/codexThreadCreationReservations.ts:184-268 | A call that finds no reservation, or one that failed before its creation, stores a creating reservation with its own intent and calls create once |
| ThreadReservation.OnlyFreshCreates | src/codexThreadCreationReservations.ts:184-268 | No step calls create more than once, and only two kinds of steps do: a call that may create at its start, and a confirmation that the task is missing |
| ThreadReservation.StageIsStored | src/codexThreadCreationReservations.ts:261-269 | A stage is on file, with the task it names, before the creation goes on |
| ThreadReservation.SuccessCompletes | src/codexThreadCreationReservations.ts:270-280 | A creation that succeeds completes its reservation with the new task and returns it, unless a caller's earlier stage named another one |
| ThreadReservation.OtherTaskIsUncertain | src/codexThreadCreationReservations.ts:270-290 | A caller's creation that returns another task than its earlier stage named is left uncertain and blocks |
| ThreadReservation.FailureIsJudged | src/codexThreadCreationReservations.ts:281-291 | A failed creation is uncertain and blocks, except a caller's that did not start |
| ThreadReservation.CompletedAnswers | src/codexThreadCreationReservations.ts:200-203 | A completed reservation answers every later call with the right intent by its task and stays as it is |
| ThreadReservation.UnreadableStops | src/codexThreadCreationReservations.ts:105-116 | A file that a crash left unreadable stops every call |
| ThreadReservation.CreatingBlocks | src/codexThreadCreationReservations.ts:212-258 | A recent creation blocks; an old one asks for a confirmation exactly under a title key without a known task and with someone to ask, and is uncertain otherwise |
| ThreadReservation.OthersBlock | src/codexThreadCreationReservations.ts:212-258 | A reservation in any later phase blocks at any age and stays as it is |
| ThreadReservation.RecoverableAsks | src/codexThreadCreationReservations.ts:204-206 | A caller that can recover asks for its task first, in exactly the four phases where one may exist |
| ThreadReservation.RecoveryCompletes | src/codexThreadCreationReservations.ts:206-210 | A recovered task completes the reservation and is returned, unless the reservation names another one |
| ThreadReservation.UnrecoveredIsJudged | src/codexThreadCreationReservations.ts:212-258 | Without a recovered task the call is judged by the age of the creation |
| ThreadReservation.ConfirmationDecides | src/codexThreadCreationReservations.ts:220-256 | Only the answer that the task is missing leads to another creation |
| ThreadReservation.TitleCreatesAreConfirmed | src/codexThreadCreationReservations.ts:215-235 | For a title key, `create` is called at most once more often than the task was confirmed missing |
| ThreadReservation.CompletedNamesItsTask | src/codexThreadCreationReservations.ts:204-292 | A completed reservation always holds the task that it answers with, and no other reservation holds one |
| ThreadReservation.ReservationDesk.Promises | src/codexThreadCreationReservations.ts:184-292 | The desk keeps the three bounds after any sequence of its methods |
| ThreadReservation.ReservationDesk.RecordStage | src/codexThreadCreationReservations.ts:261-269 | A reported stage is written with its thread |
| ThreadReservation.CallerFilesStayClosed | src/codexThreadCreationReservations.ts:270-285 | After a started creation no write of any call, complete or cut short, makes another creation possible |
| ThreadReservation.ReservationDesk.ReserveCreation | src/codexThreadCreationReservations.ts:105-170 | Reserving in place: a file with another intent is refused for that reason in whatever phase it is, an unreadable file is refused, and the files written are stated |
| ThreadReservation.ReservationDesk.BeginCreation | src/codexThreadCreationReservations.ts:184-258 | The call up to its first await and what it answers there; with another intent than the file's it throws the conflict and leaves file and calls as they were |
| ThreadReservation.ReservationDesk.ContinueRecovered | src/codexThreadCreationReservations.ts:204-258 | The recovery answer, judged against the reservation read before the await |
| ThreadReservation.ReservationDesk.ContinueConfirmed | src/codexThreadCreationReservations.ts:220-258 | The confirmation answer: only a confirmed absence reopens the reservation |
| ThreadReservation.ReservationDesk.FinishCreation | src/codexThreadCreationReservations.ts:260-292 | The outcome of a creation: only a caller's creation that did not start reopens the reservation |
| MessageGrouping.AlwaysSafeIff | src/messageGrouping.ts:117-291 | In any state of any run, whatever messages it took, an identity stays stored or delivered through every continuation - deliveries, failures, crashes and recoveries - if and only if it was delivered or the file holds it in a form that recovery keeps |
| MessageGrouping.AcceptedIsSafeIff | src/messageGrouping.ts:117-291 | A message accepted in any state of any run stays stored or delivered in every later state if and only if it has an identity and a route kind and the group that receives it has all its identifying fields, or it was safe before |
| MessageGrouping.NewIsSafeIff | src/messageGrouping.ts:117-291 | In a queue whose groups are all identified the condition speaks of the message alone: it joins a group, or brings the five group fields itself |
| MessageGrouping.OwedIsStoredOrDelivered | src/messageGrouping.ts:192-291 | In every state of every run each message that met the condition when it was accepted is in a stored group or was delivered, whatever other messages the queue took |
| MessageGrouping.AcceptedIsStoredOrDelivered | src/messageGrouping.ts:192-291 | In histories of messages with all their fields every accepted one is in a stored group or was delivered |
| MessageGrouping.PendingIsArmed | src/messageGrouping.ts:307-321 | In every state of every run, whatever fields its messages had, exactly the pending groups have an armed timer, due no earlier than their deadline, which never lies behind their maximum |
| MessageGrouping.NextKeeps | src/messageGrouping.ts:192-291 | No enqueue of any message, no flush, success, failure or restart loses an identity that was delivered or that groups and file both recover |
| MessageGrouping.TrimmedIsBoundedIff | src/messageGrouping.ts:265-269 | The limit on remembered identities holds if and only if none of those that should leave is empty; then the newest ones stay |
| MessageGrouping.JoiningTheUnidentifiedIsLost | src/messageGrouping.ts:117-133 | A complete message that joins a group without a sender is not safe |
| MessageGrouping.LivingLosesNothing | src/messageGrouping.ts:201-291 | From any sound state and over any run without a restart, every accepted identity stays stored or is delivered, whatever fields it has |
| MessageGrouping.UnidentifiedIsLost | src/messageGrouping.ts:117-133 | A message without a sender is accepted and gone after a restart |
| MessageGrouping.RecoveryRoundTrip | src/messageGrouping.ts:117-174 | A group comes back from the file as it was, pending again, if and only if it and all its items have every field that recovery asks for |
| MessageGrouping.NormalizedPolicy | src/messageGrouping.ts:70-84 | Whatever the settings, 1 <= settle <= incomplete <= longest wait <= 300 seconds |
| MessageGrouping.PolicyIsUsed | src/messageGrouping.ts:75-84 | Settings in range that do not contradict each other are used as they are, and 6, 12 and 20 seconds where nothing is set |
| MessageGrouping.SettingsAreClamped | src/messageGrouping.ts:70-73 | A setting without a positive value gives way to its default, others are moved between 1 and 300 seconds |
| MessageGrouping.AcceptedIsDueInTime | src/messageGrouping.ts:239-248 | An accepted message is due once it has settled, never behind the limit that the group's first message set, which moves only for a group that is being delivered |
| MessageGrouping.RetryBacksOff | src/messageGrouping.ts:281-288 | The pause before another try never shrinks and lies between five and sixty seconds |
| MessageGrouping.RetryDoubles | src/messageGrouping.ts:284-284 | It starts with five seconds and doubles up to a minute |
| MessageGrouping.FailureRetries | src/messageGrouping.ts:281-289 | After a failed delivery the group is pending with all it holds, the error noted, and due again after that pause; nothing else changes |
| MessageGrouping.FlushTakesAll | src/messageGrouping.ts:252-260 | A flush hands out every identity of its group once, counts the attempt, and leaves the group under delivery on file and without a timer |
| MessageGrouping.DeliveryLeavesAdded | src/messageGrouping.ts:262-280 | A delivery leaves exactly the items that came while it ran, in order, pending with a timer, or no group when there are none |
| MessageGrouping.DeliveredIsRefused | src/messageGrouping.ts:201-204 | What was delivered is refused when it comes again, while at most 2000 identities are remembered, after a restart too |
| MessageGrouping.NewestAreRemembered | src/messageGrouping.ts:264-269 | What was just delivered is remembered, whatever older identities have to leave |
| MessageGrouping.RecoveryOrdersDeadlines | src/messageGrouping.ts:117-174 | Whatever the file says, a recovered group is due no later than its limit, and its own deadline stays |
| MessageGrouping.NextKeepsPromises | src/messageGrouping.ts:192-291 | What was accepted or owed stays so, what was delivered stays delivered |
| MessageGrouping.MessageGroupingQueue.Recover | src/messageGrouping.ts:192-198 | A new process over the same file |
| MessageGrouping.EnqueueKeepsInv | src/messageGrouping.ts:201-250 | Enqueueing any message keeps timers, batches, deadlines and file of the queue in step |
| MessageGrouping.SucceededKeepsInv | src/messageGrouping.ts:262-280 | A delivery takes out exactly its batch and keeps timers, batches, deadlines and file in step |
| MessageGrouping.RestartKeepsInv | src/messageGrouping.ts:158-199 | Recovery from the file keeps the invariant at any moment |
| MessageGrouping.MessageGroupingQueue.NothingOwedIsLost | src/messageGrouping.ts:192-291 | The queue object itself promises it after any sequence of its methods, from its groups and from its file alone |
| MessageGrouping.MessageGroupingQueue.Enqueue | src/messageGrouping.ts:201-250 | Enqueue in place, exactly when it accepts, and where the message goes: one group changes, its last item is the message, and it is the group of the message's key, else for a message that answers nothing the only pending group of its base key, else a new group with the message's own fields |
| MessageGrouping.EnqueueIsRight | src/messageGrouping.ts:201-250 | The same of every queue whose groups are under their own keys, and what a refused message must have been: delivered, or in the group it is for |
| MessageGrouping.MessageGroupingQueue.BeginFlush | src/messageGrouping.ts:252-260 | A flush starts exactly for a pending group |
| MessageGrouping.MessageGroupingQueue.FinishFlush | src/messageGrouping.ts:262-280 | A successful delivery in place |
| MessageGrouping.MessageGroupingQueue.RememberDelivered | src/messageGrouping.ts:264-269 | The remembered identities stay distinct; the oldest beyond the limit leave, up to an empty one |
| MessageGrouping.MessageGroupingQueue.RetryFlush | src/messageGrouping.ts:281-289 | A failed delivery in place, with its capped back-off |
| MemoryDelivery.NeverResendsBlindly | src/memoryConsolidationAgent.ts:128-188 | Across deliveries, crashes and restarts a send goes out only when every earlier one returned success, was reported as not started, or had its receipt read as accepted |
| MemoryDelivery.ReceiptIsOfLastSend | src/memoryConsolidationAgent.ts:133-147 | The receipt that is read is the one of the last send |
| MemoryDelivery.OutcomesAreFinal | src/memoryConsolidationAgent.ts:128-188 | A settled send never becomes open again |
| MemoryDelivery.DeliveredIsSettled | src/memoryConsolidationAgent.ts:128-188 | A delivery that answers with a binding has its own prompt as the last send, settled as success or accepted receipt |
| MemoryDelivery.UncertainBlocks | src/memoryConsolidationAgent.ts:133-138 | While a mark is pending, another prompt is blocked, and so is every prompt when the mark has no delivery id; nothing changes |
| MemoryDelivery.SamePromptAsks | src/memoryConsolidationAgent.ts:133-147 | In every run the same prompt asks for the receipt of the marked delivery; an accepted one ends it with the stored binding and clears the mark, any other blocks again and changes nothing |
| MemoryDelivery.ResolvingMeansSettled | src/memoryConsolidationAgent.ts:133-149 | In every run a delivery reaches its target resolution only when every earlier send is settled |
| MemoryDelivery.SendingIsMarked | src/memoryConsolidationAgent.ts:149-153 | A send goes out with its binding and its mark on file, under its own prompt, and behind settled sends only |
| MemoryDelivery.SuccessEnds | src/memoryConsolidationAgent.ts:180-184 | A successful send answers its binding, stores it and clears the mark |
| MemoryDelivery.FailureKeepsMark | src/memoryConsolidationAgent.ts:165-179 | A failed send keeps its mark, with the delivery id the error names, unless it was reported as not started; the answer tells which |
| MemoryDelivery.MemoryConsolidationAgent.NothingIsOpen | src/memoryConsolidationAgent.ts:128-188 | Whenever the agent holds no pending mark, every send it ever made is settled |
| MemoryDelivery.MemoryConsolidationAgent.Deliver | src/memoryConsolidationAgent.ts:128-148 | The start of a delivery: blocked, asking for a receipt, or resolving its target |
| MemoryDelivery.MemoryConsolidationAgent.OnReceipt | src/memoryConsolidationAgent.ts:138-147 | Only an accepted receipt clears the pending mark |
| MemoryDelivery.MemoryConsolidationAgent.OnResolved | src/memoryConsolidationAgent.ts:148-165 | The pending mark is on disk before the send |
| MemoryDelivery.MemoryConsolidationAgent.OnSent | src/memoryConsolidationAgent.ts:180-184 | A successful send clears its mark in the file |
| MemoryDelivery.MemoryConsolidationAgent.OnSendFailed | src/memoryConsolidationAgent.ts:165-179 | A failed send keeps its mark unless it was reported as not started |
| ConversationWindow.ConversationMessageWindow | src/messageContextStore.ts:1247-1287 | The bounded read over head and tail loops equals the window over all files given to it, early stop, archive pruning and overlapping files included |
| ConversationWindow.InitialWindow | src/messageContextStore.ts:1257-1283 | Newest file first, stopping once full: the last `limit` matches and the true latest sequence |
| ConversationWindow.IncrementalWindow | src/messageContextStore.ts:1257-1287 | Of the new matches the first ceil(limit / 2) and the last floor(limit / 2), with true totals |
| ConversationWindow.PruningIsInvisible | src/messageContextStore.ts:1247-1248 | Archives that end at or before the known sequence hide no new message |
| ConversationWindow.StoppedEarly | src/messageContextStore.ts:1279-1283 | A full window over the newest files is the window over all of them, overlaps included |
| ConversationWindow.InitialLatestIsTrue | src/messageContextStore.ts:1253-1264 | The reported index is the last match's sequence |
| ConversationWindow.LatestIsTrue | src/messageContextStore.ts:1256-1266 | In an incremental window it is that of the newest match, or the known one when nothing is new, and no match lies behind it |
| ConversationWindow.WindowShowsMatches | src/messageContextStore.ts:1257-1287 | A window shows nothing but new messages of its conversation, and no more than its limit |
| ConversationWindow.FirstWindowIsNewest | src/messageContextStore.ts:1279-1283 | A first window leaves out only what is older than everything it shows, and only when it is full |
| ConversationWindow.FirstWindowCounts | src/messageContextStore.ts:1286-1287 | A first window counts what it shows and omits nothing |
| ConversationWindow.HalvesAreEnds | src/messageContextStore.ts:1252-1276 | A full incremental window is the first ceil(limit / 2) new matches followed by the last floor(limit / 2) |
| ConversationWindow.TotalIsTrue | src/messageContextStore.ts:1271-1287 | The total counts every new match once and the omitted ones are the rest |
| ConversationWindow.OmittedRangeIsExact | src/agentSendConversationContext.ts:119-130 | For limits of at least two the reported range selects exactly the new matches that are not shown |
| ConversationWindow.NothingIsOmitted | src/messageContextStore.ts:1284-1286 | Up to the limit everything new is shown and nothing is reported as omitted |
| ConversationWindow.LimitOneHasNoUpperBound | src/agentSendConversationContext.ts:130-130 | With a limit of one there is no record behind the gap; the settings demand at least two |
| DiagramCuts.DiagramPageCuts | src/markdownImage.ts:218-239 | The loop terminates for widths of at least 200/23; cuts increase strictly from 0 to the height, none lies a pixel or more inside a label, and the last page is at least a quarter of the width |
| DiagramCuts.MergeLabels | src/markdownImage.ts:220-225 | Merged ranges cover every label and lie more than 16 pixels apart |
| DiagramCuts.CutsAdvanceIff | src/markdownImage.ts:228-234 | That width is exactly when every cut lies behind its page's start |
| DiagramCuts.NarrowCutsCanStick | src/markdownImage.ts:228-234 | Below it the loop can stay where it is for ever |
| DiagramCuts.PageHeights | src/markdownImage.ts:228-234 | A page is never nearly empty, and only a range across its target makes it longer than that |
| DiagramCuts.CutSparesRange | src/markdownImage.ts:231-233 | A page whose end would fall into a range ends in front of it, or behind it when less than two fifths of the target height were left |
| ArchiveReadCache.MessageContextArchiveReadCache.Read | src/messageContextArchiveReadCache.ts:29-54 | A read answers as a load would when the stamp tells what the file holds; the byte count is exact and within its bound, and so is the number of files |
| ArchiveReadCache.MessageContextArchiveReadCache.DropExpired | src/messageContextArchiveReadCache.ts:32-32 | Exactly the expired entries go |
| ArchiveReadCache.OnlyFreshStay | src/messageContextArchiveReadCache.ts:30-30 | An entry is dropped exactly when it was not used for the time to live |
| ArchiveReadCache.EvictionIsMinimal | src/messageContextArchiveReadCache.ts:48-50 | Eviction keeps the longest run of recently used entries that leaves room |
| ArchiveReadCache.AfterReadIsGood | src/messageContextArchiveReadCache.ts:29-54 | Every read keeps the bounds, the order of use and the truth of every entry |
| ArchiveReadCache.ReadIsRemembered | src/messageContextArchiveReadCache.ts:34-53 | A hit becomes the newest entry and drops none; a load of an unchanged, not empty file that fits the bounds becomes the newest entry; any other read leaves no entry of its file and all others |
| ArchiveReadCache.SecondReadHits | src/messageContextArchiveReadCache.ts:30-40 | What was read last is found again within its time to live while the file has the same stamp |
| ConversationQueue.RunningIsAlone | src/agentSendConversationQueue.ts:5-18 | Two sends of one conversation never run at the same time |
| ConversationQueue.FirstComeFirstServed | src/agentSendConversationQueue.ts:5-18 | Sends of one conversation run in the order they came |
| ConversationQueue.NothingLeaks | src/agentSendConversationQueue.ts:14-17 | The map holds exactly the conversations that have work left |
| ConversationQueue.NeverStuck | src/agentSendConversationQueue.ts:10-17 | While a conversation has work left one of its sends is running or can start |
| ConversationQueue.AgentSendConversationQueue.OneAtATime | src/agentSendConversationQueue.ts:5-18 | The queue object never has two running sends of one conversation |
| ConversationQueue.AgentSendConversationQueue.Run | src/agentSendConversationQueue.ts:5-12 | Entering the queue in place |
| ConversationQueue.AgentSendConversationQueue.Release | src/agentSendConversationQueue.ts:14-17 | The tail is dropped only while it is the last |

## Left out

- Torn lines, failed disk writes and file-system order: a crash falls between two whole file writes.
- Legacy import and its renumbering of records: every ledger starts imported, with a catalog.
- `appendMessageContextToDir` prepares duplicate hints before it takes the lock and retries when the inventory changed; the model has one lock-held attempt whose hints never miss a stored key. Hints read as bits, without their base64 and checksum wrapping.
- The archive catalog's time stamps and entry counts; a range's file name follows from its bounds.
- Text normalization of records, and lower-casing before term search: a record carries the text that is searched.
- The refresh that fills the index database: an up-to-date index is one whose rows are the ledger's records in write order with their grams. SQLite, FTS and the choice between query plans are the filter and the order that the SQL states; the estimate that answers early when no posting matches is not modelled.
- The integrity check of stored payloads, the conversation list and the coverage figures of a search result.
- `messageHistoryObservationProven` and `messageHistoryCatalogObservationProven`, which admit a file stamp seen inside an append; a snapshot proof here names both versions exactly.
- Index generations: taking a lease, its directory and its file are one step; the reuse of a retained lease, which writes nothing, is one step; the scheduling of collection is a nondeterministic step.
- The index life cycle, reservations, grouping, memory delivery and the send queue are proved as state machines over values, because their calls interleave; the classes perform the same steps on fields, and their `Valid()` says that the fields are a state the machine reaches.
- IndexLifecycle.IndexDirectory.ReaderStep: a failed pointer recheck gives up instead of trying again up to three times, which adds no new state.
- IdentityStore.IdentityLedger.Update: takes a complete record; the defaults of a patch, the fields demanded to resolve a conflict and the validation of references are absent.
- RecentItems.RecentMessageContextItems: takes the records of all directories as one list; how a directory is read without a lock is `LedgerReaders`, and which archives are skipped is `ArchiveHints`.
- IdentityMixes.ShownConvergesExactly: for mixed logs with events of equal substance the condition is sufficient (`IdentityMixes.SameShown`) and not shown necessary; repeated lines are covered for logs with all citations only.
- LedgerCommits.AppendAndReport: file stamps identify contents; that a stamp never repeats is the file system's part.
- LedgerReaders.UnlockedReadIsPrefix: one directory; an archive whose body cannot be read is not modelled, because no step removes or shortens one.
- Normalization of identity names, aliases and evidence: records carry normalized ones.
- Comparison of identity ids and times by locale: modelled as code-point order. Digests are injective: an account or relation id is the tuple it is computed from.
- Identity lookups for a message (`resolveIdentityRelationContext`).
- Stability of a completed reservation: a stale call may overwrite it, which the model allows.
- At-most-once delivery in the grouping queue: a re-sent message may enter a second group while the first is being delivered.
- The in-place sharing of one group object between the queue and a running delivery: groups are values in the queue's map.
- Initialization prompts and their time stamps in the memory agent, and the lookups inside its target resolution, which end in one binding or a failure.
- ConversationWindow.ConversationMessageWindow: answers from the files it is given, second copies counted; `LedgerWindow.WindowSeesAllIff` says exactly when they are the ledger.
- In `src/agentSendConversationContext.ts:125` a rejected confirmation reports entries of another read beside the omitted count of the first one; the range is claimed only for the entries of one read.
- Confirmation tokens, cached read indexes and their expiry in the send check.
- Floating point in page cuts: heights are integers and all other quantities exact reals.
- PageCursor.CursorRoundTrip: reads the JSON spelling that the program writes; other spellings of the same object and characters that base64 decoding skips are refused here, because no written cursor has them.
- IdentityRepeats.RepeatIsQuiet: assumes that the observed candidate has at most 50 evidence references and no empty name, as every record has that the program wrote; `IdentityRepeats.RepeatIsQuietIff` has no such assumption. Both need the id generated for the second call to be new.
- IdentityLearning.LearningNeverGainsAuthority: assumes event ids without white space and fresh ids for new events, as the program generates them; `IdentityAuthority.LearningGrantsNothing` assumes nothing and allows new conflicts.
- IdentityTeaching.ObserveTeaches: takes lookup and clue names as the program hands them on, absent or not empty.
- Expiry of cache entries follows a clock that never runs backwards.
- HTTP, child processes, browser rendering, provider adapters, prompts and configuration parsing.
