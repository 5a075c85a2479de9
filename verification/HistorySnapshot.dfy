/** Serving the ledger as it stood at an earlier commit from an index that is already newer. */
module HistorySnapshot {
  import opened Records
  import opened FirstWrite
  import opened RecentItems
  import opened HistorySearch
  import opened AppendProof

  type Guards = map<string, Stamp>

  datatype Visibility =
    | Exact                   // the index stands at the requested version
    | Prefix(records: nat)    // only the first records of the current file may be seen
    | Lagging(diagnostic: string)

  /** What the index was built from: file versions, archive layout, the epoch of the current file. */
  datatype Built = Built(guards: Guards, layout: string, epoch: string)

  function FindVersion(commits: seq<Version>, stamp: Stamp): (i: int)
    ensures -1 <= i < |commits|
    ensures 0 <= i ==> commits[i].stamp == stamp
  {
    if commits == [] then -1
    else if commits[0].stamp == stamp then 0
    else
      var rest := FindVersion(commits[1..], stamp);
      if rest < 0 then -1 else rest + 1
  }

  function StampOf(guards: Guards, file: string): Stamp {
    if file in guards then guards[file] else "missing"
  }

  /** The snapshot check of `searchMessageHistoryIndexResult`; `unstable` are the current file,
      the catalog and the archive directory. */
  function Visible(built: Built, target: Guards, targetEpoch: string, currentFile: string,
                   unstable: set<string>, proof: Option<Proof>): Visibility
  {
    if built.guards == target then Exact
    else if proof.None? then Lagging("unproven_append")
    else
      var indexed := FindVersion(proof.value.commits, StampOf(built.guards, currentFile));
      var requested := FindVersion(proof.value.commits, StampOf(target, currentFile));
      if built.guards - unstable != target - unstable then Lagging("archive_changed")
      else if proof.value.layout != built.layout then Lagging("layout_changed")
      else if targetEpoch != built.epoch then Lagging("epoch_changed")
      else if requested < 0 then Lagging("unproven_target_version")
      else if indexed < 0 then Lagging("unproven_index_version")
      else if indexed < requested then Lagging("index_behind")
      else Prefix(proof.value.commits[requested].records)
  }

  /** Rows in scope: every row of an archive, and the visible rows of the current file. */
  ghost function Eligible(rows: seq<Row>, includeArchives: bool, v: Visibility): seq<Row> {
    if rows == [] then []
    else
      var n := |rows| - 1;
      Eligible(rows[..n], includeArchives, v) + if RowInScope(rows[n], includeArchives, v) then [rows[n]] else []
  }

  predicate RowInScope(row: Row, includeArchives: bool, v: Visibility) {
    (includeArchives || row.current) && (v.Prefix? && row.current ==> row.at.position < v.records)
  }

  method EligibleRows(rows: seq<Row>, includeArchives: bool, v: Visibility) returns (eligible: seq<Row>)
    ensures eligible == Eligible(rows, includeArchives, v)
  {
    eligible := [];
    for i := 0 to |rows|
      invariant eligible == Eligible(rows[..i], includeArchives, v)
    {
      assert rows[..i + 1][..i] == rows[..i];
      if RowInScope(rows[i], includeArchives, v) {
        eligible := eligible + [rows[i]];
      }
    }
    assert rows[..|rows|] == rows;
  }

  lemma {:induction false} EligibleMembers(rows: seq<Row>, includeArchives: bool, v: Visibility)
    ensures forall row <- Eligible(rows, includeArchives, v) :: row in rows
  {
    if rows != [] {
      EligibleMembers(rows[..|rows| - 1], includeArchives, v);
    }
  }

  lemma OrderedAppend(kept: seq<Row>, rows: seq<Row>, row: Row)
    requires UpToDate(kept) && UpToDate(rows + [row]) && forall r <- kept :: r in rows
    ensures UpToDate(kept + [row])
  {
    assert (rows + [row])[|rows|] == row;
    forall i | 0 <= i < |kept| ensures Before(kept[i].at, row.at) {
      assert kept[i] in rows;
      var j :| 0 <= j < |rows| && rows[j] == kept[i];
      assert (rows + [row])[j] == rows[j];
    }
  }

  lemma {:induction false} EligibleKeepsOrder(rows: seq<Row>, includeArchives: bool, v: Visibility)
    requires UpToDate(rows)
    ensures UpToDate(Eligible(rows, includeArchives, v))
  {
    if rows != [] {
      var n := |rows| - 1;
      EligibleKeepsOrder(rows[..n], includeArchives, v);
      EligibleMembers(rows[..n], includeArchives, v);
      assert rows == rows[..n] + [rows[n]];
      OrderedAppend(Eligible(rows[..n], includeArchives, v), rows[..n], rows[n]);
    }
  }

  /** The index rows of one directory: archives first, then the lines of the current file. */
  ghost predicate LaidOut(archives: seq<Row>, current: seq<Row>) {
    && (forall row <- archives :: !row.current)
    && (forall i :: 0 <= i < |current| ==> current[i].current && current[i].at.position == i)
  }

  lemma {:induction false} EligibleOfArchives(archives: seq<Row>, includeArchives: bool, v: Visibility)
    requires forall row <- archives :: !row.current
    ensures Eligible(archives, includeArchives, v) == if includeArchives then archives else []
  {
    if archives != [] {
      EligibleOfArchives(archives[..|archives| - 1], includeArchives, v);
    }
  }

  /** The rows of the current file that may be seen. */
  ghost function Seen(current: seq<Row>, v: Visibility): seq<Row> {
    if v.Prefix? && v.records <= |current| then current[..v.records] else current
  }

  lemma EligibleAppend(rows: seq<Row>, row: Row, includeArchives: bool, v: Visibility)
    ensures Eligible(rows + [row], includeArchives, v)
         == Eligible(rows, includeArchives, v) + if RowInScope(row, includeArchives, v) then [row] else []
  {
    assert (rows + [row])[..|rows|] == rows;
  }

  lemma SeenAppend(current: seq<Row>, row: Row, v: Visibility)
    requires row.current && row.at.position == |current| && !v.Lagging?
    ensures Seen(current + [row], v) == Seen(current, v) + if RowInScope(row, true, v) then [row] else []
  {
    if v.Prefix? && v.records <= |current| {
      assert (current + [row])[..v.records] == current[..v.records];
    } else if v.Prefix? && v.records == |current| + 1 {
      assert (current + [row])[..v.records] == current + [row];
    }
  }

  lemma {:induction false} EligibleOfLedger(archives: seq<Row>, current: seq<Row>, includeArchives: bool, v: Visibility)
    requires LaidOut(archives, current) && !v.Lagging?
    ensures Eligible(archives + current, includeArchives, v)
            == (if includeArchives then archives else []) + Seen(current, v)
    decreases current
  {
    if current == [] {
      assert archives + current == archives;
      EligibleOfArchives(archives, includeArchives, v);
    } else {
      var n := |current| - 1;
      assert current == current[..n] + [current[n]];
      assert archives + current == (archives + current[..n]) + [current[n]];
      EligibleOfLedger(archives, current[..n], includeArchives, v);
      EligibleAppend(archives + current[..n], current[n], includeArchives, v);
      SeenAppend(current[..n], current[n], v);
    }
  }

  /** What an up-to-date search would read at the requested version. */
  ghost function LedgerAt(archives: seq<Row>, includeArchives: bool, current: seq<Record>): seq<Record> {
    (if includeArchives then RecordsOf(archives) else []) + current
  }

  /** The record limit cuts the indexed file back to the requested version of it. */
  lemma VisibleIsRequestedVersion(
      indexed: seq<Record>, built: Built, target: Guards, targetEpoch: string, currentFile: string,
      unstable: set<string>, proof: Option<Proof>, reported: seq<Commit>, world: Stamp -> seq<Record>)
    requires indexed == world(StampOf(built.guards, currentFile))
    requires proof.Some? ==> GapFree(reported, proof.value)
    requires forall c <- reported :: Honest(c, world)
    ensures var v := Visible(built, target, targetEpoch, currentFile, unstable, proof);
            var wanted := world(StampOf(target, currentFile));
            && (v.Exact? ==> wanted == indexed)
            && (v.Prefix? ==> v.records <= |indexed| && wanted == indexed[..v.records])
  {
    if Visible(built, target, targetEpoch, currentFile, unstable, proof).Prefix? {
      var commits := proof.value.commits;
      GapFreeProofReflectsWorld(reported, proof.value, world);
      EarlierIsPrefix(commits, world, FindVersion(commits, StampOf(target, currentFile)),
                      FindVersion(commits, StampOf(built.guards, currentFile)));
    }
  }

  /** The first version of the proof with this stamp. */
  predicate IsFirstVersion(commits: seq<Version>, stamp: Stamp, i: int) {
    && 0 <= i < |commits| && commits[i].stamp == stamp
    && forall j :: 0 <= j < i ==> commits[j].stamp != stamp
  }

  lemma {:induction false} FindVersionIff(commits: seq<Version>, stamp: Stamp, i: int)
    ensures FindVersion(commits, stamp) == i && 0 <= i <==> IsFirstVersion(commits, stamp, i)
    ensures FindVersion(commits, stamp) < 0 ==> forall j :: !IsFirstVersion(commits, stamp, j)
  {
    if commits != [] && commits[0].stamp != stamp {
      FindVersionIff(commits[1..], stamp, i - 1);
      forall j ensures IsFirstVersion(commits, stamp, j) <==> IsFirstVersion(commits[1..], stamp, j - 1) {
        assert forall k :: 0 < k < |commits| ==> commits[k] == commits[1..][k - 1];
      }
    }
  }

  /** Outside the files that an append may change, nothing differs. */
  ghost predicate SameElsewhere(a: Guards, b: Guards, unstable: set<string>) {
    forall file | file !in unstable :: (file in a <==> file in b) && (file in a ==> a[file] == b[file])
  }

  /** The proof tells that the requested version of the current file came no later than the indexed
      one, of the same file, under the same archives. */
  ghost predicate IsProven(built: Built, target: Guards, targetEpoch: string, currentFile: string,
      unstable: set<string>, p: Proof) {
    && SameElsewhere(built.guards, target, unstable)
    && p.layout == built.layout && targetEpoch == built.epoch
    && ComesFirst(p.commits, StampOf(target, currentFile), StampOf(built.guards, currentFile))
  }

  lemma SameElsewhereIff(a: Guards, b: Guards, unstable: set<string>)
    ensures SameElsewhere(a, b, unstable) <==> a - unstable == b - unstable
  {
    if a - unstable == b - unstable {
      forall file | file !in unstable ensures (file in a <==> file in b) && (file in a ==> a[file] == b[file]) {
        assert file in a <==> file in a - unstable;
        assert file in b <==> file in b - unstable;
        assert file in a ==> a[file] == (a - unstable)[file];
        assert file in b ==> b[file] == (b - unstable)[file];
      }
    }
    if SameElsewhere(a, b, unstable) {
      assert (a - unstable).Keys == (b - unstable).Keys;
    }
  }

  /** A search of another version is answered exactly when a proof connects the two; otherwise it
      says that the index lags. The answer is cut at the records of the requested version. */
  lemma AnswersIffProven(built: Built, target: Guards, targetEpoch: string, currentFile: string,
      unstable: set<string>, proof: Option<Proof>)
    ensures var v := Visible(built, target, targetEpoch, currentFile, unstable, proof);
            && (v.Exact? <==> built.guards == target)
            && (v.Prefix? <==> built.guards != target && proof.Some?
                               && IsProven(built, target, targetEpoch, currentFile, unstable, proof.value))
            && (v.Prefix? ==> exists r ::
                  IsFirstVersion(proof.value.commits, StampOf(target, currentFile), r)
                  && v.records == proof.value.commits[r].records)
  {
    SameElsewhereIff(built.guards, target, unstable);
    if proof.Some? {
      OrderIff(proof.value.commits, StampOf(target, currentFile), StampOf(built.guards, currentFile));
      FindVersionIff(proof.value.commits, StampOf(target, currentFile),
        FindVersion(proof.value.commits, StampOf(target, currentFile)));
    }
  }

  ghost predicate ComesFirst(commits: seq<Version>, first: Stamp, second: Stamp) {
    exists r, i :: r <= i && IsFirstVersion(commits, first, r) && IsFirstVersion(commits, second, i)
  }

  lemma OrderIff(commits: seq<Version>, first: Stamp, second: Stamp)
    ensures ComesFirst(commits, first, second) <==> 0 <= FindVersion(commits, first) <= FindVersion(commits, second)
  {
    FindVersionIff(commits, first, FindVersion(commits, first));
    FindVersionIff(commits, second, FindVersion(commits, second));
    if r, i :| r <= i && IsFirstVersion(commits, first, r) && IsFirstVersion(commits, second, i) {
      FindVersionIff(commits, first, r);
      FindVersionIff(commits, second, i);
    }
  }

  lemma RecordsOfSeen(current: seq<Row>, v: Visibility)
    requires v.Prefix? ==> v.records <= |current|
    ensures RecordsOf(Seen(current, v)) == RecordsOf(current)[..if v.Prefix? then v.records else |current|]
  {
  }

  lemma RecordsOfBoth(a: seq<Row>, b: seq<Row>)
    ensures RecordsOf(a + b) == RecordsOf(a) + RecordsOf(b)
  {
  }

  lemma RecordsOfEligible(archives: seq<Row>, current: seq<Row>, includeArchives: bool, v: Visibility)
    requires LaidOut(archives, current)
    requires !v.Lagging? && (v.Prefix? ==> v.records <= |current|)
    ensures RecordsOf(Eligible(archives + current, includeArchives, v))
         == LedgerAt(archives, includeArchives, RecordsOf(current)[..if v.Prefix? then v.records else |current|])
  {
    EligibleOfLedger(archives, current, includeArchives, v);
    RecordsOfSeen(current, v);
    RecordsOfBoth(if includeArchives then archives else [], Seen(current, v));
    assert RecordsOf([]) == [];
  }

  /** The visible rows are exactly the ledger as it stood at the requested commit. */
  lemma SnapshotIsLedgerAtCommit(
      archives: seq<Row>, current: seq<Row>, includeArchives: bool,
      built: Built, target: Guards, targetEpoch: string, currentFile: string, unstable: set<string>,
      proof: Option<Proof>, reported: seq<Commit>, world: Stamp -> seq<Record>)
    requires LaidOut(archives, current)
    requires RecordsOf(current) == world(StampOf(built.guards, currentFile))
    requires proof.Some? ==> GapFree(reported, proof.value)
    requires forall c <- reported :: Honest(c, world)
    requires !Visible(built, target, targetEpoch, currentFile, unstable, proof).Lagging?
    ensures RecordsOf(Eligible(archives + current, includeArchives,
                               Visible(built, target, targetEpoch, currentFile, unstable, proof)))
         == LedgerAt(archives, includeArchives, world(StampOf(target, currentFile)))
  {
    VisibleIsRequestedVersion(RecordsOf(current), built, target, targetEpoch, currentFile, unstable, proof, reported,
      world);
    RecordsOfEligible(archives, current, includeArchives,
                      Visible(built, target, targetEpoch, currentFile, unstable, proof));
  }

  /** A search answered by a newer index equals the plain scan over the ledger prefix that
      existed at the requested commit; otherwise the search says that it lags. */
  method SearchSnapshot(
      archives: seq<Row>, current: seq<Row>, includeArchives: bool, q: Query,
      built: Built, target: Guards, targetEpoch: string, currentFile: string, unstable: set<string>,
      proof: Option<Proof>, ghost reported: seq<Commit>, ghost world: Stamp -> seq<Record>)
    returns (entries: Option<seq<Record>>)
    requires UpToDate(archives + current) && LaidOut(archives, current)
    requires RecordsOf(current) == world(StampOf(built.guards, currentFile))
    requires proof.Some? ==> GapFree(reported, proof.value)
    requires forall c <- reported :: Honest(c, world)
    ensures entries.None? <==> Visible(built, target, targetEpoch, currentFile, unstable, proof).Lagging?
    ensures entries.Some? ==>
              entries.value == Recent(LedgerAt(archives, includeArchives, world(StampOf(target, currentFile))), q)
  {
    var v := Visible(built, target, targetEpoch, currentFile, unstable, proof);
    if v.Lagging? {
      return None;
    }
    SnapshotIsLedgerAtCommit(archives, current, includeArchives, built, target, targetEpoch, currentFile,
                             unstable, proof, reported, world);
    var rows := EligibleRows(archives + current, includeArchives, v);
    EligibleKeepsOrder(archives + current, includeArchives, v);
    var found := SearchMessageHistory(rows, q);
    entries := Some(found);
  }

  /** A page at an earlier commit: the visible rows are the ledger as it stood then, and the page
      is a page of them. */
  method SearchSnapshotPage(
      archives: seq<Row>, current: seq<Row>, includeArchives: bool, q: Query, before: Option<Position>,
      built: Built, target: Guards, targetEpoch: string, currentFile: string, unstable: set<string>,
      proof: Option<Proof>, ghost reported: seq<Commit>, ghost world: Stamp -> seq<Record>)
    returns (answered: bool, entries: seq<Record>, next: Option<Position>)
    requires UpToDate(archives + current) && LaidOut(archives, current)
    requires RecordsOf(current) == world(StampOf(built.guards, currentFile))
    requires proof.Some? ==> GapFree(reported, proof.value)
    requires forall c <- reported :: Honest(c, world)
    ensures !answered <==> Visible(built, target, targetEpoch, currentFile, unstable, proof).Lagging?
    ensures answered ==>
              var rows := Eligible(archives + current, includeArchives,
                                   Visible(built, target, targetEpoch, currentFile, unstable, proof));
              && RecordsOf(rows) == LedgerAt(archives, includeArchives, world(StampOf(target, currentFile)))
              && IsPage(rows, q, before, entries, next)
  {
    var v := Visible(built, target, targetEpoch, currentFile, unstable, proof);
    if v.Lagging? {
      return false, [], None;
    }
    SnapshotIsLedgerAtCommit(archives, current, includeArchives, built, target, targetEpoch, currentFile,
                             unstable, proof, reported, world);
    var rows := EligibleRows(archives + current, includeArchives, v);
    EligibleKeepsOrder(archives + current, includeArchives, v);
    answered := true;
    entries, next := SearchPage(rows, q, before);
  }
}
