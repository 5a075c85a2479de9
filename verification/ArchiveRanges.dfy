/** Archive files are named by the sequence range they hold; contained ranges are dropped. */
module ArchiveRanges {
  import opened Records
  import opened TextOrder
  import opened Sorting

  datatype Range = Range(file: string, first: int, last: int)

  /** `archiveRangeContains`. */
  predicate Contains(container: Range, item: Range) {
    container.first <= item.first && item.last <= container.last
  }

  /** The quadratic definition: another item holds the same sequences and more, or the very
      same range under an earlier file name. */
  predicate Dominates(other: Range, item: Range) {
    Contains(other, item) && (!Contains(item, other) || Less(other.file, item.file))
  }

  ghost predicate Maximal(items: seq<Range>, item: Range) {
    forall other <- items :: !Dominates(other, item)
  }

  /** The comparator of the one-pass form: first up, last down, then the name. */
  predicate Precedes(a: Range, b: Range) {
    || a.first < b.first
    || (a.first == b.first && b.last < a.last)
    || (a.first == b.first && a.last == b.last && Leq(a.file, b.file))
  }

  lemma PrecedesTotal(a: Range, b: Range)
    ensures Precedes(a, b) || Precedes(b, a)
  {
    LeqTotal(a.file, b.file);
  }

  lemma PrecedesTransitive(a: Range, b: Range, c: Range)
    requires Precedes(a, b) && Precedes(b, c)
    ensures Precedes(a, c)
  {
    if a.first == b.first == c.first && a.last == b.last == c.last {
      LeqTransitive(a.file, b.file, c.file);
    }
  }

  lemma PrecedesOrders()
    ensures Orders(Precedes)
  {
    forall a, b ensures Precedes(a, b) || Precedes(b, a) {
      PrecedesTotal(a, b);
    }
    forall a, b, c | Precedes(a, b) && Precedes(b, c) ensures Precedes(a, c) {
      PrecedesTransitive(a, b, c);
    }
  }

  /** `[...items].sort(...)`. */
  function SortRanges(items: seq<Range>): seq<Range> {
    Sort(items, Precedes)
  }

  lemma SortRangesSorts(items: seq<Range>)
    ensures Sorted(SortRanges(items), Precedes)
    ensures multiset(SortRanges(items)) == multiset(items)
    ensures forall x :: x in SortRanges(items) <==> x in items
  {
    PrecedesOrders();
    SortSorts(items, Precedes);
    SameMembers(SortRanges(items), items);
  }

  ghost function KeepMaximal(s: seq<Range>, items: seq<Range>): seq<Range> {
    if s == [] then []
    else KeepMaximal(s[..|s| - 1], items)
         + if Maximal(items, s[|s| - 1]) then [s[|s| - 1]] else []
  }

  /** What the pass knows once it has seen the items of `seen`: the newest container reaches as
      far as any of them, and an item was retained exactly when none of them dominates it. */
  ghost predicate Scanned(seen: seq<Range>, retained: set<Range>, container: Range) {
    && container in retained && container in seen
    && (forall x <- seen :: x.last <= container.last)
    && (forall x <- retained :: x in seen)
    && (forall x <- seen :: x in retained <==> Maximal(seen, x))
  }

  /** In sorted order, only an earlier item can dominate. */
  lemma LaterNeverDominates(earlier: Range, later: Range)
    requires Precedes(earlier, later)
    ensures !Dominates(later, earlier)
  {
    if Dominates(later, earlier) && earlier.file != later.file {
      LeqAntisymmetric(earlier.file, later.file);
    }
  }

  lemma ScanStep(seen: seq<Range>, retained: set<Range>, container: Range, item: Range)
    requires Scanned(seen, retained, container)
    requires forall x <- seen :: Precedes(x, item)
    ensures var same := container == item;
            if Contains(container, item)
            then Scanned(seen + [item], if same then retained + {item} else retained, container)
            else Scanned(seen + [item], retained + {item}, item)
  {
    var seen' := seen + [item];
    forall x | x in seen ensures Maximal(seen', x) <==> Maximal(seen, x) {
      LaterNeverDominates(x, item);
    }
    if Contains(container, item) {
      assert Precedes(container, item);
      if container == item {
        assert item in retained;
      } else if Dominates(container, item) {
        assert container in seen';
      } else {
        assert Contains(item, container) && container.file != item.file;
        assert Less(container.file, item.file);
      }
    } else {
      forall x | x in seen ensures !Dominates(x, item) {
        assert Precedes(container, item);
      }
    }
  }

  lemma ScanFirst(item: Range)
    ensures Scanned([item], {item}, item)
  {
    LeqReflexive(item.file);
  }

  /** One item of the sorted pass. */
  method RetainItem(retained: set<Range>, container: Option<Range>, item: Range, ghost seen: seq<Range>)
    returns (retained': set<Range>, container': Range)
    requires if container.None? then seen == [] && retained == {} else Scanned(seen, retained, container.value)
    requires forall x <- seen :: Precedes(x, item)
    ensures Scanned(seen + [item], retained', container')
  {
    if container.None? {
      ScanFirst(item);
      assert seen + [item] == [item];
      return {item}, item;
    }
    ScanStep(seen, retained, container.value, item);
    if Contains(container.value, item) {
      // Equal ranges under one name are the same archive, not containing copies.
      return if container.value == item then retained + {item} else retained, container.value;
    }
    return retained + {item}, item;
  }

  /** The sorted pass with its moving container. */
  method RetainedRanges(items: seq<Range>) returns (retained: set<Range>)
    ensures forall x <- items :: x in retained <==> Maximal(items, x)
  {
    var ordered := SortRanges(items);
    SortRangesSorts(items);
    retained := {};
    var container: Option<Range> := None;
    for i := 0 to |ordered|
      invariant if container.None? then i == 0 && retained == {} else Scanned(ordered[..i], retained, container.value)
    {
      var last;
      retained, last := RetainItem(retained, container, ordered[i], ordered[..i]);
      container := Some(last);
      assert ordered[..i + 1] == ordered[..i] + [ordered[i]];
    }
    assert ordered[..|ordered|] == ordered;
    SameMaximal(items, ordered);
    if items != [] {
      assert items[0] in ordered;
    }
  }

  lemma SameMaximal(items: seq<Range>, ordered: seq<Range>)
    requires forall x :: x in ordered <==> x in items
    ensures forall x :: Maximal(ordered, x) <==> Maximal(items, x)
  {
  }

  /** `compactContainedArchives`. */
  method CompactContainedArchives(items: seq<Range>) returns (kept: seq<Range>)
    ensures kept == KeepMaximal(items, items)
  {
    var retained := RetainedRanges(items);
    kept := [];
    for i := 0 to |items|
      invariant kept == KeepMaximal(items[..i], items)
    {
      assert items[..i + 1][..i] == items[..i];
      if items[i] in retained {
        kept := kept + [items[i]];
      }
    }
    assert items[..|items|] == items;
  }

  // ---------------------------------------------------------------- what compaction keeps

  ghost predicate Covers(items: seq<Range>, sequence: int) {
    exists x <- items :: x.first <= sequence <= x.last
  }

  lemma {:induction false} KeptIffMaximal(s: seq<Range>, items: seq<Range>)
    ensures forall x :: x in KeepMaximal(s, items) <==> x in s && Maximal(items, x)
  {
    if s != [] {
      KeptIffMaximal(s[..|s| - 1], items);
      assert s == s[..|s| - 1] + [s[|s| - 1]];
    }
  }

  lemma DominatesTransitive(a: Range, b: Range, c: Range)
    requires Dominates(a, b) && Dominates(b, c)
    ensures Dominates(a, c)
  {
    if Contains(c, a) {
      LeqTransitive(a.file, b.file, c.file);
      if a.file == c.file { LeqAntisymmetric(a.file, b.file); }
    }
  }

  /** Every item lies inside one that compaction keeps. */
  lemma {:induction false} KeptContainer(items: seq<Range>, item: Range, rest: seq<Range>) returns (kept: Range)
    requires item in items
    requires forall x <- items :: Dominates(x, item) ==> x in rest
    ensures kept in items && Maximal(items, kept) && (kept == item || Dominates(kept, item))
    decreases |rest|
  {
    if Maximal(items, item) {
      kept := item;
    } else {
      var d :| d in items && Dominates(d, item);
      var i :| 0 <= i < |rest| && rest[i] == d;
      var fewer := rest[..i] + rest[i + 1..];
      forall x | x in items && Dominates(x, d) ensures x in fewer {
        DominatesTransitive(x, d, item);
        var j :| 0 <= j < |rest| && rest[j] == x;
        assert x != d;
        assert if j < i then fewer[j] == x else fewer[j - 1] == x;
      }
      kept := KeptContainer(items, d, fewer);
      if kept != d {
        DominatesTransitive(kept, d, item);
      }
    }
  }

  /** Compaction loses no sequence number. */
  lemma CompactionKeepsCoverage(items: seq<Range>, sequence: int)
    ensures Covers(KeepMaximal(items, items), sequence) <==> Covers(items, sequence)
  {
    KeptIffMaximal(items, items);
    if Covers(items, sequence) {
      var x :| x in items && x.first <= sequence <= x.last;
      var kept := KeptContainer(items, x, items);
    }
  }

  /** The ranges that remain form a staircase: a later start means a later end. */
  lemma KeptRangesAreStaircase(items: seq<Range>, a: Range, b: Range)
    requires a in KeepMaximal(items, items) && b in KeepMaximal(items, items)
    ensures a.first < b.first <==> a.last < b.last
    ensures a.first == b.first ==> a == b
  {
    KeptIffMaximal(items, items);
    assert !Dominates(a, b) && !Dominates(b, a);
    LeqTotal(a.file, b.file);
  }
}
