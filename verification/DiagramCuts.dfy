/** Where a tall diagram is cut into pages, over exact reals. */
module DiagramCuts {
  import opened Records
  import opened Sorting

  datatype Bounds = Bounds(top: real, bottom: real)

  /** `Math.ceil`. */
  function Ceil(x: real): (c: int)
    ensures c as real - 1.0 < x <= c as real
  {
    -(-x).Floor
  }

  function Max(a: real, b: real): real { if a < b then b else a }

  // ---------------------------------------------------------------- ranges

  predicate NotBelow(a: Bounds, b: Bounds) { a.top <= b.top }

  /** `[...labels].sort(...)`: by top, equal tops in their order. */
  function SortByTop(labels: seq<Bounds>): seq<Bounds> {
    Sort(labels, NotBelow)
  }

  lemma SortByTopSorts(labels: seq<Bounds>)
    ensures Sorted(SortByTop(labels), NotBelow)
    ensures forall x :: x in SortByTop(labels) <==> x in labels
  {
    SortSorts(labels, NotBelow);
    SameMembers(SortByTop(labels), labels);
  }

  const GAP := 16.0

  /** Each range starts more than a gap below every range before it. */
  ghost predicate Separated(ranges: seq<Bounds>) {
    forall i, j :: 0 <= i < j < |ranges| ==> ranges[i].bottom + GAP < ranges[j].top
  }

  predicate Within(b: Bounds, r: Bounds) { r.top <= b.top && b.bottom <= r.bottom }

  ghost predicate Covered(labels: seq<Bounds>, ranges: seq<Bounds>) {
    forall b <- labels :: exists r <- ranges :: Within(b, r)
  }

  predicate TopsBelow(ranges: seq<Bounds>, top: real) {
    forall r <- ranges :: r.top <= top
  }

  lemma JoinSeparated(ranges: seq<Bounds>, box: Bounds)
    requires Separated(ranges) && ranges != []
    ensures var n := |ranges| - 1;
            Separated(ranges[..n] + [Bounds(ranges[n].top, Max(ranges[n].bottom, box.bottom))])
  {
  }

  lemma JoinCovered(labels: seq<Bounds>, ranges: seq<Bounds>, box: Bounds)
    requires Covered(labels, ranges) && ranges != [] && ranges[|ranges| - 1].top <= box.top
    ensures var n := |ranges| - 1;
            Covered(labels + [box], ranges[..n] + [Bounds(ranges[n].top, Max(ranges[n].bottom, box.bottom))])
  {
    var n := |ranges| - 1;
    var last := Bounds(ranges[n].top, Max(ranges[n].bottom, box.bottom));
    var joined := ranges[..n] + [last];
    assert joined[n] == last && Within(box, last);
    forall b | b in labels ensures exists r <- joined :: Within(b, r) {
      var r :| r in ranges && Within(b, r);
      var i :| 0 <= i < |ranges| && ranges[i] == r;
      assert Within(b, joined[i]);
    }
  }

  lemma BeginCovered(labels: seq<Bounds>, ranges: seq<Bounds>, box: Bounds)
    requires Covered(labels, ranges)
    ensures Covered(labels + [box], ranges + [box])
  {
    var more := ranges + [box];
    assert more[|ranges|] == box && Within(box, box);
    forall b | b in labels ensures exists r <- more :: Within(b, r) {
      var r :| r in ranges && Within(b, r);
      assert r in more;
    }
  }

  lemma BeginSeparated(ranges: seq<Bounds>, box: Bounds)
    requires Separated(ranges) && TopsBelow(ranges, box.top)
    requires ranges != [] ==> ranges[|ranges| - 1].bottom + GAP < box.top
    ensures Separated(ranges + [box])
  {
    var n := |ranges| - 1;
    if n >= 0 {
      assert ranges[n] in ranges;
    }
    forall i | 0 <= i <= n ensures ranges[i].bottom + GAP < box.top {
      if i < n {
        assert ranges[i].bottom + GAP < ranges[n].top;
      }
    }
  }

  /** One step of the merge: the label joins the last range or begins one. */
  method MergeLabel(ranges: seq<Bounds>, box: Bounds, ghost labels: seq<Bounds>) returns (merged: seq<Bounds>)
    requires Separated(ranges) && Covered(labels, ranges) && TopsBelow(ranges, box.top)
    ensures Separated(merged) && Covered(labels + [box], merged) && TopsBelow(merged, box.top)
  {
    var n := |ranges| - 1;
    if ranges != [] && box.top <= ranges[n].bottom + GAP {
      assert ranges[n] in ranges;
      JoinSeparated(ranges, box);
      JoinCovered(labels, ranges, box);
      return ranges[..n] + [Bounds(ranges[n].top, Max(ranges[n].bottom, box.bottom))];
    }
    BeginSeparated(ranges, box);
    BeginCovered(labels, ranges, box);
    return ranges + [box];
  }

  method MergeLabels(labels: seq<Bounds>) returns (ranges: seq<Bounds>)
    ensures Separated(ranges) && Covered(labels, ranges)
  {
    var sorted := SortByTop(labels);
    SortByTopSorts(labels);
    ranges := [];
    for i := 0 to |sorted|
      invariant Separated(ranges) && Covered(sorted[..i], ranges)
      invariant i < |sorted| ==> TopsBelow(ranges, sorted[i].top)
    {
      ranges := MergeLabel(ranges, sorted[i], sorted[..i]);
      assert sorted[..i + 1] == sorted[..i] + [sorted[i]];
      assert i + 1 < |sorted| ==> NotBelow(sorted[i], sorted[i + 1]);
    }
    assert sorted[..|sorted|] == sorted;
    SameCovered(sorted, labels, ranges);
  }

  lemma SameCovered(sorted: seq<Bounds>, labels: seq<Bounds>, ranges: seq<Bounds>)
    requires Covered(sorted, ranges) && forall x :: x in sorted <==> x in labels
    ensures Covered(labels, ranges)
  {
  }

  // ---------------------------------------------------------------- cuts

  predicate Inside(x: real, r: Bounds) { r.top < x < r.bottom }

  /** `ranges.find`. */
  function Occupied(ranges: seq<Bounds>, x: real): (r: Option<Bounds>)
    ensures r.Some? ==> r.value in ranges && Inside(x, r.value)
    ensures r.None? ==> forall b <- ranges :: !Inside(x, b)
  {
    if ranges == [] then None
    else
      assert ranges == [ranges[0]] + ranges[1..];
      if Inside(x, ranges[0]) then Some(ranges[0]) else Occupied(ranges[1..], x)
  }

  /** The target for the page that starts at `start`, moved out of a range that it hits. */
  function Wanted(width: real, start: int, ranges: seq<Bounds>): real {
    var target := start as real + width * 1.15;
    match Occupied(ranges, target)
    case None => target
    case Some(r) => if r.top > start as real + width * 1.15 * 0.4 then r.top - 4.0 else r.bottom + 4.0
  }

  function NextCut(width: real, height: int, start: int, ranges: seq<Bounds>): int {
    var cut := Ceil(Wanted(width, start, ranges));
    if height < cut then height else cut
  }

  /** The narrowest width, 200/23, for which a page that ends above a label is not empty. */
  ghost predicate WideEnough(width: real) {
    width * 0.46 >= 4.0
  }

  lemma WantedIsFarEnough(width: real, start: int, ranges: seq<Bounds>)
    requires 0.0 < width
    ensures Wanted(width, start, ranges) > start as real + width * 0.46 - 4.0
  {
  }

  lemma CutsAdvance(width: real, height: int, start: int, ranges: seq<Bounds>)
    requires 0.0 < width && WideEnough(width) && height as real - start as real > width * 1.3
    ensures NextCut(width, height, start, ranges) > start
  {
    WantedIsFarEnough(width, start, ranges);
  }

  /** A page is never nearly empty, and only a range across its target makes it longer than that. */
  lemma PageHeights(width: real, height: int, start: int, ranges: seq<Bounds>)
    requires 0.0 < width && height as real - start as real > width * 1.3
    ensures var cut := NextCut(width, height, start, ranges);
            && (cut - start) as real > width * 0.46 - 4.0
            && ((cut - start) as real < width * 1.15 + 1.0
                || exists r <- ranges :: Inside(start as real + width * 1.15, r) && cut as real < r.bottom + 5.0)
  {
    WantedIsFarEnough(width, start, ranges);
    var target := start as real + width * 1.15;
    var hit := Occupied(ranges, target);
    if hit.Some? && hit.value.top <= start as real + width * 1.15 * 0.4 {
      assert Wanted(width, start, ranges) == hit.value.bottom + 4.0;
    }
  }

  /** A page whose end would fall into a range ends in front of that range, or takes all of it along
      when too little of the page were left. */
  lemma CutSparesRange(width: real, height: int, start: int, ranges: seq<Bounds>, r: Bounds)
    requires r in ranges && Inside(start as real + width * 1.15, r)
    requires forall b <- ranges :: Inside(start as real + width * 1.15, b) ==> b == r
    ensures var cut := NextCut(width, height, start, ranges);
            && (r.top > start as real + width * 0.46 ==> cut as real < r.top - 3.0)
            && (r.top <= start as real + width * 0.46 && cut < height ==>
                  r.bottom + 4.0 <= cut as real < r.bottom + 5.0)
  {
  }

  /** One pixel or more inside a label. */
  predicate Deep(cut: int, box: Bounds) {
    box.top + 1.0 <= cut as real && cut as real <= box.bottom - 1.0
  }

  lemma WantedIsFree(width: real, start: int, ranges: seq<Bounds>, r: Bounds)
    requires Separated(ranges) && r in ranges
    ensures var x := Wanted(width, start, ranges);
            !Inside(x, r) && !(r.top + 1.0 <= Ceil(x) as real && Ceil(x) as real <= r.bottom - 1.0)
  {
    var target := start as real + width * 1.15;
    var hit := Occupied(ranges, target);
    if hit.Some? {
      var i :| 0 <= i < |ranges| && ranges[i] == hit.value;
      var j :| 0 <= j < |ranges| && ranges[j] == r;
    }
  }

  /** What the list of cuts keeps while it grows. */
  ghost predicate GoodCuts(width: real, height: int, labels: seq<Bounds>, cuts: seq<int>) {
    && cuts != [] && cuts[0] == 0
    && (forall i, j :: 0 <= i < j < |cuts| ==> cuts[i] < cuts[j])
    && (forall i :: 0 < i < |cuts| ==> Interior(width, height, labels, cuts[i]))
  }

  ghost predicate Interior(width: real, height: int, labels: seq<Bounds>, cut: int) {
    && height as real - cut as real >= width * 0.25
    && forall b <- labels :: !Deep(cut, b)
  }

  lemma CutIsInterior(width: real, height: int, labels: seq<Bounds>, ranges: seq<Bounds>, start: int)
    requires 0.0 < width && Separated(ranges) && Covered(labels, ranges)
    requires height as real - NextCut(width, height, start, ranges) as real >= width * 0.25
    ensures Interior(width, height, labels, NextCut(width, height, start, ranges))
  {
    var cut := NextCut(width, height, start, ranges);
    forall b | b in labels ensures !Deep(cut, b) {
      var r :| r in ranges && Within(b, r);
      WantedIsFree(width, start, ranges, r);
    }
  }

  lemma GoodCutsAppend(width: real, height: int, labels: seq<Bounds>, cuts: seq<int>, cut: int)
    requires GoodCuts(width, height, labels, cuts) && cuts[|cuts| - 1] < cut && Interior(width, height, labels, cut)
    ensures GoodCuts(width, height, labels, cuts + [cut])
  {
    forall i, j | 0 <= i < j < |cuts + [cut]| ensures (cuts + [cut])[i] < (cuts + [cut])[j] {
      if i < |cuts| - 1 {
        assert cuts[i] < cuts[|cuts| - 1];
      }
    }
  }

  /** `diagramPageCuts`. */
  method DiagramPageCuts(width: real, height: int, labels: seq<Bounds>) returns (cuts: seq<int>)
    requires 0.0 < width && WideEnough(width) && 0 < height
    ensures |cuts| >= 2 && cuts[0] == 0 && cuts[|cuts| - 1] == height
    ensures forall i, j :: 0 <= i < j < |cuts| ==> cuts[i] < cuts[j]
    ensures forall i, b :: 0 < i < |cuts| - 1 && b in labels ==> !Deep(cuts[i], b)
    ensures height as real > width * 1.3 ==> (height - cuts[|cuts| - 2]) as real >= width * 0.25
    ensures height as real <= width * 1.3 ==> cuts == [0, height]
  {
    if height as real <= width * 1.3 {
      return [0, height];
    }
    var ranges := MergeLabels(labels);
    cuts := [0];
    while (height - cuts[|cuts| - 1]) as real > width * 1.3
      invariant GoodCuts(width, height, labels, cuts)
      decreases height - cuts[|cuts| - 1]
    {
      var start := cuts[|cuts| - 1];
      var cut := NextCut(width, height, start, ranges);
      CutsAdvance(width, height, start, ranges);
      if (height - cut) as real < width * 0.25 {
        break;
      }
      CutIsInterior(width, height, labels, ranges, start);
      GoodCutsAppend(width, height, labels, cuts, cut);
      cuts := cuts + [cut];
    }
    EndWithHeight(width, height, labels, cuts);
    cuts := cuts + [height];
  }

  lemma EndWithHeight(width: real, height: int, labels: seq<Bounds>, inner: seq<int>)
    requires 0.0 < width && height as real > width * 1.3 && GoodCuts(width, height, labels, inner)
    ensures var cuts := inner + [height];
            && |cuts| >= 2 && cuts[0] == 0
            && (forall i, j :: 0 <= i < j < |cuts| ==> cuts[i] < cuts[j])
            && (forall i, b :: 0 < i < |cuts| - 1 && b in labels ==> !Deep(cuts[i], b))
            && (height - cuts[|cuts| - 2]) as real >= width * 0.25
  {
    var cuts := inner + [height];
    forall i | 0 <= i < |inner| ensures (height - inner[i]) as real >= width * 0.25 {
      if i > 0 {
        assert Interior(width, height, labels, inner[i]);
      }
    }
    forall i, j | 0 <= i < j < |cuts| ensures cuts[i] < cuts[j] {
      if j < |inner| {
        assert inner[i] < inner[j];
      }
    }
    forall i, b | 0 < i < |cuts| - 1 && b in labels ensures !Deep(cuts[i], b) {
      assert Interior(width, height, labels, inner[i]);
    }
  }

  // ---------------------------------------------------------------- below that width

  /** Below 200/23 there is a diagram whose first cut does not lie behind its start. */
  lemma NarrowCutsMayNotAdvance(width: real) returns (height: int, box: Bounds)
    requires 0.0 < width && !WideEnough(width)
    ensures height as real > width * 1.3 && NextCut(width, height, 0, [box]) <= 0
    ensures (height - NextCut(width, height, 0, [box])) as real >= width * 0.25
  {
    box := Bounds(if width < 4.0 then width else 4.0, 2.0 * width);
    height := 100;
    assert Inside(width * 1.15, box);
    assert Occupied([box], 0 as real + width * 1.15) == Some(box);
    assert Wanted(width, 0, [box]) == box.top - 4.0;
  }

  /** The width is the exact requirement for cuts that always advance. */
  lemma CutsAdvanceIff(width: real)
    requires 0.0 < width
    ensures WideEnough(width)
            <==> forall height: int, start: int, ranges: seq<Bounds> ::
                   height as real - start as real > width * 1.3 ==> NextCut(width, height, start, ranges) > start
  {
    if WideEnough(width) {
      forall height: int, start: int, ranges: seq<Bounds> | height as real - start as real > width * 1.3
        ensures NextCut(width, height, start, ranges) > start
      {
        CutsAdvance(width, height, start, ranges);
      }
    } else {
      var height, box := NarrowCutsMayNotAdvance(width);
      assert height as real - 0 as real > width * 1.3;
    }
  }

  /** Between 80/23 and 200/23 the loop can stay where it is for ever: the next cut is the start. */
  lemma NarrowCutsCanStick(width: real)
    requires 4.0 < width * 1.15 && !WideEnough(width)
    ensures NextCut(width, 100, 0, [Bounds(4.0, 2.0 * width)]) == 0
  {
    var box := Bounds(4.0, 2.0 * width);
    assert Inside(width * 1.15, box);
    assert Occupied([box], 0 as real + width * 1.15) == Some(box);
  }
}
