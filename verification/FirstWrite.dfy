/** Identity in the ledger: the first physical write of a key owns it. */
module FirstWrite {
  import opened Records

  ghost function Keys(s: seq<Record>): set<string> {
    set r <- s :: r.key
  }

  /** Position `i` is the first write of its key. */
  ghost predicate IsFirstWrite(s: seq<Record>, i: nat)
    requires i < |s|
  {
    s[i].key !in Keys(s[..i])
  }

  /** The records that own their key, in write order. */
  ghost function Dedupe(s: seq<Record>): seq<Record> {
    if s == [] then []
    else
      var n := |s| - 1;
      Dedupe(s[..n]) + if IsFirstWrite(s, n) then [s[n]] else []
  }

  ghost function Filter(s: seq<Record>, q: Query): seq<Record> {
    if s == [] then []
    else
      var n := |s| - 1;
      Filter(s[..n], q) + if Matches(s[n], q) then [s[n]] else []
  }

  /** The matching first writes with position in `lo..hi`, oldest first. */
  ghost function Winners(s: seq<Record>, q: Query, lo: nat, hi: nat): seq<Record>
    requires lo <= hi <= |s|
    decreases hi
  {
    if lo == hi then []
    else
      Winners(s, q, lo, hi - 1)
      + if IsFirstWrite(s, hi - 1) && Matches(s[hi - 1], q) then [s[hi - 1]] else []
  }

  lemma KeysAppend(s: seq<Record>, t: seq<Record>)
    ensures Keys(s + t) == Keys(s) + Keys(t)
  {
    forall k | k in Keys(s) + Keys(t) ensures k in Keys(s + t) {
      var r :| r in s + t && r.key == k;
    }
  }

  lemma KeysAppendOne(s: seq<Record>, r: Record)
    ensures Keys(s + [r]) == Keys(s) + {r.key}
  {
    KeysAppend(s, [r]);
    assert r in [r];
  }

  lemma {:induction false} FilterAppend(s: seq<Record>, t: seq<Record>, q: Query)
    ensures Filter(s + t, q) == Filter(s, q) + Filter(t, q)
  {
    if t == [] {
      assert s + t == s;
    } else {
      var n := |t| - 1;
      FilterAppend(s, t[..n], q);
      assert (s + t)[..|s + t| - 1] == s + t[..n];
    }
  }

  /** Winners look only at the writes before them. */
  lemma {:induction false} WinnersOfPrefix(s: seq<Record>, t: seq<Record>, q: Query, lo: nat, hi: nat)
    requires lo <= hi <= |s| && s <= t
    ensures Winners(s, q, lo, hi) == Winners(t, q, lo, hi)
    decreases hi
  {
    if lo < hi {
      WinnersOfPrefix(s, t, q, lo, hi - 1);
      assert s[..hi - 1] == t[..hi - 1];
    }
  }

  lemma {:induction false} WinnersSplit(s: seq<Record>, q: Query, lo: nat, mid: nat, hi: nat)
    requires lo <= mid <= hi <= |s|
    ensures Winners(s, q, lo, hi) == Winners(s, q, lo, mid) + Winners(s, q, mid, hi)
    decreases hi
  {
    if mid < hi {
      WinnersSplit(s, q, lo, mid, hi - 1);
    }
  }

  /** Dedupe-then-filter is one pass that keeps the matching first writes. */
  lemma {:induction false} DedupeThenFilter(s: seq<Record>, q: Query)
    ensures Filter(Dedupe(s), q) == Winners(s, q, 0, |s|)
  {
    if s != [] {
      var n := |s| - 1;
      DedupeThenFilter(s[..n], q);
      WinnersOfPrefix(s[..n], s, q, 0, n);
      if IsFirstWrite(s, n) {
        FilterAppend(Dedupe(s[..n]), [s[n]], q);
        assert [s[n]][..0] == [];
      } else {
        assert Dedupe(s) == Dedupe(s[..n]);
      }
    }
  }

  ghost predicate DistinctKeys(s: seq<Record>) {
    forall i, j :: 0 <= i < j < |s| ==> s[i].key != s[j].key
  }

  lemma DistinctKeysExtend(s: seq<Record>, r: Record)
    requires DistinctKeys(s) && r.key !in Keys(s)
    ensures DistinctKeys(s + [r])
  {
    forall i | 0 <= i < |s| ensures s[i].key != r.key {
      assert s[i] in s;
    }
  }

  /** Dedupe keeps every key. */
  lemma {:induction false} DedupeKeepsKeys(s: seq<Record>)
    ensures Keys(Dedupe(s)) == Keys(s)
  {
    if s != [] {
      var n := |s| - 1;
      DedupeKeepsKeys(s[..n]);
      assert s == s[..n] + [s[n]];
      KeysAppend(s[..n], [s[n]]);
      KeysAppend(Dedupe(s[..n]), [s[n]]);
      if !IsFirstWrite(s, n) {
        assert Dedupe(s) == Dedupe(s[..n]);
      }
    }
  }

  /** Dedupe keeps one record per key. */
  lemma {:induction false} DedupeOwnsEveryKey(s: seq<Record>)
    ensures DistinctKeys(Dedupe(s))
  {
    if s != [] {
      var n := |s| - 1;
      DedupeOwnsEveryKey(s[..n]);
      DedupeKeepsKeys(s[..n]);
      if IsFirstWrite(s, n) {
        DistinctKeysExtend(Dedupe(s[..n]), s[n]);
      } else {
        assert Dedupe(s) == Dedupe(s[..n]);
      }
    }
  }

  /** Appending a write extends the dedupe exactly when its key is new. */
  lemma DedupeAppendOne(s: seq<Record>, r: Record)
    ensures Dedupe(s + [r]) == Dedupe(s) + if r.key in Keys(s) then [] else [r]
  {
    assert (s + [r])[..|s|] == s;
  }
}
