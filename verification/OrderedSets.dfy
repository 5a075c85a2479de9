/** JavaScript sets as sequences in insertion order. */
module OrderedSets {

  /** `[...new Set(s)]`: every first occurrence. */
  function Distinct<T(==)>(s: seq<T>): (r: seq<T>)
    ensures forall x <- s :: x in r
    ensures forall x <- r :: x in s
  {
    if s == [] then []
    else
      var n := |s| - 1;
      Distinct(s[..n]) + if s[n] in s[..n] then [] else [s[n]]
  }

  function Last<T>(s: seq<T>, n: nat): (r: seq<T>)
    ensures |r| <= n && |r| <= |s|
    ensures forall x <- r :: x in s
  {
    if |s| <= n then s else s[|s| - n..]
  }

  lemma ShortIsLast<T>(s: seq<T>, n: nat)
    requires |s| <= n
    ensures Last(s, n) == s
  {
  }

  lemma LastHasTheEnd<T>(s: seq<T>, n: nat)
    requires s != [] && 0 < n
    ensures s[|s| - 1] in Last(s, n)
  {
    assert Last(s, n)[|Last(s, n)| - 1] == s[|s| - 1];
  }

  lemma DistinctAppend<T>(s: seq<T>, x: T)
    ensures Distinct(s + [x]) == if x in s then Distinct(s) else Distinct(s) + [x]
  {
    assert (s + [x])[..|s|] == s;
  }

  lemma {:induction false} DistinctIsDistinct<T>(s: seq<T>)
    ensures Distinct(Distinct(s)) == Distinct(s)
    ensures forall i, j :: 0 <= i < j < |Distinct(s)| ==> Distinct(s)[i] != Distinct(s)[j]
  {
    if s != [] {
      var n := |s| - 1;
      DistinctIsDistinct(s[..n]);
      var d := Distinct(s[..n]);
      if s[n] !in s[..n] {
        assert (d + [s[n]])[..|d|] == d;
        assert s[n] !in d;
      } else {
        assert Distinct(s) == d;
      }
    }
  }

  lemma {:induction false} DistinctOfDistinct<T>(s: seq<T>)
    requires forall i, j :: 0 <= i < j < |s| ==> s[i] != s[j]
    ensures Distinct(s) == s
  {
    if s != [] {
      var n := |s| - 1;
      DistinctOfDistinct(s[..n]);
      assert s == s[..n] + [s[n]];
      assert s[n] !in s[..n];
    }
  }

  lemma {:induction false} DistinctIsShorter<T>(s: seq<T>)
    ensures |Distinct(s)| <= |s|
  {
    if s != [] {
      DistinctIsShorter(s[..|s| - 1]);
    }
  }

  /** Adding elements to a set keeps its order and appends no more than them. */
  lemma {:induction false} DistinctGrows<T>(s: seq<T>, t: seq<T>)
    ensures Distinct(s) <= Distinct(s + t) && |Distinct(s + t)| <= |Distinct(s)| + |t|
  {
    if t == [] {
      assert s + t == s;
    } else {
      var n := |t| - 1;
      DistinctGrows(s, t[..n]);
      assert s + t == (s + t[..n]) + [t[n]];
      DistinctAppend(s + t[..n], t[n]);
    }
  }
}
