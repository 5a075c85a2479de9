/** The byte-bounded cache of parsed archive files, kept in the order of last use. */
module ArchiveReadCache {
  import opened Records

  datatype Slot = Slot(file: string, fingerprint: string, records: seq<Record>, bytes: nat, usedAt: real)

  datatype Stamp = Stamp(fingerprint: string, size: nat)

  function TotalBytes(s: seq<Slot>): nat {
    if s == [] then 0 else TotalBytes(s[..|s| - 1]) + s[|s| - 1].bytes
  }

  /** One slot per file, the least recently used first. */
  ghost predicate Ordered(s: seq<Slot>) {
    var n := |s| - 1;
    n < 0 || (Ordered(s[..n]) && forall y <- s[..n] :: y.file != s[n].file && y.usedAt <= s[n].usedAt)
  }

  /** The slots that satisfy `p`. */
  function Kept(s: seq<Slot>, p: Slot -> bool): seq<Slot> {
    if s == [] then []
    else
      var n := |s| - 1;
      Kept(s[..n], p) + if p(s[n]) then [s[n]] else []
  }

  function Fresh(now: real, ttl: real): Slot -> bool { (x: Slot) => now - x.usedAt < ttl }

  function Other(file: string): Slot -> bool { (x: Slot) => x.file != file }

  function Find(s: seq<Slot>, file: string): (slot: Option<Slot>)
    ensures slot.Some? ==> slot.value in s && slot.value.file == file
    ensures slot.None? ==> forall x <- s :: x.file != file
  {
    if s == [] then None
    else
      assert s == s[..|s| - 1] + [s[|s| - 1]];
      if s[|s| - 1].file == file then Some(s[|s| - 1]) else Find(s[..|s| - 1], file)
  }

  predicate Fits(s: seq<Slot>, bytes: nat, maxBytes: int, maxFiles: int) {
    TotalBytes(s) + bytes <= maxBytes && |s| < maxFiles
  }

  /** Drop the oldest slots until the new one fits. */
  function Evicted(s: seq<Slot>, bytes: nat, maxBytes: int, maxFiles: int): seq<Slot>
    decreases |s|
  {
    if s == [] || Fits(s, bytes, maxBytes, maxFiles) then s else Evicted(s[1..], bytes, maxBytes, maxFiles)
  }

  // ---------------------------------------------------------------- what the lists keep

  lemma AppendBytes(s: seq<Slot>, x: Slot)
    ensures TotalBytes(s + [x]) == TotalBytes(s) + x.bytes
  {
    assert (s + [x])[..|s|] == s;
  }

  lemma AppendOrdered(s: seq<Slot>, x: Slot)
    requires Ordered(s) && forall y <- s :: y.file != x.file && y.usedAt <= x.usedAt
    ensures Ordered(s + [x])
  {
    assert (s + [x])[..|s|] == s;
  }

  lemma {:induction false} KeptMembers(s: seq<Slot>, p: Slot -> bool)
    ensures forall x :: x in Kept(s, p) <==> x in s && p(x)
    ensures |Kept(s, p)| <= |s| && TotalBytes(Kept(s, p)) <= TotalBytes(s)
  {
    if s != [] {
      var n := |s| - 1;
      KeptMembers(s[..n], p);
      assert s == s[..n] + [s[n]];
      AppendBytes(Kept(s[..n], p), s[n]);
      assert p(s[n]) || Kept(s, p) == Kept(s[..n], p);
    }
  }

  lemma {:induction false} KeptOrdered(s: seq<Slot>, p: Slot -> bool)
    requires Ordered(s)
    ensures Ordered(Kept(s, p))
  {
    if s != [] {
      var n := |s| - 1;
      KeptOrdered(s[..n], p);
      KeptMembers(s[..n], p);
      if p(s[n]) {
        AppendOrdered(Kept(s[..n], p), s[n]);
      } else {
        assert Kept(s, p) == Kept(s[..n], p);
      }
    }
  }

  lemma {:induction false} KeptAll(s: seq<Slot>, p: Slot -> bool)
    requires forall x <- s :: p(x)
    ensures Kept(s, p) == s
  {
    if s != [] {
      assert s == s[..|s| - 1] + [s[|s| - 1]];
      KeptAll(s[..|s| - 1], p);
    }
  }

  lemma {:induction false} TailOrdered(s: seq<Slot>)
    requires s != [] && Ordered(s)
    ensures Ordered(s[1..])
  {
    var n := |s| - 1;
    if n > 0 {
      TailOrdered(s[..n]);
      assert s[1..][..n - 1] == s[..n][1..];
      forall y | y in s[..n][1..] ensures y in s[..n] {
      }
    }
  }

  function Newest(s: seq<Slot>, n: nat): seq<Slot>
    requires n <= |s|
  {
    s[|s| - n..]
  }

  /** Eviction keeps the longest run of recently used slots that leaves room. */
  lemma {:induction false} EvictionIsMinimal(s: seq<Slot>, bytes: nat, maxBytes: int, maxFiles: int)
    requires bytes <= maxBytes && 1 <= maxFiles
    ensures var kept := Evicted(s, bytes, maxBytes, maxFiles);
            && |kept| <= |s| && kept == Newest(s, |kept|)
            && Fits(kept, bytes, maxBytes, maxFiles)
            && forall n: nat :: |kept| < n <= |s| ==> !Fits(Newest(s, n), bytes, maxBytes, maxFiles)
    decreases |s|
  {
    if s != [] && !Fits(s, bytes, maxBytes, maxFiles) {
      EvictionIsMinimal(s[1..], bytes, maxBytes, maxFiles);
      var kept := Evicted(s[1..], bytes, maxBytes, maxFiles);
      forall n: nat | |kept| < n <= |s| ensures !Fits(Newest(s, n), bytes, maxBytes, maxFiles) {
        if n == |s| {
          assert Newest(s, n) == s;
        } else {
          assert Newest(s[1..], n) == Newest(s, n);
        }
      }
    }
  }

  // ---------------------------------------------------------------- what the cache keeps

  ghost predicate Truthful(s: seq<Slot>, contents: string -> seq<Record>) {
    forall x <- s :: x.records == contents(x.fingerprint)
  }

  predicate Bounded(s: seq<Slot>, maxBytes: int, maxFiles: int) {
    s == [] || (TotalBytes(s) <= maxBytes && |s| <= maxFiles)
  }

  ghost predicate UsedBefore(s: seq<Slot>, now: real) {
    forall x <- s :: x.usedAt <= now
  }

  ghost predicate Good(s: seq<Slot>, maxBytes: int, maxFiles: int, contents: string -> seq<Record>) {
    Ordered(s) && Bounded(s, maxBytes, maxFiles) && Truthful(s, contents)
  }

  lemma KeptIsGood(s: seq<Slot>, p: Slot -> bool, maxBytes: int, maxFiles: int, contents: string -> seq<Record>)
    requires Good(s, maxBytes, maxFiles, contents)
    ensures Good(Kept(s, p), maxBytes, maxFiles, contents)
  {
    KeptOrdered(s, p);
    KeptMembers(s, p);
  }

  lemma AddIsGood(s: seq<Slot>, x: Slot, maxBytes: int, maxFiles: int, contents: string -> seq<Record>)
    requires Ordered(s) && Truthful(s, contents) && Fits(s, x.bytes, maxBytes, maxFiles)
    requires x.records == contents(x.fingerprint) && UsedBefore(s, x.usedAt) && forall y <- s :: y.file != x.file
    ensures Good(s + [x], maxBytes, maxFiles, contents)
  {
    AppendBytes(s, x);
    AppendOrdered(s, x);
  }

  lemma {:induction false} EvictedIsGood(s: seq<Slot>, bytes: nat, maxBytes: int, maxFiles: int)
    requires Ordered(s)
    ensures Ordered(Evicted(s, bytes, maxBytes, maxFiles))
    ensures forall x <- Evicted(s, bytes, maxBytes, maxFiles) :: x in s
    decreases |s|
  {
    if s != [] && !Fits(s, bytes, maxBytes, maxFiles) {
      TailOrdered(s);
      EvictedIsGood(s[1..], bytes, maxBytes, maxFiles);
    }
  }

  /** Taking a slot out takes exactly its bytes out. */
  lemma {:induction false} WithoutOne(s: seq<Slot>, x: Slot)
    requires Ordered(s) && x in s
    ensures TotalBytes(Kept(s, Other(x.file))) == TotalBytes(s) - x.bytes && |Kept(s, Other(x.file))| == |s| - 1
  {
    var n := |s| - 1;
    assert s == s[..n] + [s[n]];
    if s[n] == x {
      KeptAll(s[..n], Other(x.file));
      assert Kept(s, Other(x.file)) == s[..n];
    } else {
      assert x in s[..n];
      WithoutOne(s[..n], x);
      AppendBytes(Kept(s[..n], Other(x.file)), s[n]);
    }
  }

  /** A slot is dropped as expired exactly when it was not used for the time to live. */
  lemma OnlyFreshStay(s: seq<Slot>, now: real, ttl: real)
    ensures forall x :: x in Kept(s, Fresh(now, ttl)) <==> x in s && now - x.usedAt < ttl
  {
    KeptMembers(s, Fresh(now, ttl));
  }

  function Cost(stamp: Stamp, records: seq<Record>): nat {
    stamp.size * 4 + |records| * 512
  }

  predicate Storable(before: Stamp, after: Option<Stamp>, loaded: seq<Record>, maxBytes: int, maxFiles: int) {
    && loaded != [] && after.Some? && before.fingerprint == after.value.fingerprint
    && Cost(before, loaded) <= maxBytes && maxFiles >= 1
  }

  predicate Hits(slot: Option<Slot>, before: Option<Stamp>) {
    slot.Some? && before.Some? && slot.value.fingerprint == before.value.fingerprint
  }

  /** The slots after a read, from those that have not expired: the file's own slot moves to the
      end, is replaced, or goes, and the oldest make room. */
  function AfterRead(live: seq<Slot>, key: string, now: real, before: Option<Stamp>, after: Option<Stamp>,
      loaded: seq<Record>,
                     maxBytes: int, maxFiles: int): seq<Slot>
  {
    var slot, rest := Find(live, key), Kept(live, Other(key));
    if Hits(slot, before) then rest + [slot.value.(usedAt := now)]
    else if before.Some? && Storable(before.value, after, loaded, maxBytes, maxFiles) then
      Evicted(rest, Cost(before.value, loaded), maxBytes, maxFiles)
      + [Slot(key, before.value.fingerprint, loaded, Cost(before.value, loaded), now)]
    else rest
  }

  /** An unchanged stamp around the load means that the load saw what the stamp stands for. */
  ghost predicate LoadIsStamped(before: Option<Stamp>, after: Option<Stamp>, loaded: seq<Record>,
      contents: string -> seq<Record>) {
    (before.Some? && after.Some? && before.value.fingerprint == after.value.fingerprint)
    ==> loaded == contents(before.value.fingerprint)
  }

  lemma StoredIsGood(rest: seq<Slot>, x: Slot, maxBytes: int, maxFiles: int, contents: string -> seq<Record>)
    requires Ordered(rest) && Truthful(rest, contents) && x.bytes <= maxBytes && 1 <= maxFiles
    requires x.records == contents(x.fingerprint) && UsedBefore(rest, x.usedAt) && forall y <- rest :: y.file != x.file
    ensures Good(Evicted(rest, x.bytes, maxBytes, maxFiles) + [x], maxBytes, maxFiles, contents)
  {
    EvictionIsMinimal(rest, x.bytes, maxBytes, maxFiles);
    EvictedIsGood(rest, x.bytes, maxBytes, maxFiles);
    AddIsGood(Evicted(rest, x.bytes, maxBytes, maxFiles), x, maxBytes, maxFiles, contents);
  }

  lemma TouchedIsGood(live: seq<Slot>, x: Slot, now: real, maxBytes: int, maxFiles: int,
      contents: string -> seq<Record>)
    requires Good(live, maxBytes, maxFiles, contents) && UsedBefore(live, now) && x in live
    ensures Good(Kept(live, Other(x.file)) + [x.(usedAt := now)], maxBytes, maxFiles, contents)
  {
    KeptIsGood(live, Other(x.file), maxBytes, maxFiles, contents);
    KeptMembers(live, Other(x.file));
    WithoutOne(live, x);
    AddIsGood(Kept(live, Other(x.file)), x.(usedAt := now), maxBytes, maxFiles, contents);
  }

  /** A read keeps the bounds, the order of use and the truth of every slot. */
  lemma AfterReadIsGood(live: seq<Slot>, key: string, now: real, before: Option<Stamp>, after: Option<Stamp>,
      loaded: seq<Record>,
                        maxBytes: int, maxFiles: int, contents: string -> seq<Record>)
    requires Good(live, maxBytes, maxFiles, contents) && UsedBefore(live, now)
             && LoadIsStamped(before, after, loaded, contents)
    ensures Good(AfterRead(live, key, now, before, after, loaded, maxBytes, maxFiles), maxBytes, maxFiles, contents)
    ensures UsedBefore(AfterRead(live, key, now, before, after, loaded, maxBytes, maxFiles), now)
  {
    var slot, rest := Find(live, key), Kept(live, Other(key));
    KeptIsGood(live, Other(key), maxBytes, maxFiles, contents);
    KeptMembers(live, Other(key));
    if Hits(slot, before) {
      TouchedIsGood(live, slot.value, now, maxBytes, maxFiles, contents);
    } else if before.Some? && Storable(before.value, after, loaded, maxBytes, maxFiles) {
      EvictedIsGood(rest, Cost(before.value, loaded), maxBytes, maxFiles);
      StoredIsGood(rest, Slot(key, before.value.fingerprint, loaded, Cost(before.value, loaded), now), maxBytes,
        maxFiles, contents);
    }
  }

  /** A hit or a stable load leaves the file's records behind as the most recently used slot; any
      other read leaves none of it. */
  lemma ReadIsRemembered(live: seq<Slot>, key: string, now: real, before: Option<Stamp>, after: Option<Stamp>,
      loaded: seq<Record>, maxBytes: int, maxFiles: int)
    ensures var s, slot := AfterRead(live, key, now, before, after, loaded, maxBytes, maxFiles), Find(live, key);
            if slot.Some? && before.Some? && slot.value.fingerprint == before.value.fingerprint
            then s != [] && s[|s| - 1] == slot.value.(usedAt := now)
              && forall x <- live :: x.file != key ==> x in s
            else if before.Some? && after.Some? && before.value.fingerprint == after.value.fingerprint && loaded != []
              && before.value.size * 4 + |loaded| * 512 <= maxBytes && 1 <= maxFiles
            then s != [] && s[|s| - 1] == Slot(key, before.value.fingerprint, loaded,
                                               before.value.size * 4 + |loaded| * 512, now)
            else (forall x <- s :: x.file != key) && forall x <- live :: x.file != key ==> x in s
  {
    KeptMembers(live, Other(key));
  }

  lemma FoundAtEnd(s: seq<Slot>, x: Slot)
    ensures Find(s + [x], x.file) == Some(x)
  {
  }

  /** Reading the same unchanged file again before it expires needs no load. */
  lemma SecondReadHits(s: seq<Slot>, x: Slot, later: real, ttl: real, stamp: Stamp)
    requires s != [] && s[|s| - 1] == x && later - x.usedAt < ttl && stamp.fingerprint == x.fingerprint
    ensures Find(Kept(s, Fresh(later, ttl)), x.file) == Some(x)
    ensures Hits(Find(Kept(s, Fresh(later, ttl)), x.file), Some(stamp))
  {
    FoundAtEnd(Kept(s[..|s| - 1], Fresh(later, ttl)), x);
  }

  // ---------------------------------------------------------------- the cache, in place

  class MessageContextArchiveReadCache {
    var cached: seq<Slot>
    var bytes: int
    const maxBytes: int
    const maxFiles: int
    const ttl: real
    /** What a file with this fingerprint holds. */
    ghost const contents: string -> seq<Record>

    ghost predicate Valid()
      reads this
    {
      Good(cached, maxBytes, maxFiles, contents) && bytes == TotalBytes(cached)
    }

    constructor (maxBytes: int, maxFiles: int, ttl: real, ghost contents: string -> seq<Record>)
      ensures Valid() && cached == []
      ensures this.maxBytes == maxBytes && this.maxFiles == maxFiles && this.ttl == ttl && this.contents == contents
    {
      this.maxBytes, this.maxFiles, this.ttl, this.contents := maxBytes, maxFiles, ttl, contents;
      cached, bytes := [], 0;
    }

    method RemoveAt(i: nat)
      requires i < |cached| && bytes == TotalBytes(cached)
      modifies this`cached, this`bytes
      ensures cached == old(cached)[..i] + old(cached)[i + 1..] && bytes == TotalBytes(cached)
    {
      BytesWithout(cached, i);
      bytes := bytes - cached[i].bytes;
      cached := cached[..i] + cached[i + 1..];
    }

    method DropExpired(now: real)
      requires bytes == TotalBytes(cached)
      modifies this`cached, this`bytes
      ensures cached == Kept(old(cached), Fresh(now, ttl)) && bytes == TotalBytes(cached)
    {
      ghost var all, p := cached, Fresh(now, ttl);
      ghost var seen := 0;
      var i := 0;
      while i < |cached|
        invariant bytes == TotalBytes(cached)
        invariant 0 <= seen <= |all| && cached == Kept(all[..seen], p) + all[seen..] && i == |Kept(all[..seen], p)|
        decreases |all| - seen
      {
        KeptStep(all, seen, p, cached);
        if now - cached[i].usedAt >= ttl {
          RemoveAt(i);
        } else {
          i := i + 1;
        }
        seen := seen + 1;
      }
      assert all[..seen] == all;
    }

    method Remove(file: string)
      requires bytes == TotalBytes(cached) && Ordered(cached)
      modifies this`cached, this`bytes
      ensures cached == Kept(old(cached), Other(file)) && bytes == TotalBytes(cached)
    {
      for i := 0 to |cached|
        invariant cached == old(cached) && bytes == TotalBytes(cached)
        invariant forall k :: 0 <= k < i ==> cached[k].file != file
      {
        if cached[i].file == file {
          WithoutAt(cached, i);
          RemoveAt(i);
          return;
        }
      }
      KeptAll(cached, Other(file));
    }

    method RemoveFirst()
      requires cached != [] && bytes == TotalBytes(cached)
      modifies this`cached, this`bytes
      ensures cached == old(cached)[1..] && bytes == TotalBytes(cached)
    {
      assert cached[..0] + cached[1..] == cached[1..];
      RemoveAt(0);
    }

    method MakeRoom(cost: nat)
      requires bytes == TotalBytes(cached)
      modifies this`cached, this`bytes
      ensures cached == Evicted(old(cached), cost, maxBytes, maxFiles) && bytes == TotalBytes(cached)
    {
      while cached != [] && (bytes + cost > maxBytes || |cached| >= maxFiles)
        invariant bytes == TotalBytes(cached)
        invariant Evicted(cached, cost, maxBytes, maxFiles) == Evicted(old(cached), cost, maxBytes, maxFiles)
        decreases |cached|
      {
        RemoveFirst();
      }
    }

    method Add(slot: Slot)
      requires bytes == TotalBytes(cached)
      modifies this`cached, this`bytes
      ensures cached == old(cached) + [slot] && bytes == TotalBytes(cached)
    {
      AppendBytes(cached, slot);
      cached := cached + [slot];
      bytes := bytes + slot.bytes;
    }

    /** `read`. `before` and `after` are the file's stamps around a load, `None` when it has none;
        `loaded` is what the load returns. */
    method Read(key: string, now: real, before: Option<Stamp>, after: Option<Stamp>, loaded: seq<Record>)
        returns (records: seq<Record>)
      requires Valid() && UsedBefore(cached, now) && LoadIsStamped(before, after, loaded, contents)
      modifies this`cached, this`bytes
      ensures Valid() && UsedBefore(cached, now)
      ensures cached == AfterRead(Kept(old(cached), Fresh(now, ttl)), key, now, before, after, loaded, maxBytes,
              maxFiles)
      ensures records == loaded || (before.Some? && records == contents(before.value.fingerprint))
      ensures (before.Some? ==> loaded == contents(before.value.fingerprint)) ==> records == loaded
    {
      KeptIsGood(cached, Fresh(now, ttl), maxBytes, maxFiles, contents);
      KeptMembers(cached, Fresh(now, ttl));
      DropExpired(now);
      AfterReadIsGood(cached, key, now, before, after, loaded, maxBytes, maxFiles, contents);
      var slot := Find(cached, key);
      Remove(key);
      if Hits(slot, before) {
        Add(slot.value.(usedAt := now));
        return slot.value.records;
      }
      if before.Some? && Storable(before.value, after, loaded, maxBytes, maxFiles) {
        MakeRoom(Cost(before.value, loaded));
        Add(Slot(key, before.value.fingerprint, loaded, Cost(before.value, loaded), now));
      }
      return loaded;
    }
  }

  /** One step of the pass: the slot after the kept ones stays or goes. */
  lemma KeptStep(all: seq<Slot>, seen: nat, p: Slot -> bool, s: seq<Slot>)
    requires seen < |all| && s == Kept(all[..seen], p) + all[seen..]
    ensures var i, rest := |Kept(all[..seen], p)|, Kept(all[..seen + 1], p) + all[seen + 1..];
            && i < |s| && s[i] == all[seen]
            && |Kept(all[..seen + 1], p)| == (if p(all[seen]) then i + 1 else i)
            && rest == if p(all[seen]) then s else s[..i] + s[i + 1..]
  {
    assert all[..seen + 1][..seen] == all[..seen];
    var front, back := Kept(all[..seen], p), all[seen..];
    assert back[0] == all[seen] && back[1..] == all[seen + 1..];
    assert s == (front + [back[0]]) + back[1..];
  }

  lemma {:induction false} BytesWithout(s: seq<Slot>, i: nat)
    requires i < |s|
    ensures TotalBytes(s[..i] + s[i + 1..]) == TotalBytes(s) - s[i].bytes
  {
    var n := |s| - 1;
    if i < n {
      BytesWithout(s[..n], i);
      assert s[..n][..i] == s[..i];
      assert s[..i] + s[i + 1..] == (s[..n][..i] + s[..n][i + 1..]) + [s[n]];
      AppendBytes(s[..n][..i] + s[..n][i + 1..], s[n]);
    } else {
      assert s[..i] + s[i + 1..] == s[..n];
    }
  }

  lemma {:induction false} WithoutAt(s: seq<Slot>, i: nat)
    requires i < |s| && Ordered(s)
    ensures Kept(s, Other(s[i].file)) == s[..i] + s[i + 1..]
  {
    var n := |s| - 1;
    if i < n {
      WithoutAt(s[..n], i);
      assert s[..n][i] == s[i] && s[i] in s[..n];
      assert s[..n][..i] == s[..i];
      assert s[..i] + s[i + 1..] == (s[..n][..i] + s[..n][i + 1..]) + [s[n]];
    } else {
      KeptAll(s[..n], Other(s[n].file));
      assert s[..i] + s[i + 1..] == s[..n];
    }
  }
}
