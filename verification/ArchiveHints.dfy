/** Derived hints of immutable archives: a Bloom-style key filter and query bounds, and the
    reading path that skips an archive when they prove that it cannot matter. */
module ArchiveHints {
  import opened Records
  import opened FirstWrite

  /** The four 32-bit words of a key's digest; any function will do. */
  type KeyHash = string -> (nat, nat, nat, nat)

  datatype Bounds = Bounds(minTime: int, maxTime: int, minSequence: int, maxSequence: int)

  datatype Hint = Hint(bits: seq<bv8>, bounds: Option<Bounds>)

  /** A hint is present only while its source version still is the file's version. */
  datatype Archive = Archive(records: seq<Record>, hint: Option<Hint>)

  // ---------------------------------------------------------------- the bit buffer

  function Mask(bit: nat): bv8
    requires bit < 8
  {
    if bit == 0 then 1 else if bit == 1 then 2 else if bit == 2 then 4 else if bit == 3 then 8
    else if bit == 4 then 16 else if bit == 5 then 32 else if bit == 6 then 64 else 128
  }

  predicate BitSet(bits: seq<bv8>, p: nat)
    requires p < 8 * |bits|
  {
    bits[p / 8] & Mask(p % 8) != 0
  }

  function WithBit(bits: seq<bv8>, p: nat): seq<bv8>
    requires p < 8 * |bits|
  {
    bits[p / 8 := bits[p / 8] | Mask(p % 8)]
  }

  lemma OrMask(b: bv8, i: nat, j: nat)
    requires i < 8 && j < 8
    ensures (b | Mask(i)) & Mask(j) != 0 <==> b & Mask(j) != 0 || i == j
  {
  }

  lemma WithBitSets(bits: seq<bv8>, p: nat, k: nat)
    requires p < 8 * |bits| && k < 8 * |bits|
    ensures BitSet(WithBit(bits, p), k) <==> BitSet(bits, k) || k == p
  {
    var i, j := p / 8, k / 8;
    if i == j {
      OrMask(bits[i], p % 8, k % 8);
      assert WithBit(bits, p)[j] == bits[i] | Mask(p % 8);
    } else {
      assert WithBit(bits, p)[j] == bits[j];
    }
  }

  function Positions(hash: KeyHash, key: string, length: nat): seq<nat>
    requires 0 < length
  {
    var w := hash(key);
    var n := length * 8;
    [w.0 % n, w.1 % n, w.2 % n, w.3 % n]
  }

  /** `archiveIdentityProbe` over a verified hint. */
  predicate MayContain(hash: KeyHash, bits: seq<bv8>, key: string)
    requires bits != []
  {
    forall p <- Positions(hash, key, |bits|) :: BitSet(bits, p)
  }

  ghost predicate PositionOf(hash: KeyHash, r: Record, length: nat, p: nat)
    requires 0 < length
  {
    p in Positions(hash, r.key, length)
  }

  /** Exactly the positions of the stored keys are set. */
  ghost predicate ExactBits(hash: KeyHash, bits: seq<bv8>, records: seq<Record>) {
    && bits != []
    && forall p: nat :: p < 8 * |bits| ==>
         (BitSet(bits, p) <==> exists r <- records :: PositionOf(hash, r, |bits|, p))
  }

  /** The bounds hold of every record, and each of the four is reached. */
  ghost predicate TightBounds(b: Bounds, records: seq<Record>) {
    && (forall r <- records :: b.minTime <= r.time <= b.maxTime && b.minSequence <= r.sequence <= b.maxSequence)
    && (exists r <- records :: r.time == b.minTime) && (exists r <- records :: r.time == b.maxTime)
    && (exists r <- records :: r.sequence == b.minSequence) && (exists r <- records :: r.sequence == b.maxSequence)
  }

  ghost predicate Describes(hash: KeyHash, h: Hint, records: seq<Record>) {
    && ExactBits(hash, h.bits, records)
    && (h.bounds.None? <==> records == [])
    && (h.bounds.Some? ==> TightBounds(h.bounds.value, records))
  }

  function FilterLength(records: nat): nat {
    var wanted := if records * 2 < 128 then 128 else records * 2;
    if wanted < 1024 * 1024 then wanted else 1024 * 1024
  }

  function Min(a: int, b: int): int { if a < b then a else b }

  function Max(a: int, b: int): int { if a < b then b else a }

  /** The hint never misses a stored key. */
  lemma HintNeverMissesStoredKey(hash: KeyHash, h: Hint, records: seq<Record>, r: Record)
    requires Describes(hash, h, records) && r in records
    ensures MayContain(hash, h.bits, r.key)
  {
    forall p | p in Positions(hash, r.key, |h.bits|) ensures BitSet(h.bits, p) {
      assert PositionOf(hash, r, |h.bits|, p);
    }
  }

  method SetPositions(hash: KeyHash, bits: seq<bv8>, r: Record) returns (set': seq<bv8>)
    requires bits != []
    ensures |set'| == |bits|
    ensures forall p: nat :: p < 8 * |bits| ==> (BitSet(set', p) <==> BitSet(bits, p) || PositionOf(hash, r, |bits|, p))
  {
    var positions := Positions(hash, r.key, |bits|);
    set' := bits;
    for i := 0 to |positions|
      invariant |set'| == |bits|
      invariant forall p: nat :: p < 8 * |bits| ==> (BitSet(set', p) <==> BitSet(bits, p) || p in positions[..i])
    {
      ghost var before := set';
      assert positions[..i + 1] == positions[..i] + [positions[i]];
      set' := WithBit(set', positions[i]);
      forall p: nat | p < 8 * |bits| ensures BitSet(set', p) <==> BitSet(before, p) || p == positions[i] {
        WithBitSets(before, positions[i], p);
      }
    }
    assert positions[..|positions|] == positions;
  }

  method BuildBits(hash: KeyHash, records: seq<Record>) returns (bits: seq<bv8>)
    ensures ExactBits(hash, bits, records)
    ensures |bits| == FilterLength(|records|)
  {
    bits := seq(FilterLength(|records|), _ => 0);
    forall p: nat | p < 8 * |bits| ensures !BitSet(bits, p) {
      assert bits[p / 8] == 0;
    }
    for i := 0 to |records|
      invariant |bits| == FilterLength(|records|)
      invariant ExactBits(hash, bits, records[..i])
    {
      ghost var before := bits;
      assert records[..i + 1] == records[..i] + [records[i]];
      bits := SetPositions(hash, bits, records[i]);
    }
    assert records[..|records|] == records;
  }

  method BuildBounds(records: seq<Record>) returns (b: Bounds)
    requires records != []
    ensures TightBounds(b, records)
  {
    var r0 := records[0];
    b := Bounds(r0.time, r0.time, r0.sequence, r0.sequence);
    for i := 1 to |records|
      invariant TightBounds(b, records[..i])
    {
      var r := records[i];
      assert records[..i + 1] == records[..i] + [r];
      TightBoundsExtend(b, records[..i], r);
      b := Widen(b, r);
    }
    assert records[..|records|] == records;
  }

  function Widen(b: Bounds, r: Record): Bounds {
    Bounds(Min(b.minTime, r.time), Max(b.maxTime, r.time), Min(b.minSequence, r.sequence),
      Max(b.maxSequence, r.sequence))
  }

  lemma TightBoundsExtend(b: Bounds, records: seq<Record>, r: Record)
    requires TightBounds(b, records)
    ensures TightBounds(Widen(b, r), records + [r])
  {
    var all := records + [r];
    assert r in all;
    var lo :| lo in records && lo.time == b.minTime;
    var hi :| hi in records && hi.time == b.maxTime;
    var first :| first in records && first.sequence == b.minSequence;
    var last :| last in records && last.sequence == b.maxSequence;
    assert lo in all && hi in all && first in all && last in all;
  }

  /** `buildDuplicateFilter`. */
  method BuildDuplicateFilter(hash: KeyHash, records: seq<Record>) returns (hint: Hint)
    ensures Describes(hash, hint, records)
  {
    var bits := BuildBits(hash, records);
    if records == [] {
      hint := Hint(bits, None);
    } else {
      var bounds := BuildBounds(records);
      hint := Hint(bits, Some(bounds));
    }
  }

  // ---------------------------------------------------------------- skipping archives

  predicate BoundsOutside(b: Bounds, q: Query) {
    || (q.from.Some? && b.maxTime < q.from.value)
    || (q.to.Some? && b.minTime > q.to.value)
    || (q.afterSequence.Some? && b.maxSequence <= q.afterSequence.value)
    || (q.beforeSequence.Some? && b.minSequence > q.beforeSequence.value)
  }

  /** Verified bounds lie outside the query; never when several directories are read together. */
  predicate Outside(a: Archive, q: Query, preserveAllIdentities: bool) {
    !preserveAllIdentities && a.hint.Some? && a.hint.value.bounds.Some? && BoundsOutside(a.hint.value.bounds.value, q)
  }

  ghost predicate HintsDescribe(hash: KeyHash, archives: seq<Archive>) {
    forall a <- archives :: a.hint.Some? ==> Describes(hash, a.hint.value, a.records)
  }

  ghost function AllRecords(archives: seq<Archive>): seq<Record> {
    if archives == [] then [] else AllRecords(archives[..|archives| - 1]) + archives[|archives| - 1].records
  }

  /** The keys of the current file and of every archive that was read in the first place. */
  ghost function CandidateKeys(archives: seq<Archive>, current: seq<Record>, q: Query, preserve: bool): set<string> {
    if archives == [] then Keys(current)
    else
      var n := |archives| - 1;
      CandidateKeys(archives[..n], current, q, preserve)
      + if Outside(archives[n], q, preserve) then {} else Keys(archives[n].records)
  }

  predicate Skipped(hash: KeyHash, a: Archive, q: Query, preserve: bool, candidates: set<string>)
    requires a.hint.Some? ==> a.hint.value.bits != []
  {
    Outside(a, q, preserve) && forall key <- candidates :: !MayContain(hash, a.hint.value.bits, key)
  }

  ghost function ReadRecords(hash: KeyHash, archives: seq<Archive>, q: Query, preserve: bool,
      candidates: set<string>): seq<Record>
    requires HintsDescribe(hash, archives)
  {
    if archives == [] then []
    else
      var n := |archives| - 1;
      ReadRecords(hash, archives[..n], q, preserve, candidates)
      + if Skipped(hash, archives[n], q, preserve, candidates) then [] else archives[n].records
  }

  /** When several directories are read together, nothing is left out. */
  lemma {:induction false} NothingIsSkipped(hash: KeyHash, archives: seq<Archive>, q: Query, candidates: set<string>)
    requires HintsDescribe(hash, archives)
    ensures ReadRecords(hash, archives, q, true, candidates) == AllRecords(archives)
  {
    if archives != [] {
      var n := |archives| - 1;
      assert archives[..n] + [archives[n]] == archives;
      NothingIsSkipped(hash, archives[..n], q, candidates);
    }
  }

  /** `archiveRecords`. */
  method ArchiveRecords(hash: KeyHash, archives: seq<Archive>, current: seq<Record>, q: Query, preserve: bool)
    returns (records: seq<Record>)
    requires HintsDescribe(hash, archives)
    ensures records == ReadRecords(hash, archives, q, preserve, CandidateKeys(archives, current, q, preserve))
  {
    var candidates := set r <- current :: r.key;
    for i := 0 to |archives|
      invariant candidates == CandidateKeys(archives[..i], current, q, preserve)
    {
      assert archives[..i + 1][..i] == archives[..i];
      if !Outside(archives[i], q, preserve) {
        candidates := candidates + set r <- archives[i].records :: r.key;
      }
    }
    assert archives[..|archives|] == archives;
    records := [];
    for i := 0 to |archives|
      invariant records == ReadRecords(hash, archives[..i], q, preserve, candidates)
    {
      assert archives[..i + 1][..i] == archives[..i];
      if !Skipped(hash, archives[i], q, preserve, candidates) {
        records := records + archives[i].records;
      }
    }
  }

  // ---------------------------------------------------------------- why skipping is invisible

  /** `kept` and `all` give the same filtered result and own the same keys among `wanted`. */
  ghost predicate Agree(kept: seq<Record>, all: seq<Record>, q: Query, wanted: set<string>) {
    && Winners(kept, q, 0, |kept|) == Winners(all, q, 0, |all|)
    && Keys(kept) * wanted == Keys(all) * wanted
  }

  lemma WinnersAppendOne(s: seq<Record>, r: Record, q: Query)
    ensures Winners(s + [r], q, 0, |s| + 1)
         == Winners(s, q, 0, |s|) + if r.key !in Keys(s) && Matches(r, q) then [r] else []
  {
    WinnersOfPrefix(s, s + [r], q, 0, |s|);
    assert (s + [r])[..|s|] == s;
  }

  lemma KeepOne(kept: seq<Record>, all: seq<Record>, r: Record, q: Query, wanted: set<string>)
    requires Agree(kept, all, q, wanted) && (Matches(r, q) ==> r.key in wanted)
    ensures Agree(kept + [r], all + [r], q, wanted)
  {
    WinnersAppendOne(kept, r, q);
    WinnersAppendOne(all, r, q);
    KeysAppendOne(kept, r);
    KeysAppendOne(all, r);
    forall k ensures k in Keys(kept + [r]) * wanted <==> k in Keys(all + [r]) * wanted {
      assert k in Keys(kept) * wanted <==> k in Keys(all) * wanted;
    }
    assert r.key in wanted ==> (r.key in Keys(kept) * wanted <==> r.key in Keys(all) * wanted);
  }

  lemma SkipOne(kept: seq<Record>, all: seq<Record>, r: Record, q: Query, wanted: set<string>)
    requires Agree(kept, all, q, wanted) && !Matches(r, q) && r.key !in wanted
    ensures Agree(kept, all + [r], q, wanted)
  {
    WinnersAppendOne(all, r, q);
    KeysAppendOne(all, r);
  }

  lemma {:induction false} KeepBlock(kept: seq<Record>, all: seq<Record>, block: seq<Record>, q: Query,
      wanted: set<string>)
    requires Agree(kept, all, q, wanted)
    requires forall r <- block :: Matches(r, q) ==> r.key in wanted
    ensures Agree(kept + block, all + block, q, wanted)
  {
    if block == [] {
      assert kept + block == kept && all + block == all;
    } else {
      var n := |block| - 1;
      KeepBlock(kept, all, block[..n], q, wanted);
      KeepOne(kept + block[..n], all + block[..n], block[n], q, wanted);
      assert kept + block == (kept + block[..n]) + [block[n]];
      assert all + block == (all + block[..n]) + [block[n]];
    }
  }

  lemma {:induction false} SkipBlock(kept: seq<Record>, all: seq<Record>, block: seq<Record>, q: Query,
      wanted: set<string>)
    requires Agree(kept, all, q, wanted)
    requires forall r <- block :: !Matches(r, q) && r.key !in wanted
    ensures Agree(kept, all + block, q, wanted)
  {
    if block == [] {
      assert all + block == all;
    } else {
      var n := |block| - 1;
      SkipBlock(kept, all, block[..n], q, wanted);
      SkipOne(kept, all + block[..n], block[n], q, wanted);
      assert all + block == (all + block[..n]) + [block[n]];
    }
  }

  lemma OutsideMatchesNothing(hash: KeyHash, a: Archive, q: Query, preserve: bool, r: Record)
    requires a.hint.Some? ==> Describes(hash, a.hint.value, a.records)
    requires Outside(a, q, preserve) && r in a.records
    ensures !Matches(r, q)
  {
  }

  lemma {:induction false} CandidatesInclude(archives: seq<Archive>, current: seq<Record>, q: Query, preserve: bool,
      a: Archive)
    ensures Keys(current) <= CandidateKeys(archives, current, q, preserve)
    ensures a in archives && !Outside(a, q, preserve)
            ==> Keys(a.records) <= CandidateKeys(archives, current, q, preserve)
  {
    if archives != [] {
      var n := |archives| - 1;
      CandidatesInclude(archives[..n], current, q, preserve, a);
      assert archives == archives[..n] + [archives[n]];
    }
  }

  lemma {:induction false} ReadAgrees(hash: KeyHash, archives: seq<Archive>, q: Query, preserve: bool,
      candidates: set<string>)
    requires HintsDescribe(hash, archives)
    requires forall a <- archives :: !Outside(a, q, preserve) ==> Keys(a.records) <= candidates
    ensures Agree(ReadRecords(hash, archives, q, preserve, candidates), AllRecords(archives), q, candidates)
  {
    if archives != [] {
      var n := |archives| - 1;
      var a := archives[n];
      ReadAgrees(hash, archives[..n], q, preserve, candidates);
      var kept, all := ReadRecords(hash, archives[..n], q, preserve, candidates), AllRecords(archives[..n]);
      if Skipped(hash, a, q, preserve, candidates) {
        forall r | r in a.records ensures !Matches(r, q) && r.key !in candidates {
          OutsideMatchesNothing(hash, a, q, preserve, r);
          HintNeverMissesStoredKey(hash, a.hint.value, a.records, r);
        }
        SkipBlock(kept, all, a.records, q, candidates);
        assert kept + [] == kept;
      } else {
        forall r | r in a.records && Matches(r, q) ensures r.key in candidates {
          if Outside(a, q, preserve) {
            OutsideMatchesNothing(hash, a, q, preserve, r);
          } else {
            assert r.key in Keys(a.records);
          }
        }
        KeepBlock(kept, all, a.records, q, candidates);
      }
    }
  }

  /** Leaving out the skipped archives never changes what a query returns. */
  lemma SkippingArchivesIsInvisible(hash: KeyHash, archives: seq<Archive>, current: seq<Record>, q: Query,
      preserve: bool)
    requires HintsDescribe(hash, archives)
    ensures var read := ReadRecords(hash, archives, q, preserve, CandidateKeys(archives, current, q, preserve));
            Filter(Dedupe(read + current), q) == Filter(Dedupe(AllRecords(archives) + current), q)
  {
    var candidates := CandidateKeys(archives, current, q, preserve);
    forall a | a in archives && !Outside(a, q, preserve) ensures Keys(a.records) <= candidates {
      CandidatesInclude(archives, current, q, preserve, a);
    }
    ReadAgrees(hash, archives, q, preserve, candidates);
    CandidatesInclude(archives, current, q, preserve, Archive([], None));
    forall r | r in current ensures r.key in candidates {
      assert r.key in Keys(current);
    }
    var read, all := ReadRecords(hash, archives, q, preserve, candidates), AllRecords(archives);
    KeepBlock(read, all, current, q, candidates);
    DedupeThenFilter(read + current, q);
    DedupeThenFilter(all + current, q);
  }
}
