/** The message record of the conversation ledger, the query over it, and the two pure
    judgements every reader shares: does a record match, and what does it cost. */
module Records {

  datatype Option<+T> = None | Some(value: T)

  /** JavaScript strings are sequences of UTF-16 code units. */
  type CodeUnit = c: int | 0 <= c < 0x1_0000
  type Text = seq<CodeUnit>
  type Term = t: seq<CodeUnit> | 0 < |t| witness [0]

  const RECORD_OVERHEAD_CHARS := 160
  const MAX_SAFE_INTEGER := 9007199254740991

  /** `key` is the record's identity (its id, or the digest of its stable fields);
      `haystack` is the lower-cased text, sender and target that term search looks into. */
  datatype Record = Record(
    key: string,
    sequence: nat,
    time: int,
    adapter: string,
    channel: string,
    kind: string,
    sender: string,
    target: string,
    conversationKey: string,
    messageId: string,
    haystack: Text,
    textLength: nat,
    segmentLengths: seq<nat>)

  /** An empty string or `None` means that the field does not restrict the result. */
  datatype Query = Query(
    limit: int,
    maxChars: Option<int>,
    adapter: string,
    channel: string,
    kind: string,
    sender: string,
    target: string,
    conversationKey: string,
    afterSequence: Option<int>,
    beforeSequence: Option<int>,
    from: Option<int>,
    to: Option<int>,
    terms: seq<Term>,
    matchAll: bool,
    excludedMessageIds: seq<string>)

  function Larger(a: nat, b: nat): nat { if a < b then b else a }

  predicate FieldAdmits(wanted: string, actual: string) {
    wanted == "" || actual == wanted
  }

  predicate FieldsMatch(r: Record, q: Query) {
    && FieldAdmits(q.adapter, r.adapter)
    && FieldAdmits(q.channel, r.channel)
    && FieldAdmits(q.kind, r.kind)
    && FieldAdmits(q.sender, r.sender)
    && FieldAdmits(q.target, r.target)
    && FieldAdmits(q.conversationKey, r.conversationKey)
  }

  predicate BoundsMatch(r: Record, q: Query) {
    && (q.afterSequence.Some? ==> q.afterSequence.value < r.sequence)
    && (q.beforeSequence.Some? ==> r.sequence <= q.beforeSequence.value)
    && (q.from.Some? ==> q.from.value <= r.time)
    && (q.to.Some? ==> r.time <= q.to.value)
  }

  ghost predicate OccursAt(haystack: Text, term: Text, i: int) {
    0 <= i <= |haystack| - |term| && haystack[i..i + |term|] == term
  }

  ghost predicate Includes(haystack: Text, term: Text) {
    exists i :: OccursAt(haystack, term, i)
  }

  ghost predicate TermsMatch(r: Record, q: Query) {
    || q.terms == []
    || (q.matchAll && forall t <- q.terms :: Includes(r.haystack, t))
    || (!q.matchAll && exists t <- q.terms :: Includes(r.haystack, t))
  }

  ghost predicate Matches(r: Record, q: Query) {
    && FieldsMatch(r, q)
    && BoundsMatch(r, q)
    && TermsMatch(r, q)
    && r.messageId !in q.excludedMessageIds
  }

  function SegmentCost(lengths: seq<nat>): nat {
    if lengths == [] then 0 else SegmentCost(lengths[..|lengths| - 1]) + lengths[|lengths| - 1] + 40
  }

  function CharCost(r: Record): (cost: nat)
    ensures RECORD_OVERHEAD_CHARS <= cost
  {
    r.textLength + SegmentCost(r.segmentLengths) + RECORD_OVERHEAD_CHARS
  }

  function CharBudget(q: Query): (budget: int)
    ensures 1 <= budget
  {
    var wanted := if q.maxChars.Some? then q.maxChars.value else MAX_SAFE_INTEGER;
    if wanted < 1 then 1 else wanted
  }
}
