/** The grouping queue: fragments of one conversation are collected, delivered after they settle,
    and kept on disk until then. Times are real milliseconds. */
module MessageGrouping {
  import opened Records
  import opened OrderedSets

  const MAX_DELIVERED := 2000

  datatype Status = Pending | Delivering

  datatype Item = Item(identity: string, receivedAt: real, incomplete: bool, routeKind: string, content: string)

  datatype Group = Group(
    groupId: string, key: string, baseKey: string, endpoint: string, conversationKey: string, sender: string,
      replyTo: Option<string>,
    createdAt: real, updatedAt: real, deadlineAt: real, maxDeadlineAt: real,
    status: Status, attempts: nat, lastError: Option<string>, items: seq<Item>)

  type Groups = map<string, Group>

  /** The state file. */
  datatype Disk = Disk(pending: Groups, delivered: seq<string>)

  /** `timers` holds when each armed timer fires. `batches` holds the identities that each running
      delivery took with it. `accepted` and `completed` record what the queue took and delivered;
      `owed` those it took while they and their group had every field that recovery asks for. */
  datatype Queue = Queue(
    groups: Groups, delivered: seq<string>, timers: map<string, real>, batches: map<string, seq<string>>, disk: Disk,
    accepted: set<string>, owed: set<string>, completed: set<string>)

  function Max(a: real, b: real): real { if a < b then b else a }
  function Min(a: real, b: real): real { if a < b then a else b }

  // ---------------------------------------------------------------- policy

  /** `None` is a setting that is not a finite number. */
  datatype Policy = Policy(settle: Option<real>, incompleteSettle: Option<real>, maxWait: Option<real>)
  datatype Waits = Waits(settle: real, incompleteSettle: real, maxWait: real)

  function NormalizedSeconds(value: Option<real>, fallback: real): real {
    if value.Some? && value.value > 0.0 then Max(1.0, Min(300.0, value.value)) else fallback
  }

  function NormalizedPolicy(p: Policy): (w: Waits)
    ensures 1.0 <= w.settle <= w.incompleteSettle <= w.maxWait <= 300.0
  {
    var settle := NormalizedSeconds(p.settle, 6.0);
    var incomplete := Max(settle, NormalizedSeconds(p.incompleteSettle, 12.0));
    Waits(settle, incomplete, Max(incomplete, NormalizedSeconds(p.maxWait, 20.0)))
  }

  /** Settings between one second and five minutes that do not contradict each other are used as
      they are, and six, twelve and twenty seconds where nothing is set. */
  lemma PolicyIsUsed(p: Policy)
    requires p.settle.Some? ==> 1.0 <= p.settle.value <= 300.0
    requires p.incompleteSettle.Some? ==> 1.0 <= p.incompleteSettle.value <= 300.0
    requires p.maxWait.Some? ==> 1.0 <= p.maxWait.value <= 300.0
    ensures var w := NormalizedPolicy(p);
            var settle := if p.settle.Some? then p.settle.value else 6.0;
            var incomplete := if p.incompleteSettle.Some? then p.incompleteSettle.value else 12.0;
            var longest := if p.maxWait.Some? then p.maxWait.value else 20.0;
            && w.settle == settle
            && (settle <= incomplete ==> w.incompleteSettle == incomplete)
            && (settle <= incomplete <= longest ==> w.maxWait == longest)
            && (incomplete < settle ==> w.incompleteSettle == settle)
            && (longest < w.incompleteSettle ==> w.maxWait == w.incompleteSettle)
  {
  }

  /** A setting without a positive value gives way to the default; others are moved into the range
      from one second to five minutes. */
  lemma SettingsAreClamped(value: real, fallback: real)
    ensures NormalizedSeconds(None, fallback) == fallback
    ensures var n := NormalizedSeconds(Some(value), fallback);
            && (value <= 0.0 ==> n == fallback)
            && (0.0 < value < 1.0 ==> n == 1.0)
            && (1.0 <= value <= 300.0 ==> n == value)
            && (300.0 < value ==> n == 300.0)
  {
  }

  // ---------------------------------------------------------------- recovery

  predicate ItemIsValid(i: Item) { i.identity != "" && i.routeKind != "" }

  function ValidItems(items: seq<Item>): (r: seq<Item>)
    ensures forall i :: i in r <==> i in items && ItemIsValid(i)
  {
    if items == [] then []
    else
      var n := |items| - 1;
      assert items == items[..n] + [items[n]];
      ValidItems(items[..n]) + if ItemIsValid(items[n]) then [items[n]] else []
  }

  predicate Identified(g: Group) {
    g.groupId != "" && g.key != "" && g.baseKey != "" && g.endpoint != "" && g.conversationKey != "" && g.sender != ""
  }

  /** `normalizeGroup`: what recovery makes of a stored group. */
  function Normalized(g: Group): Option<Group> {
    var items := ValidItems(g.items);
    if !Identified(g) || items == [] then None
    else Some(g.(maxDeadlineAt := Max(g.deadlineAt, g.maxDeadlineAt), status := Pending,
                 lastError := if g.lastError == Some("") then None else g.lastError, items := items))
  }

  function Recovered(pending: Groups): Groups {
    map k | k in pending && Normalized(pending[k]).Some? :: Normalized(pending[k]).value
  }

  function DueAt(g: Group, now: real): real { Max(now, g.deadlineAt) }

  function NonEmpty(s: seq<string>): seq<string> {
    if s == [] then []
    else
      var n := |s| - 1;
      NonEmpty(s[..n]) + if s[n] == "" then [] else [s[n]]
  }

  /** The delivered identities that a new process reads. */
  function Reread(delivered: seq<string>): seq<string> {
    Distinct(Last(NonEmpty(delivered), MAX_DELIVERED))
  }

  /** The constructor over the state file. */
  function Restarted(q: Queue, now: real): Queue {
    var groups := Recovered(q.disk.pending);
    q.(groups := groups, delivered := Reread(q.disk.delivered),
        timers := map k | k in groups :: DueAt(groups[k], now), batches := map[])
  }

  // ---------------------------------------------------------------- enqueue

  datatype Input = Input(
    key: string, baseKey: string, endpoint: string, conversationKey: string, sender: string, replyTo: Option<string>,
    identity: string, incomplete: bool, policy: Policy, routeKind: string, content: string)

  /** An empty reply id counts as none. */
  predicate IsReply(input: Input) {
    input.replyTo.Some? && input.replyTo.value != ""
  }

  function Candidates(groups: Groups, baseKey: string): set<string> {
    set k | k in groups && groups[k].baseKey == baseKey && groups[k].status == Pending :: k
  }

  lemma OnlyMember(s: set<string>, x: string, y: string)
    requires |s| == 1 && x in s && y in s
    ensures x == y
  {
    assert |s - {x}| == 0;
    assert y !in s - {x};
  }

  function Sole(s: set<string>): (x: string)
    requires |s| == 1
    ensures x in s
  {
    assert s != {};
    assert forall x, y | x in s && y in s :: x == y by {
      forall x, y | x in s && y in s ensures x == y {
        OnlyMember(s, x, y);
      }
    }
    var x :| x in s; x
  }

  /** The group a message joins: the one of its key, or else the only pending one of its base key. */
  function Joined(groups: Groups, input: Input): (key: Option<string>)
    ensures key.Some? ==> key.value in groups
  {
    var candidates := if IsReply(input) then {} else Candidates(groups, input.baseKey);
    if input.key in groups then Some(input.key) else if |candidates| == 1 then Some(Sole(candidates)) else None
  }

  predicate HasIdentity(items: seq<Item>, identity: string) {
    exists i <- items :: i.identity == identity
  }

  function NewGroup(input: Input, groupId: string, now: real, waits: Waits): Group {
    Group(groupId, input.key, input.baseKey, input.endpoint, input.conversationKey, input.sender, input.replyTo,
          now, now, now, now + waits.maxWait * 1000.0, Pending, 0, None, [])
  }

  function Extended(g: Group, input: Input, now: real, waits: Waits): Group {
    var limit := if g.status == Delivering then Max(g.maxDeadlineAt, now + waits.maxWait * 1000.0) else g.maxDeadlineAt;
    var wait := if input.incomplete then waits.incompleteSettle else waits.settle;
    g.(updatedAt := now, lastError := None,
      items := g.items + [Item(input.identity, now, input.incomplete, input.routeKind, input.content)],
       maxDeadlineAt := limit, deadlineAt := Min(limit, now + wait * 1000.0))
  }

  predicate Accepts(q: Queue, input: Input) {
    var joined := Joined(q.groups, input);
    input.identity !in q.delivered && (joined.Some? ==> !HasIdentity(q.groups[joined.value].items, input.identity))
  }

  function Persisted(q: Queue): Queue {
    q.(disk := Disk(q.groups, q.delivered))
  }

  function Armed(q: Queue, g: Group, now: real): Queue {
    q.(timers := q.timers[g.key := DueAt(g, now)])
  }

  /** The group that the message enters, before it does. */
  function Receiving(q: Queue, input: Input, groupId: string, now: real): Group {
    var joined := Joined(q.groups, input);
    if joined.Some? then q.groups[joined.value] else NewGroup(input, groupId, now, NormalizedPolicy(input.policy))
  }

  /** The message and its group have every field that recovery asks for. */
  predicate Recoverable(input: Input, g: Group) {
    input.identity != "" && input.routeKind != "" && Identified(g)
  }

  function Taken(q: Queue, receiving: Group, input: Input, now: real): Queue {
    var g := Extended(receiving, input, now, NormalizedPolicy(input.policy));
    var stored := Persisted(q.(groups := q.groups[g.key := g], accepted := q.accepted + {input.identity},
      owed := q.owed + if Recoverable(input, receiving) then {input.identity} else {}));
    if g.status == Delivering then stored else Armed(stored, g, now)
  }

  function Enqueued(q: Queue, input: Input, groupId: string, now: real): Queue {
    if Accepts(q, input) then Taken(q, Receiving(q, input, groupId, now), input, now) else q
  }

  // ---------------------------------------------------------------- delivery

  function IdentitiesOf(items: seq<Item>): (r: seq<string>)
    ensures forall i <- items :: i.identity in r
    ensures forall x <- r :: HasIdentity(items, x)
  {
    if items == [] then []
    else
      var n := |items| - 1;
      assert items == items[..n] + [items[n]];
      IdentitiesOf(items[..n]) + [items[n].identity]
  }

  predicate CanFlush(q: Queue, key: string) {
    key in q.groups && q.groups[key].status == Pending
  }

  /** `flushNow` up to the delivery. */
  function Flushing(q: Queue, key: string): Queue
    requires CanFlush(q, key)
  {
    var g := q.groups[key].(status := Delivering, attempts := q.groups[key].attempts + 1, lastError := None);
    Persisted(q.(groups := q.groups[key := g], timers := q.timers - {key},
      batches := q.batches[key := Distinct(IdentitiesOf(g.items))]))
  }

  function Undelivered(items: seq<Item>, batch: seq<string>): (r: seq<Item>)
    ensures forall i :: i in r <==> i in items && i.identity !in batch
  {
    if items == [] then []
    else
      var n := |items| - 1;
      assert items == items[..n] + [items[n]];
      Undelivered(items[..n], batch) + if items[n].identity in batch then [] else [items[n]]
  }

  predicate InDelivery(q: Queue, key: string) {
    key in q.batches && key in q.groups
  }

  /** The oldest identities beyond the limit leave, but none behind an empty one. */
  function Trimmed(delivered: seq<string>): seq<string> {
    if |delivered| > MAX_DELIVERED && delivered[0] != "" then Trimmed(delivered[1..]) else delivered
  }

  function Remembered(delivered: seq<string>, batch: seq<string>): seq<string> {
    Trimmed(Distinct(delivered + batch))
  }

  /** The rest of `flushNow` when the delivery succeeded. */
  function Succeeded(q: Queue, key: string, now: real): Queue
    requires InDelivery(q, key)
  {
    var batch := q.batches[key];
    var items := Undelivered(q.groups[key].items, batch);
    var done := q.(delivered := Remembered(q.delivered, batch), batches := q.batches - {key},
      completed := q.completed + set x <- batch :: x);
    if items == [] then Persisted(done.(groups := q.groups - {key}))
    else
      var g := q.groups[key].(items := items, status := Pending, attempts := 0, lastError := None,
        createdAt := items[0].receivedAt);
      Persisted(Armed(done.(groups := q.groups[key := g]), g, now))
  }

  function Power2(n: nat): nat { if n == 0 then 1 else 2 * Power2(n - 1) }

  function RetrySeconds(attempts: nat): nat
    requires 1 <= attempts
  {
    var n := 5 * Power2(if attempts - 1 < 4 then attempts - 1 else 4);
    if n < 60 then n else 60
  }

  /** The group waits for another try. */
  function Delayed(g: Group, error: string, now: real): Group
    requires 1 <= g.attempts
  {
    var deadline := now + RetrySeconds(g.attempts) as real * 1000.0;
    g.(status := Pending, lastError := Some(error), deadlineAt := deadline,
      maxDeadlineAt := Max(g.maxDeadlineAt, deadline))
  }

  /** The rest of `flushNow` when the delivery failed. */
  function Failed(q: Queue, key: string, error: string, now: real): Queue
    requires InDelivery(q, key) && 1 <= q.groups[key].attempts
  {
    var g := Delayed(q.groups[key], error, now);
    Armed(Persisted(q.(groups := q.groups[key := g], batches := q.batches - {key})), g, now)
  }

  /** How long a message lets its group settle, in milliseconds. */
  function SettleTime(input: Input): real {
    var waits := NormalizedPolicy(input.policy);
    (if input.incomplete then waits.incompleteSettle else waits.settle) * 1000.0
  }

  /** An accepted message is due as soon as it has settled, and never after the limit that the
      first message of its group set, or the newest one for a group that is being delivered. */
  lemma AcceptedIsDueInTime(q: Queue, input: Input, groupId: string, now: real)
    requires Keyed(q.groups) && Accepts(q, input)
    ensures var joined, q' := Joined(q.groups, input), Enqueued(q, input, groupId, now);
            var key := if joined.Some? then joined.value else input.key;
            var limit := now + NormalizedPolicy(input.policy).maxWait * 1000.0;
            && key in q'.groups
            && var g := q'.groups[key];
               && g.deadlineAt == Min(g.maxDeadlineAt, now + SettleTime(input))
               && g.maxDeadlineAt == (if joined.None? then limit
                                      else if q.groups[key].status == Delivering
                                        then Max(q.groups[key].maxDeadlineAt, limit)
                                      else q.groups[key].maxDeadlineAt)
               && (g.status == Pending ==> key in q'.timers && now <= q'.timers[key] <= now + SettleTime(input))
  {
  }

  // ---------------------------------------------------------------- what one call does

  ghost predicate OpenFor(groups: Groups, baseKey: string, key: string) {
    key in groups && groups[key].baseKey == baseKey && groups[key].status == Pending
  }

  /** The group of the message's own key; or, when that key has none and the message answers
      nothing, the one pending group of its base key. */
  ghost predicate IsFor(groups: Groups, input: Input, key: string) {
    && key in groups
    && (key == input.key || (
          && input.key !in groups && !IsReply(input)
          && OpenFor(groups, input.baseKey, key)
          && forall k | OpenFor(groups, input.baseKey, k) :: k == key))
  }

  function ItemOf(input: Input, now: real): Item {
    Item(input.identity, now, input.incomplete, input.routeKind, input.content)
  }

  /** The group with the message behind its items; only its deadlines change besides. */
  ghost predicate HasTaken(g: Group, g': Group, input: Input, now: real) {
    && g'.items == g.items + [ItemOf(input, now)]
    && g' == g.(items := g'.items, updatedAt := now, lastError := None, deadlineAt := g'.deadlineAt,
                maxDeadlineAt := g'.maxDeadlineAt)
  }

  /** A group of the message's own. */
  ghost predicate IsOpened(g: Group, input: Input, groupId: string, now: real) {
    && g.groupId == groupId && g.key == input.key && g.baseKey == input.baseKey && g.endpoint == input.endpoint
    && g.conversationKey == input.conversationKey && g.sender == input.sender && g.replyTo == input.replyTo
    && g.createdAt == g.updatedAt == now && g.status == Pending && g.attempts == 0 && g.lastError.None?
    && g.items == [ItemOf(input, now)]
  }

  /** The message was delivered already or lies in the group that it would enter. */
  ghost predicate IsRefused(q: Queue, input: Input) {
    input.identity in q.delivered
    || exists key :: IsFor(q.groups, input, key) && HasIdentity(q.groups[key].items, input.identity)
  }

  ghost predicate Joins(q: Queue, q': Queue, input: Input, now: real, key: string) {
    && IsFor(q.groups, input, key) && key in q'.groups
    && HasTaken(q.groups[key], q'.groups[key], input, now)
    && q'.groups == q.groups[key := q'.groups[key]]
  }

  ghost predicate Opens(q: Queue, q': Queue, input: Input, groupId: string, now: real) {
    && (forall key :: !IsFor(q.groups, input, key))
    && input.key !in q.groups && input.key in q'.groups
    && IsOpened(q'.groups[input.key], input, groupId, now)
    && q'.groups == q.groups[input.key := q'.groups[input.key]]
  }

  /** One group changes, in memory and in the file, by the message at its end. */
  ghost predicate EnqueueDoes(q: Queue, q': Queue, input: Input, groupId: string, now: real) {
    if IsRefused(q, input) then q' == q
    else
      && q'.delivered == q.delivered && q'.batches == q.batches && q'.disk == Disk(q'.groups, q.delivered)
      && (Opens(q, q', input, groupId, now) || exists key :: Joins(q, q', input, now, key))
  }

  lemma JoinedIff(groups: Groups, input: Input, key: string)
    ensures Joined(groups, input) == Some(key) <==> IsFor(groups, input, key)
  {
    var s := Candidates(groups, input.baseKey);
    forall k ensures k in s <==> OpenFor(groups, input.baseKey, k) {
    }
    if IsFor(groups, input, key) && key != input.key {
      assert s == {key};
    }
    if |s| == 1 {
      forall k | k in s ensures k == Sole(s) {
        OnlyMember(s, k, Sole(s));
      }
    }
  }

  lemma NewGroupTakes(input: Input, groupId: string, now: real)
    ensures IsOpened(Extended(NewGroup(input, groupId, now, NormalizedPolicy(input.policy)), input, now,
                     NormalizedPolicy(input.policy)), input, groupId, now)
  {
    assert [] + [ItemOf(input, now)] == [ItemOf(input, now)];
  }

  lemma RefusedIff(q: Queue, input: Input)
    ensures IsRefused(q, input) <==> !Accepts(q, input)
  {
    var joined := Joined(q.groups, input);
    forall key ensures joined == Some(key) <==> IsFor(q.groups, input, key) {
      JoinedIff(q.groups, input, key);
    }
  }

  lemma AcceptedJoins(q: Queue, input: Input, groupId: string, now: real, key: string)
    requires Keyed(q.groups) && Accepts(q, input) && Joined(q.groups, input) == Some(key)
    ensures Joins(q, Enqueued(q, input, groupId, now), input, now, key)
  {
    JoinedIff(q.groups, input, key);
  }

  lemma AcceptedOpens(q: Queue, input: Input, groupId: string, now: real)
    requires Accepts(q, input) && Joined(q.groups, input).None?
    ensures Opens(q, Enqueued(q, input, groupId, now), input, groupId, now)
  {
    forall key ensures !IsFor(q.groups, input, key) {
      JoinedIff(q.groups, input, key);
    }
    NewGroupTakes(input, groupId, now);
  }

  /** A message goes to the group of its own key, or to the only one of its conversation that is
      still open, or opens one; exactly one group changes, by exactly this message. */
  lemma EnqueueIsRight(q: Queue, input: Input, groupId: string, now: real)
    requires Keyed(q.groups)
    ensures EnqueueDoes(q, Enqueued(q, input, groupId, now), input, groupId, now)
  {
    RefusedIff(q, input);
    if Accepts(q, input) {
      var joined := Joined(q.groups, input);
      if joined.None? {
        AcceptedOpens(q, input, groupId, now);
      } else {
        AcceptedJoins(q, input, groupId, now, joined.value);
      }
    }
  }

  /** A flush takes every message that the group holds, each once, and leaves all else alone. */
  lemma FlushTakesAll(q: Queue, key: string)
    requires CanFlush(q, key)
    ensures var q', g := Flushing(q, key), q.groups[key];
            && key in q'.groups && q'.groups == q.groups[key := q'.groups[key]]
            && q'.groups[key] == g.(status := Delivering, attempts := g.attempts + 1, lastError := None)
            && key in q'.batches && q'.batches == q.batches[key := q'.batches[key]]
            && (forall x :: x in q'.batches[key] <==> HasIdentity(g.items, x))
            && (forall i, j :: 0 <= i < j < |q'.batches[key]| ==> q'.batches[key][i] != q'.batches[key][j])
            && q'.timers == q.timers - {key} && q'.disk == Disk(q'.groups, q.delivered)
  {
    var ids := IdentitiesOf(q.groups[key].items);
    DistinctIsDistinct(ids);
    forall x ensures x in ids <==> HasIdentity(q.groups[key].items, x) {
      if HasIdentity(q.groups[key].items, x) {
        var i :| i in q.groups[key].items && i.identity == x;
      }
    }
  }

  lemma {:induction false} UndeliveredConcat(s: seq<Item>, t: seq<Item>, batch: seq<string>)
    ensures Undelivered(s + t, batch) == Undelivered(s, batch) + Undelivered(t, batch)
  {
    if t == [] {
      assert s + t == s;
    } else {
      var n := |t| - 1;
      assert (s + t)[..|s + t| - 1] == s + t[..n];
      UndeliveredConcat(s, t[..n], batch);
    }
  }

  lemma {:induction false} UndeliveredStay(s: seq<Item>, batch: seq<string>)
    requires forall i <- s :: i.identity !in batch
    ensures Undelivered(s, batch) == s
  {
    if s != [] {
      var n := |s| - 1;
      assert s == s[..n] + [s[n]];
      UndeliveredStay(s[..n], batch);
    }
  }

  lemma {:induction false} UndeliveredGo(s: seq<Item>, batch: seq<string>)
    requires forall i <- s :: i.identity in batch
    ensures Undelivered(s, batch) == []
  {
    if s != [] {
      var n := |s| - 1;
      assert s == s[..n] + [s[n]];
      UndeliveredGo(s[..n], batch);
    }
  }

  lemma UndeliveredAdded(taken: seq<Item>, added: seq<Item>, batch: seq<string>)
    requires (forall i <- taken :: i.identity in batch) && (forall i <- added :: i.identity !in batch)
    ensures Undelivered(taken + added, batch) == added
  {
    UndeliveredConcat(taken, added, batch);
    UndeliveredStay(added, batch);
    UndeliveredGo(taken, batch);
  }

  /** After a delivery exactly what came in meanwhile is left, in order and waiting anew; the group
      goes when that is nothing. */
  lemma DeliveryLeavesAdded(q: Queue, key: string, now: real, taken: seq<Item>, added: seq<Item>)
    requires InDelivery(q, key) && q.groups[key].key == key && q.groups[key].items == taken + added
    requires (forall i <- taken :: i.identity in q.batches[key]) && (forall i <- added :: i.identity !in q.batches[key])
    ensures var q' := Succeeded(q, key, now);
            && q'.batches == q.batches - {key} && q'.disk == Disk(q'.groups, q'.delivered)
            && (forall x <- q.batches[key] :: x in q'.completed)
            && if added == [] then q'.groups == q.groups - {key}
               else
                 && key in q'.groups && q'.groups == q.groups[key := q'.groups[key]]
                 && q'.groups[key] == q.groups[key].(items := added, status := Pending, attempts := 0,
                                                     lastError := None, createdAt := added[0].receivedAt)
                 && key in q'.timers && now <= q'.timers[key]
  {
    UndeliveredAdded(taken, added, q.batches[key]);
  }

  /** What was delivered is refused when it comes again, as long as it is remembered: all of it up
      to the limit, after a restart too. */
  lemma DeliveredIsRefused(q: Queue, key: string, now: real, x: string, later: real)
    requires InDelivery(q, key) && x in q.batches[key] && x != ""
    requires |q.delivered| + |q.batches[key]| <= MAX_DELIVERED
    ensures forall input: Input, groupId, at | input.identity == x ::
              Enqueued(Succeeded(q, key, now), input, groupId, at) == Succeeded(q, key, now)
    ensures forall input: Input, groupId, at | input.identity == x ::
              Enqueued(Restarted(Succeeded(q, key, now), later), input, groupId, at)
              == Restarted(Succeeded(q, key, now), later)
  {
    var q' := Succeeded(q, key, now);
    var all := q.delivered + q.batches[key];
    DistinctIsShorter(all);
    assert x in all && x in Distinct(all) && q'.delivered == Distinct(all);
    NonEmptyHas(q'.delivered, x);
    ShortIsLast(NonEmpty(q'.delivered), MAX_DELIVERED);
  }

  /** What was just delivered is remembered, whatever older identities have to leave for it. */
  lemma NewestAreRemembered(delivered: seq<string>, batch: seq<string>, x: string)
    requires x in batch && x !in delivered && |batch| <= MAX_DELIVERED
    ensures x in Remembered(delivered, batch)
  {
    var d, all := Distinct(delivered), Distinct(delivered + batch);
    DistinctGrows(delivered, batch);
    assert x in delivered + batch && x in all;
    var i :| 0 <= i < |all| && all[i] == x;
    assert x !in d && forall k :: 0 <= k < |d| ==> all[k] == d[k];
    TrimmedKeepsEnd(all, i);
  }

  lemma {:induction false} TrimmedKeepsEnd(s: seq<string>, i: nat)
    requires i < |s| && |s| - i <= MAX_DELIVERED
    ensures s[i] in Trimmed(s)
  {
    if |s| > MAX_DELIVERED && s[0] != "" {
      TrimmedKeepsEnd(s[1..], i - 1);
    }
  }

  lemma {:induction false} NonEmptyHas(s: seq<string>, x: string)
    requires x in s && x != ""
    ensures x in NonEmpty(s) && |NonEmpty(s)| <= |s|
  {
    var n := |s| - 1;
    NonEmptyIsShorter(s);
    if x != s[n] {
      assert x in s[..n];
      NonEmptyHas(s[..n], x);
    }
  }

  lemma {:induction false} NonEmptyIsShorter(s: seq<string>)
    ensures |NonEmpty(s)| <= |s|
  {
    if s != [] {
      NonEmptyIsShorter(s[..|s| - 1]);
    }
  }

  /** After a failed delivery the group waits with all it holds, and tries again within five to
      sixty seconds. */
  lemma FailureRetries(q: Queue, key: string, error: string, now: real)
    requires InDelivery(q, key) && q.groups[key].key == key && 1 <= q.groups[key].attempts
    ensures var q', g := Failed(q, key, error, now), q.groups[key];
            && key in q'.groups && q'.groups == q.groups[key := q'.groups[key]]
            && q'.groups[key].items == g.items && q'.groups[key].attempts == g.attempts
            && q'.groups[key].status == Pending && q'.groups[key].lastError == Some(error)
            && q'.batches == q.batches - {key} && q'.completed == q.completed && q'.delivered == q.delivered
            && q'.disk == Disk(q'.groups, q.delivered)
            && key in q'.timers && now + 5000.0 <= q'.timers[key] <= now + 60000.0
            && q'.timers[key] == now + RetrySeconds(g.attempts) as real * 1000.0
            && q'.timers == q.timers[key := q'.timers[key]]
  {
    RetryBacksOff(1, q.groups[key].attempts);
  }

  /** The pause before another try never shrinks, and lies between five and sixty seconds. */
  lemma RetryBacksOff(a: nat, b: nat)
    requires 1 <= a <= b
    ensures 5 <= RetrySeconds(a) <= RetrySeconds(b) <= 60
  {
    Power2Grows(if a - 1 < 4 then a - 1 else 4, if b - 1 < 4 then b - 1 else 4);
  }

  /** It starts with five seconds and doubles up to a minute. */
  lemma RetryDoubles(a: nat)
    requires 1 <= a
    ensures RetrySeconds(1) == 5
    ensures RetrySeconds(a + 1) == if RetrySeconds(a) < 30 then 2 * RetrySeconds(a) else 60
  {
    assert Power2(3) == 8 && Power2(4) == 16;
    if a < 4 {
      assert Power2(a) == 2 * Power2(a - 1);
    }
  }

  lemma {:induction false} Power2Grows(m: nat, n: nat)
    requires m <= n
    ensures 1 <= Power2(m) <= Power2(n)
    decreases n
  {
    if m > 0 {
      Power2Grows(m - 1, n - 1);
    } else if n > 0 {
      Power2Grows(0, n - 1);
    }
  }

  // ---------------------------------------------------------------- what every state keeps

  /** Some group holds the identity. */
  ghost predicate StoredIn(groups: Groups, identity: string) {
    exists k <- groups :: HasIdentity(groups[k].items, identity)
  }

  /** Recovery keeps the group, and this identity in it. */
  predicate Recovers(g: Group, identity: string) {
    Identified(g) && HasIdentity(ValidItems(g.items), identity)
  }

  ghost predicate AnyRecovers(groups: Groups, identity: string) {
    exists k <- groups :: Recovers(groups[k], identity)
  }

  /** Every group is stored under its own key. */
  ghost predicate Keyed(groups: Groups) {
    forall k <- groups :: groups[k].key == k
  }

  /** What holds of every group, whatever fields its messages brought. */
  predicate GroupIsSound(key: string, g: Group) {
    && g.key == key && g.items != []
    && g.deadlineAt <= g.maxDeadlineAt
    && (g.status == Delivering ==> 1 <= g.attempts)
  }

  predicate AllSound(groups: Groups) {
    forall k <- groups :: GroupIsSound(k, groups[k])
  }

  /** A pending group has a timer, a delivering one has a batch, and nothing else has either. */
  ghost predicate TimersAndBatches(q: Queue) {
    && (forall k :: k in q.timers <==> CanFlush(q, k))
    && (forall k :: k in q.batches <==> k in q.groups && q.groups[k].status == Delivering)
    && (forall k <- q.timers :: q.groups[k].deadlineAt <= q.timers[k])
  }

  /** The file holds the groups, or they were just recovered from it. */
  ghost predicate DiskIsCurrent(q: Queue) {
    AllSound(q.disk.pending) && (q.groups == q.disk.pending || q.groups == Recovered(q.disk.pending))
  }

  ghost predicate Inv(q: Queue) {
    AllSound(q.groups) && TimersAndBatches(q) && DiskIsCurrent(q) && Distinct(q.delivered) == q.delivered
  }

  /** The groups `q'` are the groups of `q` with one of them written, in memory and in the file. */
  ghost predicate IsPut(q: Queue, q': Queue, key: string, g: Group) {
    q'.groups == q'.disk.pending == q.groups[key := g]
  }

  lemma PutKeepsSound(q: Queue, q': Queue, key: string, g: Group)
    requires AllSound(q.groups) && GroupIsSound(key, g) && IsPut(q, q', key, g)
    ensures AllSound(q'.groups) && DiskIsCurrent(q')
  {
  }

  /** Replacing one group keeps timers and batches in step. */
  lemma PutKeepsTimers(q: Queue, q': Queue, key: string, g: Group)
    requires TimersAndBatches(q) && q'.groups == q.groups[key := g]
    requires g.status == Pending ==>
               key in q'.timers && q'.timers == q.timers[key := q'.timers[key]] && g.deadlineAt <= q'.timers[key]
                 && q'.batches == q.batches - {key}
    requires g.status == Delivering ==>
               q'.timers == q.timers - {key} && key in q'.batches && q'.batches == q.batches[key := q'.batches[key]]
    ensures TimersAndBatches(q')
  {
    forall k | k != key ensures k in q'.timers <==> CanFlush(q', k) {
      assert k in q.timers <==> CanFlush(q, k);
    }
  }

  lemma JoinedBatch(q: Queue, key: string)
    requires TimersAndBatches(q)
    ensures key !in q.batches ==> q.batches - {key} == q.batches
    ensures key !in q.timers ==> q.timers - {key} == q.timers
    ensures key in q.batches ==> q.batches == q.batches[key := q.batches[key]]
    ensures key in q.groups && q.groups[key].status == Delivering ==> key in q.batches && key !in q.timers
    ensures key !in q.groups || q.groups[key].status == Pending ==> key !in q.batches
  {
    assert key in q.timers <==> CanFlush(q, key);
  }

  lemma DropKeepsTimers(q: Queue, q': Queue, key: string)
    requires TimersAndBatches(q) && q'.groups == q.groups - {key}
    requires InDelivery(q, key) && q'.timers == q.timers && q'.batches == q.batches - {key}
    ensures TimersAndBatches(q')
  {
    JoinedBatch(q, key);
    forall k ensures k in q'.timers <==> CanFlush(q', k) {
      assert k in q.timers <==> CanFlush(q, k);
    }
  }

  lemma EnqueuedGroups(q: Queue, input: Input, groupId: string, now: real)
    requires Keyed(q.groups) && Accepts(q, input)
    ensures var g, q' := Receiving(q, input, groupId, now), Enqueued(q, input, groupId, now);
            && !HasIdentity(g.items, input.identity)
            && (g.key in q.groups ==> q.groups[g.key] == g) && (g.key !in q.groups ==> g.status == Pending)
            && IsPut(q, q', g.key, Extended(g, input, now, NormalizedPolicy(input.policy)))
            && q'.completed == q.completed && q'.accepted == q.accepted + {input.identity}
  {
  }

  lemma EnqueueKeepsTimers(q: Queue, input: Input, groupId: string, now: real)
    requires AllSound(q.groups) && TimersAndBatches(q) && Accepts(q, input)
    ensures TimersAndBatches(Enqueued(q, input, groupId, now))
  {
    var g := Receiving(q, input, groupId, now);
    EnqueuedGroups(q, input, groupId, now);
    JoinedBatch(q, g.key);
    PutKeepsTimers(q, Enqueued(q, input, groupId, now), g.key, Extended(g, input, now, NormalizedPolicy(input.policy)));
  }

  /** Whatever fields the message has. */
  lemma EnqueueKeepsInv(q: Queue, input: Input, groupId: string, now: real)
    requires Inv(q)
    ensures Inv(Enqueued(q, input, groupId, now))
  {
    if Accepts(q, input) {
      var g := Receiving(q, input, groupId, now);
      EnqueuedGroups(q, input, groupId, now);
      var g' := Extended(g, input, now, NormalizedPolicy(input.policy));
      PutKeepsSound(q, Enqueued(q, input, groupId, now), g.key, g');
      EnqueueKeepsTimers(q, input, groupId, now);
    }
  }

  lemma FlushKeepsInv(q: Queue, key: string)
    requires Inv(q) && CanFlush(q, key)
    ensures Inv(Flushing(q, key))
  {
    var q' := Flushing(q, key);
    PutKeepsSound(q, q', key, q'.groups[key]);
    PutKeepsTimers(q, q', key, q'.groups[key]);
  }

  lemma FailedKeepsInv(q: Queue, key: string, error: string, now: real)
    requires Inv(q) && InDelivery(q, key)
    ensures Inv(Failed(q, key, error, now))
  {
    var q' := Failed(q, key, error, now);
    PutKeepsSound(q, q', key, q'.groups[key]);
    PutKeepsTimers(q, q', key, q'.groups[key]);
  }

  lemma {:induction false} TrimmedIsSuffix(s: seq<string>)
    ensures |Trimmed(s)| <= |s| && Trimmed(s) == s[|s| - |Trimmed(s)|..]
  {
    if |s| > MAX_DELIVERED && s[0] != "" {
      TrimmedIsSuffix(s[1..]);
    }
  }

  lemma RememberedIsDistinct(delivered: seq<string>, batch: seq<string>)
    ensures Distinct(Remembered(delivered, batch)) == Remembered(delivered, batch)
  {
    DistinctIsDistinct(delivered + batch);
    TrimmedIsSuffix(Distinct(delivered + batch));
    DistinctOfDistinct(Remembered(delivered, batch));
  }

  /** The limit on remembered identities holds if and only if none that should leave is empty. */
  lemma {:induction false} TrimmedIsBoundedIff(s: seq<string>)
    ensures |Trimmed(s)| <= MAX_DELIVERED <==> |s| <= MAX_DELIVERED || "" !in s[..|s| - MAX_DELIVERED]
    ensures |Trimmed(s)| <= MAX_DELIVERED ==> Trimmed(s) == Last(s, MAX_DELIVERED)
  {
    if |s| > MAX_DELIVERED {
      FirstLeaves(s, |s| - MAX_DELIVERED);
      if s[0] != "" {
        TrimmedIsBoundedIff(s[1..]);
      }
    }
  }

  lemma FirstLeaves(s: seq<string>, n: nat)
    requires 0 < n <= |s|
    ensures "" in s[..n] <==> s[0] == "" || "" in s[1..][..n - 1]
  {
    assert s[..n] == [s[0]] + s[1..][..n - 1];
  }

  lemma SucceededKeepsInv(q: Queue, key: string, now: real)
    requires Inv(q) && InDelivery(q, key)
    ensures Inv(Succeeded(q, key, now))
  {
    var q' := Succeeded(q, key, now);
    RememberedIsDistinct(q.delivered, q.batches[key]);
    if Undelivered(q.groups[key].items, q.batches[key]) == [] {
      DropKeepsTimers(q, q', key);
    } else {
      PutKeepsSound(q, q', key, q'.groups[key]);
      PutKeepsTimers(q, q', key, q'.groups[key]);
    }
  }

  lemma ValidItemsStep(items: seq<Item>)
    requires items != [] && ItemIsValid(items[|items| - 1])
    ensures ValidItems(items) == ValidItems(items[..|items| - 1]) + [items[|items| - 1]]
  {
  }

  lemma {:induction false} ValidItemsStay(items: seq<Item>)
    requires forall i <- items :: ItemIsValid(i)
    ensures ValidItems(items) == items
  {
    if items != [] {
      var n := |items| - 1;
      assert items == items[..n] + [items[n]];
      ValidItemsStay(items[..n]);
      ValidItemsStep(items);
    }
  }

  /** A group comes back from the file as it was, pending again, if and only if it and all its
      items have every field that recovery asks for. */
  lemma RecoveryRoundTrip(key: string, g: Group)
    requires GroupIsSound(key, g)
    ensures Normalized(g) == Some(g.(status := Pending, lastError := if g.lastError == Some("") then None
            else g.lastError))
            <==> Identified(g) && forall i <- g.items :: ItemIsValid(i)
  {
    if forall i <- g.items :: ItemIsValid(i) {
      ValidItemsStay(g.items);
    } else {
      var i :| i in g.items && !ItemIsValid(i);
      assert i !in ValidItems(g.items);
    }
  }

  /** Whatever the file says, a group that comes back is due no later than its limit. */
  lemma RecoveryOrdersDeadlines(pending: Groups, key: string)
    requires key in Recovered(pending)
    ensures var g, g' := pending[key], Recovered(pending)[key];
            && g'.deadlineAt == g.deadlineAt && g.maxDeadlineAt <= g'.maxDeadlineAt
            && g'.deadlineAt <= g'.maxDeadlineAt
            && (g.deadlineAt <= g.maxDeadlineAt ==> g'.maxDeadlineAt == g.maxDeadlineAt)
  {
  }

  lemma RecoveredIsSound(pending: Groups)
    requires AllSound(pending)
    ensures AllSound(Recovered(pending))
    ensures forall k <- Recovered(pending) :: Recovered(pending)[k].status == Pending
  {
  }

  lemma RestartArmsAll(q: Queue, now: real)
    requires AllSound(q.disk.pending)
    ensures TimersAndBatches(Restarted(q, now))
  {
    RecoveredIsSound(q.disk.pending);
    var q' := Restarted(q, now);
    forall k ensures k in q'.timers <==> CanFlush(q', k) {
      assert k in q'.timers <==> k in q'.groups;
    }
  }

  /** Crash and recovery, at any moment. */
  lemma RestartKeepsInv(q: Queue, now: real)
    requires Inv(q)
    ensures Inv(Restarted(q, now))
  {
    RecoveredIsSound(q.disk.pending);
    RestartArmsAll(q, now);
    DistinctIsDistinct(Last(NonEmpty(q.disk.delivered), MAX_DELIVERED));
  }

  // ---------------------------------------------------------------- what no step loses

  /** Delivered, or recovered both from the groups and from the file. */
  ghost predicate Kept(q: Queue, x: string) {
    x in q.completed || (AnyRecovers(q.groups, x) && AnyRecovers(q.disk.pending, x))
  }

  lemma PutRecovers(groups: Groups, key: string, g: Group, x: string)
    requires key in groups && Recovers(groups[key], x) ==> Recovers(g, x)
    requires AnyRecovers(groups, x)
    ensures AnyRecovers(groups[key := g], x)
  {
    var groups' := groups[key := g];
    var k :| k in groups && Recovers(groups[k], x);
    assert k in groups' && Recovers(groups'[k], x);
  }

  lemma PutKeeps(q: Queue, q': Queue, key: string, g: Group, x: string)
    requires IsPut(q, q', key, g) && q.completed <= q'.completed
    requires key in q.groups && Recovers(q.groups[key], x) ==> Recovers(g, x)
    requires Kept(q, x)
    ensures Kept(q', x)
  {
    if x !in q.completed {
      PutRecovers(q.groups, key, g, x);
    }
  }

  lemma ExtendedStillRecovers(g: Group, input: Input, now: real, waits: Waits, x: string)
    requires Recovers(g, x)
    ensures Recovers(Extended(g, input, now, waits), x)
  {
    var i :| i in ValidItems(g.items) && i.identity == x;
    assert i in ValidItems(Extended(g, input, now, waits).items);
  }

  lemma EnqueueKeeps(q: Queue, input: Input, groupId: string, now: real, x: string)
    requires Keyed(q.groups) && Kept(q, x)
    ensures Kept(Enqueued(q, input, groupId, now), x)
  {
    if Accepts(q, input) {
      var g := Receiving(q, input, groupId, now);
      var waits := NormalizedPolicy(input.policy);
      EnqueuedGroups(q, input, groupId, now);
      if Recovers(g, x) {
        ExtendedStillRecovers(g, input, now, waits, x);
      }
      PutKeeps(q, Enqueued(q, input, groupId, now), g.key, Extended(g, input, now, waits), x);
    }
  }

  lemma UndeliveredStillRecovers(items: seq<Item>, batch: seq<string>, x: string)
    requires HasIdentity(ValidItems(items), x) && x !in batch
    ensures HasIdentity(ValidItems(Undelivered(items, batch)), x)
  {
    var i :| i in ValidItems(items) && i.identity == x;
    assert i in ValidItems(Undelivered(items, batch));
  }

  lemma DropRecovers(groups: Groups, key: string, x: string)
    requires AnyRecovers(groups, x) && (key in groups ==> !Recovers(groups[key], x))
    ensures AnyRecovers(groups - {key}, x)
  {
    var k :| k in groups && Recovers(groups[k], x);
    assert k in groups - {key} && Recovers((groups - {key})[k], x);
  }

  lemma SucceededKeeps(q: Queue, key: string, now: real, x: string)
    requires InDelivery(q, key) && Kept(q, x)
    ensures Kept(Succeeded(q, key, now), x)
  {
    var q' := Succeeded(q, key, now);
    if x !in q'.completed {
      var items := Undelivered(q.groups[key].items, q.batches[key]);
      if Recovers(q.groups[key], x) {
        UndeliveredStillRecovers(q.groups[key].items, q.batches[key], x);
      }
      if items == [] {
        DropRecovers(q.groups, key, x);
      } else {
        PutKeeps(q, q', key, q'.groups[key], x);
      }
    }
  }

  lemma NormalizedStillRecovers(g: Group, x: string)
    requires Recovers(g, x)
    ensures Normalized(g).Some? && Recovers(Normalized(g).value, x)
  {
    var i :| i in ValidItems(g.items) && i.identity == x;
    assert i in ValidItems(ValidItems(g.items));
  }

  /** What recovery reads is exactly what it is defined to keep, and it would keep it again. */
  lemma RecoveredHolds(pending: Groups, x: string)
    ensures StoredIn(Recovered(pending), x) <==> AnyRecovers(pending, x)
    ensures AnyRecovers(Recovered(pending), x) <==> AnyRecovers(pending, x)
  {
    var r := Recovered(pending);
    forall k | k in pending && Recovers(pending[k], x) ensures k in r && Recovers(r[k], x) {
      NormalizedStillRecovers(pending[k], x);
    }
    forall k | k in r && HasIdentity(r[k].items, x) ensures Recovers(pending[k], x) {
    }
    if StoredIn(r, x) {
      var k :| k in r && HasIdentity(r[k].items, x);
      assert Recovers(pending[k], x);
    }
    if AnyRecovers(r, x) {
      RecoveringIsStored(r, x);
    }
    if k :| k in pending && Recovers(pending[k], x) {
      assert k in r && Recovers(r[k], x);
      RecoveringIsStored(r, x);
    }
  }

  lemma RecoveringIsStored(groups: Groups, x: string)
    requires AnyRecovers(groups, x)
    ensures StoredIn(groups, x)
  {
    var k :| k in groups && Recovers(groups[k], x);
    var i :| i in ValidItems(groups[k].items) && i.identity == x;
    assert HasIdentity(groups[k].items, x);
  }

  // ---------------------------------------------------------------- whole runs

  datatype Event =
    | EnqueueEvent(input: Input, groupId: string, now: real)
    | FlushEvent(key: string)
    | SucceededEvent(key: string, now: real)
    | FailedEvent(key: string, error: string, now: real)
    | RestartEvent(now: real)

  /** What can happen next; whether a flush comes from a timer or a caller makes no difference.
      Messages may have any fields; group ids are generated. */
  predicate Possible(q: Queue, e: Event) {
    match e
    case EnqueueEvent(_, groupId, _) => groupId != ""
    case FlushEvent(key) => CanFlush(q, key)
    case SucceededEvent(key, _) => InDelivery(q, key)
    case FailedEvent(key, _, _) => InDelivery(q, key) && 1 <= q.groups[key].attempts
    case RestartEvent(_) => true
  }

  function Next(q: Queue, e: Event): Queue
    requires Possible(q, e)
  {
    match e
    case EnqueueEvent(input, groupId, now) => Enqueued(q, input, groupId, now)
    case FlushEvent(key) => Flushing(q, key)
    case SucceededEvent(key, now) => Succeeded(q, key, now)
    case FailedEvent(key, error, now) => Failed(q, key, error, now)
    case RestartEvent(now) => Restarted(q, now)
  }

  const Empty := Queue(map[], [], map[], map[], Disk(map[], []), {}, {}, {})

  lemma NextKeepsPromises(q: Queue, e: Event)
    requires Possible(q, e)
    ensures q.accepted <= Next(q, e).accepted && q.owed <= Next(q, e).owed && q.completed <= Next(q, e).completed
  {
  }

  lemma NextKeepsInv(q: Queue, e: Event)
    requires Inv(q) && Possible(q, e)
    ensures Inv(Next(q, e))
  {
    match e
    case EnqueueEvent(input, groupId, now) => EnqueueKeepsInv(q, input, groupId, now);
    case FlushEvent(key) => FlushKeepsInv(q, key);
    case SucceededEvent(key, now) => SucceededKeepsInv(q, key, now);
    case FailedEvent(key, error, now) => FailedKeepsInv(q, key, error, now);
    case RestartEvent(now) => RestartKeepsInv(q, now);
  }

  /** No step loses what is delivered or recovered from the groups and the file. */
  lemma NextKeeps(q: Queue, e: Event, x: string)
    requires Keyed(q.groups) && Possible(q, e) && Kept(q, x)
    ensures Kept(Next(q, e), x)
  {
    match e
    case EnqueueEvent(input, groupId, now) => EnqueueKeeps(q, input, groupId, now, x);
    case FlushEvent(key) => PutKeeps(q, Flushing(q, key), key, Flushing(q, key).groups[key], x);
    case SucceededEvent(key, now) => SucceededKeeps(q, key, now, x);
    case FailedEvent(key, error, now) =>
      PutKeeps(q, Failed(q, key, error, now), key, Failed(q, key, error, now).groups[key], x);
    case RestartEvent(_) => RecoveredHolds(q.disk.pending, x);
  }

  /** The events lead from `start` to `q`. */
  ghost predicate Runs(start: Queue, events: seq<Event>, q: Queue) {
    if events == [] then q == start
    else
      var n := |events| - 1;
      exists before :: Runs(start, events[..n], before) && Possible(before, events[n]) && q == Next(before, events[n])
  }

  ghost predicate Reached(events: seq<Event>, q: Queue) { Runs(Empty, events, q) }

  lemma {:induction false} RunKeepsInv(start: Queue, events: seq<Event>, q: Queue)
    requires Inv(start) && Runs(start, events, q)
    ensures Inv(q)
  {
    var n := |events| - 1;
    if n >= 0 {
      var before :| Runs(start, events[..n], before) && Possible(before, events[n]) && q == Next(before, events[n]);
      RunKeepsInv(start, events[..n], before);
      NextKeepsInv(before, events[n]);
    }
  }

  lemma {:induction false} RunKeeps(start: Queue, events: seq<Event>, q: Queue, x: string)
    requires Inv(start) && Runs(start, events, q) && Kept(start, x)
    ensures Kept(q, x)
  {
    var n := |events| - 1;
    if n >= 0 {
      var before :| Runs(start, events[..n], before) && Possible(before, events[n]) && q == Next(before, events[n]);
      RunKeeps(start, events[..n], before, x);
      RunKeepsInv(start, events[..n], before);
      NextKeeps(before, events[n], x);
    }
  }

  /** In every run, exactly the pending groups have an armed timer, due no earlier than their
      deadline, which never lies behind their maximum. */
  lemma PendingIsArmed(events: seq<Event>, q: Queue, key: string)
    requires Reached(events, q)
    ensures key in q.timers <==> key in q.groups && q.groups[key].status == Pending
    ensures key in q.timers ==>
              && q.groups[key].deadlineAt <= q.timers[key]
              && q.groups[key].deadlineAt <= q.groups[key].maxDeadlineAt
  {
    RunKeepsInv(Empty, events, q);
  }

  // ---------------------------------------------------------------- which messages are never lost

  /** Whatever happens from here on, the identity stays stored or delivered. */
  ghost predicate AlwaysSafe(q: Queue, x: string) {
    forall events, later :: Runs(q, events, later) ==> x in later.completed || StoredIn(later.groups, x)
  }

  lemma KeptIsSafe(q: Queue, x: string)
    requires Inv(q) && Kept(q, x)
    ensures AlwaysSafe(q, x)
  {
    forall events, later | Runs(q, events, later) ensures x in later.completed || StoredIn(later.groups, x) {
      RunKeeps(q, events, later, x);
      if x !in later.completed {
        RecoveringIsStored(later.groups, x);
      }
    }
  }

  /** In any state of any run, an identity is safe for ever if and only if it was delivered or the
      file holds it in a form that recovery keeps. */
  lemma AlwaysSafeIff(events: seq<Event>, q: Queue, x: string)
    requires Reached(events, q)
    ensures AlwaysSafe(q, x) <==> x in q.completed || AnyRecovers(q.disk.pending, x)
  {
    RunKeepsInv(Empty, events, q);
    RecoveredHolds(q.disk.pending, x);
    if x in q.completed || AnyRecovers(q.disk.pending, x) {
      KeptIsSafe(q, x);
    } else {
      var restart := [RestartEvent(0.0)];
      assert Runs(q, restart[..0], q);
      assert Runs(q, restart, Restarted(q, 0.0));
    }
  }

  /** The group with the new message recovers it exactly when both have their fields. */
  lemma ExtendedRecovers(g: Group, input: Input, now: real, waits: Waits)
    requires !HasIdentity(g.items, input.identity)
    ensures Recovers(Extended(g, input, now, waits), input.identity) <==> Recoverable(input, g)
    ensures !Recovers(g, input.identity)
  {
    var item := Item(input.identity, now, input.incomplete, input.routeKind, input.content);
    var g' := Extended(g, input, now, waits);
    assert forall i <- g'.items :: i in g.items || i == item;
    if ItemIsValid(item) {
      assert item in g'.items && item in ValidItems(g'.items);
    }
  }

  lemma PutRecoversIff(groups: Groups, g: Group, g': Group, x: string)
    requires (g.key in groups ==> groups[g.key] == g) && !Recovers(g, x)
    ensures AnyRecovers(groups[g.key := g'], x) <==> Recovers(g', x) || AnyRecovers(groups, x)
  {
    var groups' := groups[g.key := g'];
    if AnyRecovers(groups, x) {
      PutRecovers(groups, g.key, g', x);
    }
    if Recovers(g', x) {
      assert g.key in groups' && groups'[g.key] == g';
    }
    if k :| k in groups' && Recovers(groups'[k], x) {
      assert k != g.key ==> k in groups && groups[k] == groups'[k];
    }
  }

  lemma EnqueuedRecoversIff(q: Queue, input: Input, groupId: string, now: real)
    requires Keyed(q.groups) && Accepts(q, input)
    ensures var q', x := Enqueued(q, input, groupId, now), input.identity;
            && q'.groups == q'.disk.pending && q'.completed == q.completed
            && (AnyRecovers(q'.groups, x)
                <==> Recoverable(input, Receiving(q, input, groupId, now)) || AnyRecovers(q.groups, x))
  {
    var g := Receiving(q, input, groupId, now);
    EnqueuedGroups(q, input, groupId, now);
    ExtendedRecovers(g, input, now, NormalizedPolicy(input.policy));
    PutRecoversIff(q.groups, g, Extended(g, input, now, NormalizedPolicy(input.policy)), input.identity);
  }

  lemma StepIsReached(events: seq<Event>, q: Queue, e: Event)
    requires Reached(events, q) && Possible(q, e)
    ensures Reached(events + [e], Next(q, e))
  {
    assert (events + [e])[..|events|] == events;
  }

  /** A message accepted in any state of any run is stored or delivered in every later one, across
      any number of deliveries, failures, crashes and recoveries, if and only if it and the group
      that receives it have the fields that recovery asks for, or it was safe before. */
  lemma AcceptedIsSafeIff(events: seq<Event>, q: Queue, input: Input, groupId: string, now: real)
    requires Reached(events, q) && Accepts(q, input) && groupId != ""
    ensures AlwaysSafe(Enqueued(q, input, groupId, now), input.identity)
            <==> || Recoverable(input, Receiving(q, input, groupId, now))
                 || input.identity in q.completed || AnyRecovers(q.groups, input.identity)
  {
    var e := EnqueueEvent(input, groupId, now);
    RunKeepsInv(Empty, events, q);
    EnqueuedRecoversIff(q, input, groupId, now);
    StepIsReached(events, q, e);
    AlwaysSafeIff(events + [e], Next(q, e), input.identity);
  }

  /** In a queue whose groups are all identified the condition speaks of the message alone: one
      that opens a group needs the five fields that identify it, one that joins needs none. */
  lemma NewIsSafeIff(events: seq<Event>, q: Queue, input: Input, groupId: string, now: real)
    requires Reached(events, q) && Accepts(q, input) && groupId != ""
    requires (forall k <- q.groups :: Identified(q.groups[k]))
    requires input.identity !in q.completed && !StoredIn(q.groups, input.identity)
    ensures AlwaysSafe(Enqueued(q, input, groupId, now), input.identity)
            <==> && input.identity != "" && input.routeKind != ""
                 && (Joined(q.groups, input).Some?
                     || (input.key != "" && input.baseKey != "" && input.endpoint != "" && input.conversationKey != ""
                       && input.sender != ""))
  {
    AcceptedIsSafeIff(events, q, input, groupId, now);
    if AnyRecovers(q.groups, input.identity) {
      RecoveringIsStored(q.groups, input.identity);
    }
  }

  /** A complete message is not safe either, when the group it joins was opened without a sender. */
  lemma JoiningTheUnidentifiedIsLost(events: seq<Event>, q: Queue, input: Input, groupId: string, now: real)
    requires Reached(events, q) && Accepts(q, input) && groupId != ""
    requires Complete(input) && input.identity !in q.completed && !StoredIn(q.groups, input.identity)
    requires Joined(q.groups, input).Some? && q.groups[Joined(q.groups, input).value].sender == ""
    ensures !AlwaysSafe(Enqueued(q, input, groupId, now), input.identity)
  {
    AcceptedIsSafeIff(events, q, input, groupId, now);
    if AnyRecovers(q.groups, input.identity) {
      RecoveringIsStored(q.groups, input.identity);
    }
  }

  /** Without a sender a message is accepted, and gone after a restart. */
  lemma UnidentifiedIsLost(input: Input, groupId: string, now: real, later: real)
    requires input.sender == "" && input.identity != ""
    ensures var q := Enqueued(Empty, input, groupId, now);
            && input.identity in q.accepted
            && var q' := Restarted(q, later);
               input.identity !in q'.completed && !StoredIn(q'.groups, input.identity)
  {
    var q := Enqueued(Empty, input, groupId, now);
    assert Candidates(Empty.groups, input.baseKey) == {};
    assert Accepts(Empty, input);
    assert q.disk.pending.Keys == {input.key} && q.disk.pending[input.key].sender == "";
    assert Recovered(q.disk.pending) == map[];
  }

  // ---------------------------------------------------------------- what the queue owes

  ghost predicate AllOwedKept(q: Queue) {
    forall x <- q.owed :: Kept(q, x)
  }

  lemma RecoverableIsKept(q: Queue, input: Input, groupId: string, now: real)
    requires Keyed(q.groups) && Accepts(q, input) && Recoverable(input, Receiving(q, input, groupId, now))
    ensures Kept(Enqueued(q, input, groupId, now), input.identity)
  {
    EnqueuedRecoversIff(q, input, groupId, now);
  }

  lemma NewlyOwed(q: Queue, e: Event, x: string)
    requires Keyed(q.groups) && Possible(q, e) && x in Next(q, e).owed && x !in q.owed
    ensures Kept(Next(q, e), x)
  {
    match e
    case EnqueueEvent(input, groupId, now) => RecoverableIsKept(q, input, groupId, now);
  }

  lemma {:induction false} RunKeepsOwed(events: seq<Event>, q: Queue)
    requires Reached(events, q)
    ensures AllOwedKept(q)
  {
    var n := |events| - 1;
    if n >= 0 {
      var before :| Runs(Empty, events[..n], before) && Possible(before, events[n]) && q == Next(before, events[n]);
      RunKeepsOwed(events[..n], before);
      RunKeepsInv(Empty, events[..n], before);
      forall x | x in q.owed ensures Kept(q, x) {
        if x in before.owed {
          NextKeeps(before, events[n], x);
        } else {
          NewlyOwed(before, events[n], x);
        }
      }
    }
  }

  /** In every state of every run, whatever other messages it took, what the queue owes is in a
      stored group or was in a batch that was delivered. */
  lemma OwedIsStoredOrDelivered(events: seq<Event>, q: Queue, x: string)
    requires Reached(events, q) && x in q.owed
    ensures x in q.completed || StoredIn(q.groups, x)
  {
    RunKeepsOwed(events, q);
    if x !in q.completed {
      RecoveringIsStored(q.groups, x);
    }
  }

  /** The identifying fields of a message are not empty. */
  predicate Complete(input: Input) {
    && input.key != "" && input.baseKey != "" && input.endpoint != "" && input.conversationKey != ""
      && input.sender != ""
    && input.identity != "" && input.routeKind != ""
  }

  ghost predicate OwesAll(q: Queue) {
    q.owed == q.accepted && forall k <- q.groups :: Identified(q.groups[k])
  }

  lemma EnqueueOwesAll(q: Queue, input: Input, groupId: string, now: real)
    requires Keyed(q.groups) && OwesAll(q) && Complete(input) && groupId != ""
    ensures OwesAll(Enqueued(q, input, groupId, now))
  {
    if Accepts(q, input) {
      EnqueuedGroups(q, input, groupId, now);
    }
  }

  lemma NextOwesAll(q: Queue, e: Event)
    requires Keyed(q.groups) && OwesAll(q) && Possible(q, e) && (e.EnqueueEvent? ==> Complete(e.input))
    ensures OwesAll(Next(q, e))
  {
    if e.EnqueueEvent? {
      EnqueueOwesAll(q, e.input, e.groupId, e.now);
    }
  }

  lemma {:induction false} CompleteRunOwesAll(events: seq<Event>, q: Queue)
    requires Reached(events, q) && forall e <- events :: e.EnqueueEvent? ==> Complete(e.input)
    ensures OwesAll(q)
  {
    var n := |events| - 1;
    if n >= 0 {
      var before :| Runs(Empty, events[..n], before) && Possible(before, events[n]) && q == Next(before, events[n]);
      CompleteRunOwesAll(events[..n], before);
      RunKeepsInv(Empty, events[..n], before);
      NextOwesAll(before, events[n]);
    }
  }

  /** When every message has its identifying fields, as the ones of the shipped caller have, every
      accepted one is in a stored group or was delivered. */
  lemma AcceptedIsStoredOrDelivered(events: seq<Event>, q: Queue, identity: string)
    requires Reached(events, q) && identity in q.accepted
    requires forall e <- events :: e.EnqueueEvent? ==> Complete(e.input)
    ensures identity in q.completed || StoredIn(q.groups, identity)
  {
    CompleteRunOwesAll(events, q);
    OwedIsStoredOrDelivered(events, q, identity);
  }

  // ---------------------------------------------------------------- while the process lives

  ghost predicate Held(q: Queue, x: string) {
    x in q.completed || StoredIn(q.groups, x)
  }

  lemma PutStores(groups: Groups, key: string, g: Group, x: string)
    requires HasIdentity(g.items, x)
             || (StoredIn(groups, x)
                 && (key in groups && HasIdentity(groups[key].items, x) ==> HasIdentity(g.items, x)))
    ensures StoredIn(groups[key := g], x)
  {
    var groups' := groups[key := g];
    if HasIdentity(g.items, x) {
      assert HasIdentity(groups'[key].items, x);
    } else {
      var k :| k in groups && HasIdentity(groups[k].items, x);
      assert HasIdentity(groups'[k].items, x);
    }
  }

  lemma ExtendedHas(g: Group, input: Input, now: real, waits: Waits, x: string)
    requires HasIdentity(g.items, x) || x == input.identity
    ensures HasIdentity(Extended(g, input, now, waits).items, x)
  {
    var items := Extended(g, input, now, waits).items;
    if HasIdentity(g.items, x) {
      var i :| i in g.items && i.identity == x;
      assert i in items;
    } else {
      assert items[|g.items|].identity == x && items[|g.items|] in items;
    }
  }

  lemma EnqueueHolds(q: Queue, input: Input, groupId: string, now: real, x: string)
    requires Keyed(q.groups) && Accepts(q, input) && (Held(q, x) || x == input.identity)
    ensures Held(Enqueued(q, input, groupId, now), x)
  {
    if x !in q.completed {
      var g := Receiving(q, input, groupId, now);
      EnqueuedGroups(q, input, groupId, now);
      if HasIdentity(g.items, x) || x == input.identity {
        ExtendedHas(g, input, now, NormalizedPolicy(input.policy), x);
      }
      PutStores(q.groups, g.key, Extended(g, input, now, NormalizedPolicy(input.policy)), x);
    }
  }

  lemma SameItemsHold(q: Queue, q': Queue, key: string, g: Group, x: string)
    requires Held(q, x) && IsPut(q, q', key, g) && q'.completed == q.completed
    requires key in q.groups && g.items == q.groups[key].items
    ensures Held(q', x)
  {
    if x !in q.completed {
      PutStores(q.groups, key, g, x);
    }
  }

  lemma UndeliveredHas(items: seq<Item>, batch: seq<string>, x: string)
    requires HasIdentity(items, x) && x !in batch
    ensures HasIdentity(Undelivered(items, batch), x)
  {
    var i :| i in items && i.identity == x;
    assert i in Undelivered(items, batch);
  }

  lemma SucceededHolds(q: Queue, key: string, now: real, x: string)
    requires InDelivery(q, key) && Held(q, x)
    ensures Held(Succeeded(q, key, now), x)
  {
    var q' := Succeeded(q, key, now);
    if x !in q'.completed {
      if HasIdentity(q.groups[key].items, x) {
        UndeliveredHas(q.groups[key].items, q.batches[key], x);
        assert key in q'.groups && HasIdentity(q'.groups[key].items, x);
      } else {
        var k :| k in q.groups && HasIdentity(q.groups[k].items, x);
        assert k in q'.groups && HasIdentity(q'.groups[k].items, x);
      }
    }
  }

  lemma NextHolds(q: Queue, e: Event, x: string)
    requires Keyed(q.groups) && Possible(q, e) && !e.RestartEvent? && x in Next(q, e).accepted
    requires x in q.accepted ==> Held(q, x)
    ensures Held(Next(q, e), x)
  {
    match e
    case EnqueueEvent(input, groupId, now) =>
      if Accepts(q, input) {
        EnqueueHolds(q, input, groupId, now, x);
      }
    case FlushEvent(key) => SameItemsHold(q, Flushing(q, key), key, Flushing(q, key).groups[key], x);
    case SucceededEvent(key, now) => SucceededHolds(q, key, now, x);
    case FailedEvent(key, error, now) =>
      SameItemsHold(q, Failed(q, key, error, now), key, Failed(q, key, error, now).groups[key], x);
  }

  /** As long as the process lives no message is lost, whatever fields it has: every identity it
      accepted, and every earlier one it held at its start, stays stored or is delivered. */
  lemma {:induction false} LivingLosesNothing(start: Queue, events: seq<Event>, q: Queue, x: string)
    requires Inv(start) && Runs(start, events, q) && forall e <- events :: !e.RestartEvent?
    requires x in q.accepted && (x in start.accepted ==> Held(start, x))
    ensures Held(q, x)
  {
    var n := |events| - 1;
    if n >= 0 {
      var before :| Runs(start, events[..n], before) && Possible(before, events[n]) && q == Next(before, events[n]);
      if x in before.accepted {
        LivingLosesNothing(start, events[..n], before, x);
      }
      RunKeepsInv(start, events[..n], before);
      NextHolds(before, events[n], x);
    }
  }

  // ---------------------------------------------------------------- the queue, in place

  lemma JoinPrefix(s: seq<string>, t: seq<string>, i: nat)
    requires i <= |t|
    ensures i == 0 ==> s + t[..i] == s
    ensures i == |t| ==> s + t[..i] == s + t
    ensures i < |t| ==> s + t[..i + 1] == (s + t[..i]) + [t[i]]
  {
  }

  ghost predicate Reachable(q: Queue) {
    exists events :: Reached(events, q)
  }

  lemma EmptyIsReachable()
    ensures Reachable(Empty)
  {
    assert Reached([], Empty);
  }

  lemma NextIsReachable(q: Queue, e: Event)
    requires Reachable(q) && Possible(q, e)
    ensures Reachable(Next(q, e))
  {
    var events :| Reached(events, q);
    StepIsReached(events, q, e);
  }

  lemma ReachableIsSound(q: Queue)
    requires Reachable(q)
    ensures Keyed(q.groups) && Distinct(q.delivered) == q.delivered
    ensures forall key | InDelivery(q, key) :: 1 <= q.groups[key].attempts
  {
    var events :| Reached(events, q);
    RunKeepsInv(Empty, events, q);
  }

  class MessageGroupingQueue {
    var groups: Groups
    var delivered: seq<string>
    var timers: map<string, real>
    var batches: map<string, seq<string>>
    var disk: Disk
    ghost var accepted: set<string>
    ghost var owed: set<string>
    ghost var completed: set<string>

    ghost function State(): Queue
      reads this
    {
      Queue(groups, delivered, timers, batches, disk, accepted, owed, completed)
    }

    /** The state was reached by the queue's own steps. */
    ghost predicate Valid()
      reads this
    {
      Reachable(State())
    }

    constructor ()
      ensures Valid() && State() == Empty
    {
      groups, delivered, timers, batches, disk := map[], [], map[], map[], Disk(map[], []);
      accepted, owed, completed := {}, {}, {};
      new;
      EmptyIsReachable();
    }

    /** What the queue owes to everyone whose message it accepted with the fields that recovery
        asks for, and that it can pay out of its file alone. */
    lemma NothingOwedIsLost(identity: string)
      requires Valid() && identity in owed
      ensures identity in completed || StoredIn(groups, identity)
      ensures identity in completed || StoredIn(Recovered(disk.pending), identity)
    {
      var events :| Reached(events, State());
      OwedIsStoredOrDelivered(events, State(), identity);
      StepIsReached(events, State(), RestartEvent(0.0));
      OwedIsStoredOrDelivered(events + [RestartEvent(0.0)], Restarted(State(), 0.0), identity);
    }

    method Persist()
      modifies this`disk
      ensures State() == Persisted(old(State()))
    {
      disk := Disk(groups, delivered);
    }

    method Arm(g: Group, now: real)
      modifies this`timers
      ensures State() == Armed(old(State()), g, now)
    {
      timers := timers[g.key := DueAt(g, now)];
    }

    static method Extend(g0: Group, input: Input, now: real, waits: Waits) returns (g: Group)
      ensures g == Extended(g0, input, now, waits)
    {
      g := g0.(updatedAt := now, lastError := None,
        items := g0.items + [Item(input.identity, now, input.incomplete, input.routeKind, input.content)]);
      if g.status == Delivering {
        g := g.(maxDeadlineAt := Max(g.maxDeadlineAt, now + waits.maxWait * 1000.0));
      }
      var wait := if input.incomplete then waits.incompleteSettle else waits.settle;
      g := g.(deadlineAt := Min(g.maxDeadlineAt, now + wait * 1000.0));
    }

    method Enqueue(input: Input, groupId: string, now: real) returns (isAccepted: bool)
      requires Valid() && groupId != ""
      modifies this
      ensures Valid() && State() == Enqueued(old(State()), input, groupId, now)
      ensures EnqueueDoes(old(State()), State(), input, groupId, now)
      ensures isAccepted <==> Accepts(old(State()), input)
    {
      ReachableIsSound(State());
      EnqueueIsRight(State(), input, groupId, now);
      NextIsReachable(State(), EnqueueEvent(input, groupId, now));
      if input.identity in delivered {
        return false;
      }
      var joined := Joined(groups, input);
      if joined.Some? && HasIdentity(groups[joined.value].items, input.identity) {
        return false;
      }
      var waits := NormalizedPolicy(input.policy);
      Take(if joined.Some? then groups[joined.value] else NewGroup(input, groupId, now, waits), input, now, waits);
      return true;
    }

    method Take(receiving: Group, input: Input, now: real, waits: Waits)
      requires waits == NormalizedPolicy(input.policy)
      modifies this
      ensures State() == Taken(old(State()), receiving, input, now)
    {
      var g := Extend(receiving, input, now, waits);
      groups := groups[g.key := g];
      accepted := accepted + {input.identity};
      owed := owed + if Recoverable(input, receiving) then {input.identity} else {};
      Persist();
      if g.status == Pending {
        Arm(g, now);
      }
    }

    /** `flushNow` up to its await. */
    method BeginFlush(key: string) returns (started: bool)
      requires Valid()
      modifies this
      ensures Valid()
      ensures started <==> CanFlush(old(State()), key)
      ensures State() == if started then Flushing(old(State()), key) else old(State())
    {
      if key !in groups || groups[key].status == Delivering {
        return false;
      }
      NextIsReachable(State(), FlushEvent(key));
      timers := timers - {key};
      var g := groups[key].(status := Delivering, attempts := groups[key].attempts + 1, lastError := None);
      batches := batches[key := Distinct(IdentitiesOf(g.items))];
      groups := groups[key := g];
      Persist();
      return true;
    }

    static method DropDelivered(items: seq<Item>, batch: seq<string>) returns (rest: seq<Item>)
      ensures rest == Undelivered(items, batch)
    {
      rest := [];
      for i := 0 to |items|
        invariant rest == Undelivered(items[..i], batch)
      {
        assert items[..i + 1][..i] == items[..i];
        if items[i].identity !in batch {
          rest := rest + [items[i]];
        }
      }
      assert items[..|items|] == items;
    }

    /** `flushNow` after its delivery succeeded. */
    method FinishFlush(key: string, now: real)
      requires Valid() && InDelivery(State(), key)
      modifies this
      ensures Valid() && State() == Succeeded(old(State()), key, now)
    {
      ReachableIsSound(State());
      NextIsReachable(State(), SucceededEvent(key, now));
      DropBatch(key, now);
    }

    method DropBatch(key: string, now: real)
      requires InDelivery(State(), key) && Distinct(delivered) == delivered
      modifies this
      ensures State() == Succeeded(old(State()), key, now)
    {
      var batch := batches[key];
      var items := DropDelivered(groups[key].items, batch);
      RememberDelivered(batch);
      batches := batches - {key};
      completed := completed + set x <- batch :: x;
      if items == [] {
        groups := groups - {key};
      } else {
        KeepWaiting(key, items, now);
      }
      Persist();
    }

    /** What was added during the delivery waits for the next one. */
    method KeepWaiting(key: string, items: seq<Item>, now: real)
      requires key in groups && items != []
      modifies this`groups, this`timers
      ensures var g := old(groups)[key].(items := items, status := Pending, attempts := 0, lastError := None,
                                         createdAt := items[0].receivedAt);
              State() == Armed(old(State()).(groups := old(groups)[key := g]), g, now)
    {
      var g := groups[key].(items := items, status := Pending, attempts := 0, lastError := None,
        createdAt := items[0].receivedAt);
      groups := groups[key := g];
      Arm(g, now);
    }

    method AddIdentity(identity: string, ghost seen: seq<string>)
      requires delivered == Distinct(seen)
      modifies this`delivered
      ensures delivered == Distinct(seen + [identity])
    {
      DistinctAppend(seen, identity);
      if identity !in delivered {
        delivered := delivered + [identity];
      }
    }

    method AddDelivered(batch: seq<string>)
      requires Distinct(delivered) == delivered
      modifies this`delivered
      ensures delivered == Distinct(old(delivered) + batch)
    {
      ghost var first := delivered;
      JoinPrefix(first, batch, 0);
      for i := 0 to |batch|
        invariant delivered == Distinct(first + batch[..i])
      {
        JoinPrefix(first, batch, i);
        AddIdentity(batch[i], first + batch[..i]);
      }
      JoinPrefix(first, batch, |batch|);
    }

    /** Add the batch to the remembered identities and forget the oldest ones. */
    method RememberDelivered(batch: seq<string>)
      requires Distinct(delivered) == delivered
      modifies this`delivered
      ensures delivered == Remembered(old(delivered), batch)
    {
      AddDelivered(batch);
      ghost var all := delivered;
      while |delivered| > MAX_DELIVERED
        invariant Trimmed(delivered) == Trimmed(all)
      {
        if delivered[0] == "" {
          break;
        }
        delivered := delivered[1..];
      }
    }

    static method Delay(g0: Group, error: string, now: real) returns (g: Group)
      requires 1 <= g0.attempts
      ensures g == Delayed(g0, error, now)
    {
      g := g0.(status := Pending, lastError := Some(error));
      g := g.(deadlineAt := now + RetrySeconds(g.attempts) as real * 1000.0);
      g := g.(maxDeadlineAt := Max(g.maxDeadlineAt, g.deadlineAt));
    }

    /** `flushNow` after its delivery failed. */
    method RetryFlush(key: string, error: string, now: real)
      requires Valid() && InDelivery(State(), key)
      modifies this
      ensures Valid() && 1 <= old(groups)[key].attempts && State() == Failed(old(State()), key, error, now)
    {
      ReachableIsSound(State());
      NextIsReachable(State(), FailedEvent(key, error, now));
      var g := Delay(groups[key], error, now);
      groups := groups[key := g];
      batches := batches - {key};
      Persist();
      Arm(g, now);
    }

    /** A new process over the same file. */
    method Recover(now: real)
      requires Valid()
      modifies this
      ensures Valid() && State() == Restarted(old(State()), now)
    {
      NextIsReachable(State(), RestartEvent(now));
      groups := Recovered(disk.pending);
      delivered := Reread(disk.delivered);
      timers := map k | k in groups :: DueAt(groups[k], now);
      batches := map[];
    }
  }
}
