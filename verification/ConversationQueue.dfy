/** The send queue: calls under one key run one after the other, in the order they came. */
module ConversationQueue {
  import opened Records

  datatype Stage = Waiting | Running | Done

  /** `previous` is the call whose tail this one awaits. Calls are numbered as they come. */
  datatype Call = Call(key: string, previous: Option<nat>, stage: Stage)

  /** `tails` maps a key to the call that its next one will wait for. */
  datatype Queue = Queue(calls: seq<Call>, tails: map<string, nat>)

  function Entered(q: Queue, key: string): Queue {
    if key == "" then q.(calls := q.calls + [Call(key, None, Running)])
    else
      var previous := if key in q.tails then Some(q.tails[key]) else None;
      Queue(q.calls + [Call(key, previous, if previous.None? then Running else Waiting)], q.tails[key := |q.calls|])
  }

  predicate CanProceed(q: Queue, id: nat) {
    && id < |q.calls| && q.calls[id].stage == Waiting
    && q.calls[id].previous.Some? && q.calls[id].previous.value < |q.calls|
      && q.calls[q.calls[id].previous.value].stage == Done
  }

  /** The awaited tail was resolved; the action starts. */
  function Proceeded(q: Queue, id: nat): Queue
    requires CanProceed(q, id)
  {
    q.(calls := q.calls[id := q.calls[id].(stage := Running)])
  }

  predicate IsRunning(q: Queue, id: nat) { id < |q.calls| && q.calls[id].stage == Running }

  /** The action ended, with a result or an error: resolve the tail, and drop it if it is still the last. */
  function Finished(q: Queue, id: nat): Queue
    requires IsRunning(q, id)
  {
    var key := q.calls[id].key;
    Queue(q.calls[id := q.calls[id].(stage := Done)],
          if key in q.tails && q.tails[key] == id then q.tails - {key} else q.tails)
  }

  datatype Event = Enter(key: string) | Proceed(id: nat) | Finish(id: nat)

  predicate Possible(q: Queue, e: Event) {
    match e case Enter(_) => true case Proceed(id) => CanProceed(q, id) case Finish(id) => IsRunning(q, id)
  }

  function Next(q: Queue, e: Event): Queue
    requires Possible(q, e)
  {
    match e case Enter(key) => Entered(q, key) case Proceed(id) => Proceeded(q, id) case Finish(id) => Finished(q, id)
  }

  ghost predicate Reached(events: seq<Event>, q: Queue) {
    if events == [] then q == Queue([], map[])
    else
      var n := |events| - 1;
      exists before :: Reached(events[..n], before) && Possible(before, events[n]) && q == Next(before, events[n])
  }

  // ---------------------------------------------------------------- what every state keeps

  /** A call has begun only if every earlier one of its key is done. */
  ghost predicate InTurn(q: Queue) {
    forall i, j :: 0 <= i < j < |q.calls| && q.calls[i].key == q.calls[j].key != "" && q.calls[j].stage != Waiting
      ==> q.calls[i].stage == Done
  }

  /** A waiting call waits for the one of its key that came just before it. */
  ghost predicate WaitsForPrevious(q: Queue) {
    forall j :: 0 <= j < |q.calls| && q.calls[j].stage == Waiting ==>
      && q.calls[j].key != "" && q.calls[j].previous.Some?
      && var p := q.calls[j].previous.value;
         p < j && q.calls[p].key == q.calls[j].key && forall i :: p < i < j ==> q.calls[i].key != q.calls[j].key
  }

  predicate HasWork(q: Queue, i: nat)
    requires i < |q.calls|
  {
    q.calls[i].key != "" && q.calls[i].stage != Done
  }

  /** Call i is the last of its key, and it is not done. */
  ghost predicate IsLast(calls: seq<Call>, i: nat, key: string) {
    && key != "" && i < |calls| && calls[i].key == key && calls[i].stage != Done
    && forall j :: i < j < |calls| ==> calls[j].key != key
  }

  /** The tail of a key is its last call, and that call is not done. */
  ghost predicate TailsAreLast(q: Queue) {
    forall k <- q.tails :: IsLast(q.calls, q.tails[k], k)
  }

  /** A key has a tail while one of its calls is not done. */
  ghost predicate WorkHasTail(q: Queue) {
    forall i :: 0 <= i < |q.calls| && HasWork(q, i) ==> q.calls[i].key in q.tails
  }

  ghost predicate Inv(q: Queue) {
    InTurn(q) && WaitsForPrevious(q) && TailsAreLast(q) && WorkHasTail(q)
  }

  lemma EnterKeepsOrder(q: Queue, key: string)
    requires Inv(q)
    ensures InTurn(Entered(q, key)) && WaitsForPrevious(Entered(q, key))
  {
    var q' := Entered(q, key);
    assert forall i :: 0 <= i < |q.calls| ==> q'.calls[i] == q.calls[i];
  }

  lemma EnterKeepsTails(q: Queue, key: string)
    requires TailsAreLast(q)
    ensures TailsAreLast(Entered(q, key))
  {
    var q' := Entered(q, key);
    forall k <- q'.tails ensures IsLast(q'.calls, q'.tails[k], k) {
      if k != key {
        assert IsLast(q.calls, q.tails[k], k);
      }
    }
  }

  lemma EnterKeepsWork(q: Queue, key: string)
    requires WorkHasTail(q)
    ensures WorkHasTail(Entered(q, key))
  {
    var q' := Entered(q, key);
    forall i | 0 <= i < |q'.calls| && HasWork(q', i) ensures q'.calls[i].key in q'.tails {
      if i < |q.calls| {
        assert HasWork(q, i);
      }
    }
  }

  lemma EnterKeepsInv(q: Queue, key: string)
    requires Inv(q)
    ensures Inv(Entered(q, key))
  {
    EnterKeepsOrder(q, key);
    EnterKeepsTails(q, key);
    EnterKeepsWork(q, key);
  }

  lemma EarlierAreDone(q: Queue, id: nat, i: nat)
    requires InTurn(q) && WaitsForPrevious(q) && CanProceed(q, id) && i < id && q.calls[i].key == q.calls[id].key
    ensures q.calls[i].stage == Done
  {
    var p := q.calls[id].previous.value;
    if i < p {
      assert q.calls[p].stage != Waiting;
    }
  }

  lemma ProceedKeepsTurn(q: Queue, id: nat)
    requires InTurn(q) && WaitsForPrevious(q) && CanProceed(q, id)
    ensures InTurn(Proceeded(q, id))
  {
    forall i | 0 <= i < id && q.calls[i].key == q.calls[id].key ensures q.calls[i].stage == Done {
      EarlierAreDone(q, id, i);
    }
  }

  lemma ProceedKeepsWaits(q: Queue, id: nat)
    requires WaitsForPrevious(q) && CanProceed(q, id)
    ensures WaitsForPrevious(Proceeded(q, id))
  {
    var q' := Proceeded(q, id);
    assert forall i :: 0 <= i < |q.calls| ==> q'.calls[i].key == q.calls[i].key;
  }

  lemma ProceedKeepsTails(q: Queue, id: nat)
    requires TailsAreLast(q) && CanProceed(q, id)
    ensures TailsAreLast(Proceeded(q, id))
  {
    var q' := Proceeded(q, id);
    assert forall i :: 0 <= i < |q.calls| ==> q'.calls[i].key == q.calls[i].key;
  }

  lemma ProceedKeepsWork(q: Queue, id: nat)
    requires WorkHasTail(q) && CanProceed(q, id)
    ensures WorkHasTail(Proceeded(q, id))
  {
    var q' := Proceeded(q, id);
    forall i | 0 <= i < |q'.calls| && HasWork(q', i) ensures q'.calls[i].key in q'.tails {
      assert HasWork(q, i);
    }
  }

  lemma ProceedKeepsInv(q: Queue, id: nat)
    requires Inv(q) && CanProceed(q, id)
    ensures Inv(Proceeded(q, id))
  {
    ProceedKeepsTurn(q, id);
    ProceedKeepsWaits(q, id);
    ProceedKeepsTails(q, id);
    ProceedKeepsWork(q, id);
  }

  lemma FinishKeepsOrder(q: Queue, id: nat)
    requires InTurn(q) && WaitsForPrevious(q) && IsRunning(q, id)
    ensures InTurn(Finished(q, id)) && WaitsForPrevious(Finished(q, id))
  {
    var q' := Finished(q, id);
    assert forall i :: 0 <= i < |q.calls| ==> q'.calls[i].key == q.calls[i].key;
  }

  lemma FinishKeepsTails(q: Queue, id: nat)
    requires TailsAreLast(q) && IsRunning(q, id)
    ensures TailsAreLast(Finished(q, id))
  {
    var q' := Finished(q, id);
    assert forall i :: 0 <= i < |q.calls| ==> q'.calls[i].key == q.calls[i].key;
  }

  lemma FinishKeepsWork(q: Queue, id: nat)
    requires InTurn(q) && TailsAreLast(q) && WorkHasTail(q) && IsRunning(q, id)
    ensures WorkHasTail(Finished(q, id))
  {
    var q' := Finished(q, id);
    var key := q.calls[id].key;
    forall i | 0 <= i < |q'.calls| && HasWork(q', i) ensures q'.calls[i].key in q'.tails {
      assert HasWork(q, i);
      assert q.calls[i].key in q.tails;
      if q.calls[i].key == key {
        assert i > id;
      }
    }
  }

  lemma FinishKeepsInv(q: Queue, id: nat)
    requires Inv(q) && IsRunning(q, id)
    ensures Inv(Finished(q, id))
  {
    FinishKeepsOrder(q, id);
    FinishKeepsTails(q, id);
    FinishKeepsWork(q, id);
  }

  lemma {:induction false} ReachedKeepsInv(events: seq<Event>, q: Queue)
    requires Reached(events, q)
    ensures Inv(q)
  {
    var n := |events| - 1;
    if n >= 0 {
      var before :| Reached(events[..n], before) && Possible(before, events[n]) && q == Next(before, events[n]);
      ReachedKeepsInv(events[..n], before);
      match events[n] {
        case Enter(key) => EnterKeepsInv(before, key);
        case Proceed(id) => ProceedKeepsInv(before, id);
        case Finish(id) => FinishKeepsInv(before, id);
      }
    }
  }

  /** Two calls of one conversation never run at the same time. */
  lemma RunningIsAlone(events: seq<Event>, q: Queue, i: nat, j: nat)
    requires Reached(events, q) && IsRunning(q, i) && IsRunning(q, j) && q.calls[i].key == q.calls[j].key != ""
    ensures i == j
  {
    ReachedKeepsInv(events, q);
  }

  /** Calls of one conversation run in the order they came. */
  lemma FirstComeFirstServed(events: seq<Event>, q: Queue, i: nat, j: nat)
    requires Reached(events, q) && i < j < |q.calls| && q.calls[i].key == q.calls[j].key != ""
             && q.calls[j].stage != Waiting
    ensures q.calls[i].stage == Done
  {
    ReachedKeepsInv(events, q);
  }

  /** The map holds exactly the conversations that have work left. */
  lemma NothingLeaks(events: seq<Event>, q: Queue, key: string)
    requires Reached(events, q)
    ensures key in q.tails <==> exists i :: 0 <= i < |q.calls| && q.calls[i].key == key && HasWork(q, i)
  {
    ReachedKeepsInv(events, q);
  }

  lemma {:induction false} FirstUnfinished(q: Queue, key: string, i: nat) returns (first: nat)
    requires i < |q.calls| && q.calls[i].key == key && q.calls[i].stage != Done
    ensures first <= i && q.calls[first].key == key && q.calls[first].stage != Done
    ensures forall k :: 0 <= k < first && q.calls[k].key == key ==> q.calls[k].stage == Done
  {
    if k :| 0 <= k < i && q.calls[k].key == key && q.calls[k].stage != Done {
      first := FirstUnfinished(q, key, k);
    } else {
      first := i;
    }
  }

  /** While a conversation has work left, one of its calls is running or can start: nothing
      that other conversations do can block it. */
  lemma NeverStuck(events: seq<Event>, q: Queue, i: nat) returns (next: nat)
    requires Reached(events, q) && i < |q.calls| && q.calls[i].stage != Done
    ensures next <= i && q.calls[next].key == q.calls[i].key && (IsRunning(q, next) || CanProceed(q, next))
  {
    ReachedKeepsInv(events, q);
    next := FirstUnfinished(q, q.calls[i].key, i);
  }

  ghost predicate Reachable(q: Queue) {
    exists events :: Reached(events, q)
  }

  lemma EmptyIsReachable()
    ensures Reachable(Queue([], map[]))
  {
    assert Reached([], Queue([], map[]));
  }

  lemma NextIsReachable(q: Queue, e: Event)
    requires Reachable(q) && Possible(q, e)
    ensures Reachable(Next(q, e))
  {
    var events :| Reached(events, q);
    assert (events + [e])[..|events|] == events;
    assert Reached(events + [e], Next(q, e));
  }

  // ---------------------------------------------------------------- the queue, in place

  class AgentSendConversationQueue {
    var tails: map<string, nat>
    var calls: seq<Call>

    function State(): Queue
      reads this
    {
      Queue(calls, tails)
    }

    /** The state was reached by calls of `run`. */
    ghost predicate Valid()
      reads this
    {
      Reachable(State())
    }

    constructor ()
      ensures Valid() && State() == Queue([], map[])
    {
      tails, calls := map[], [];
      new;
      EmptyIsReachable();
    }

    lemma OneAtATime(i: nat, j: nat)
      requires Valid() && IsRunning(State(), i) && IsRunning(State(), j) && calls[i].key == calls[j].key != ""
      ensures i == j
    {
      var events :| Reached(events, State());
      RunningIsAlone(events, State(), i, j);
    }

    /** `run` up to its first await; the action starts at once when nothing is ahead. */
    method Run(key: string) returns (id: nat)
      requires Valid()
      modifies this
      ensures Valid() && State() == Entered(old(State()), key) && id == |old(calls)|
    {
      NextIsReachable(State(), Enter(key));
      id := |calls|;
      if key == "" {
        calls := calls + [Call(key, None, Running)];
        return;
      }
      var previous := if key in tails then Some(tails[key]) else None;
      tails := tails[key := id];
      calls := calls + [Call(key, previous, if previous.None? then Running else Waiting)];
    }

    method Start(id: nat)
      requires Valid() && CanProceed(State(), id)
      modifies this`calls
      ensures Valid() && State() == Proceeded(old(State()), id)
    {
      NextIsReachable(State(), Proceed(id));
      calls := calls[id := calls[id].(stage := Running)];
    }

    /** The `finally` block. */
    method Release(id: nat)
      requires Valid() && IsRunning(State(), id)
      modifies this
      ensures Valid() && State() == Finished(old(State()), id)
    {
      NextIsReachable(State(), Finish(id));
      var key := calls[id].key;
      calls := calls[id := calls[id].(stage := Done)];
      if key in tails && tails[key] == id {
        tails := tails - {key};
      }
    }
  }
}
