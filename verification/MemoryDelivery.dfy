/** The memory delivery handshake: one delivery at a time, a pending mark on disk before each send,
    and a receipt instead of a blind resend. */
module MemoryDelivery {
  import opened Records

  datatype Binding = Binding(thread: string, name: string, workspace: string)

  predicate Complete(b: Binding) { b.thread != "" && b.name != "" && b.workspace != "" }

  datatype Mark = Mark(promptHash: string, deliveryId: Option<string>)

  /** The agent's state, in memory and in its file. */
  datatype State = State(binding: Option<Binding>, pending: Option<Mark>)

  /** Where the one running delivery waits. */
  datatype Phase =
    | Idle
    | Verifying(promptHash: string, deliveryId: string)
    | Resolving(promptHash: string)
    | Sending(promptHash: string, binding: Binding)

  /** What became of a send. `Open` had no answer or an error, perhaps with a receipt to ask for. */
  datatype Send =
    | Open(promptHash: string, receipt: Option<string>)
    | Succeeded(promptHash: string)
    | NotStarted(promptHash: string)
    | Accepted(promptHash: string)

  /** What the running delivery has answered so far. */
  datatype Answer = Pending | Delivered(binding: Binding) | Unconfirmed | Failed

  predicate Settled(s: Send) { !s.Open? }

  datatype World = World(state: State, disk: State, phase: Phase, sends: seq<Send>)

  /** One run between two awaits: the file after each write, the world behind it, and the answer
      there. `issues` is whether it ends by sending. */
  datatype Segment = Segment(disks: seq<State>, world: World, issues: bool, answer: Answer)

  /** `readMemoryConsolidationAgentState`: without a complete binding nothing is kept. */
  function Read(disk: State): State {
    if disk.binding.None? || !Complete(disk.binding.value) then State(None, None) else disk
  }

  // ---------------------------------------------------------------- the segments

  function Leave(w: World, answer: Answer): Segment { Segment([], w.(phase := Idle), false, answer) }

  /** `deliver`, once the delivery before it has ended. */
  function Start(w: World, promptHash: string): Segment {
    if w.state.pending.Some? then
      var mark := w.state.pending.value;
      if w.state.binding.None? || mark.promptHash != promptHash || mark.deliveryId.None?
      then Leave(w, Unconfirmed)
      else Segment([], w.(phase := Verifying(promptHash, mark.deliveryId.value)), false, Pending)
    else Segment([], w.(phase := Resolving(promptHash)), false, Pending)
  }

  function WithLast(sends: seq<Send>, s: Send): seq<Send> {
    if sends == [] then [] else sends[..|sends| - 1] + [s]
  }

  /** The receipt was read; an accepted one settles the last send. */
  function ReceiptRead(w: World, accepted: bool): Segment
    requires w.phase.Verifying?
  {
    if !accepted || w.state.binding.None? then Leave(w, Unconfirmed)
    else
      var state := State(w.state.binding, None);
      Segment([state], World(state, state, Idle, WithLast(w.sends, Accepted(w.phase.promptHash))), false,
        Delivered(w.state.binding.value))
  }

  /** The target was resolved; mark the delivery as pending, then send. */
  function Resolved(w: World, b: Binding): Segment
    requires w.phase.Resolving?
  {
    if !Complete(b) then Leave(w, Failed)
    else
      var resolved := State(Some(b), w.state.pending);
      var marked := State(Some(b), Some(Mark(w.phase.promptHash, None)));
      Segment([resolved, marked], World(marked, marked, Sending(w.phase.promptHash, b),
        w.sends + [Open(w.phase.promptHash, None)]), true, Pending)
  }

  function SendSucceeded(w: World): Segment
    requires w.phase.Sending?
  {
    var state := State(Some(w.phase.binding), None);
    Segment([state], World(state, state, Idle, WithLast(w.sends, Succeeded(w.phase.promptHash))), false,
      Delivered(w.phase.binding))
  }

  /** An error may name a delivery to ask about, or say that nothing was started. */
  function SendFailed(w: World, receipt: Option<string>, notStarted: bool): Segment
    requires w.phase.Sending?
  {
    var hash := w.phase.promptHash;
    var pending := if receipt.Some? then Some(Mark(hash, receipt)) else if notStarted then None else w.state.pending;
    var state := State(Some(w.phase.binding), pending);
    var outcome := if receipt.None? && notStarted then NotStarted(hash) else Open(hash, receipt);
    Segment([state], World(state, state, Idle, WithLast(w.sends, outcome)), false,
      if pending.Some? then Unconfirmed else Failed)
  }

  // ---------------------------------------------------------------- steps

  datatype Event =
    | StartEvent(promptHash: string)
    | ReceiptEvent(accepted: bool)
    | ResolvedEvent(binding: Binding)
    | ResolveFailed
    | SucceededEvent
    | FailedEvent(receipt: Option<string>, notStarted: bool)

  /** Deliveries are serialized: one starts only when none is running. */
  predicate Enabled(w: World, e: Event) {
    match e
    case StartEvent(_) => w.phase.Idle?
    case ReceiptEvent(_) => w.phase.Verifying?
    case ResolvedEvent(_) => w.phase.Resolving?
    case ResolveFailed => w.phase.Resolving?
    case SucceededEvent => w.phase.Sending?
    case FailedEvent(_, _) => w.phase.Sending?
  }

  function Run(w: World, e: Event): Segment
    requires Enabled(w, e)
  {
    match e
    case StartEvent(promptHash) => Start(w, promptHash)
    case ReceiptEvent(accepted) => ReceiptRead(w, accepted)
    case ResolvedEvent(binding) => Resolved(w, binding)
    case ResolveFailed => Leave(w, Failed)
    case SucceededEvent => SendSucceeded(w)
    case FailedEvent(receipt, notStarted) => SendFailed(w, receipt, notStarted)
  }

  /** A restart after `writes` of the segment's writes. An answer that had arrived still counts, a
      send that had not gone out does not. */
  function Restarted(w: World, s: Segment, writes: nat): World
    requires writes <= |s.disks|
  {
    var disk := if writes == 0 then w.disk else s.disks[writes - 1];
    World(Read(disk), disk, Idle, if s.issues then w.sends else s.world.sends)
  }

  ghost predicate Step(w: World, w': World) {
    exists e :: Enabled(w, e) && Leads(w, Run(w, e), w')
  }

  ghost predicate Leads(w: World, s: Segment, w': World) {
    w' == s.world || exists k :: 0 <= k <= |s.disks| && w' == Restarted(w, s, k)
  }

  const Initial := World(State(None, None), State(None, None), Idle, [])

  ghost predicate Runs(trace: seq<World>) {
    var n := |trace| - 1;
    n < 0 || (Runs(trace[..n]) && Step(Now(trace[..n]), trace[n]))
  }

  function Now(trace: seq<World>): World {
    if trace == [] then Initial else trace[|trace| - 1]
  }

  // ---------------------------------------------------------------- what every run keeps

  predicate AllSettled(sends: seq<Send>) {
    forall s <- sends :: Settled(s)
  }

  /** A mark is about the last send, and only the last send may be open. */
  predicate Marks(state: State, sends: seq<Send>) {
    && (state.pending.None? ==> AllSettled(sends))
    && (state.pending.Some? ==> state.binding.Some? && Complete(state.binding.value))
    && (state.pending.Some? && state.pending.value.deliveryId.Some? ==>
          && sends != []
          && var last := sends[|sends| - 1];
             || last == Accepted(state.pending.value.promptHash)
             || last == Open(state.pending.value.promptHash, state.pending.value.deliveryId))
  }

  predicate Inv(w: World) {
    && Marks(w.state, w.sends) && Marks(w.disk, w.sends)
    && (forall i :: 0 <= i < |w.sends| - 1 ==> Settled(w.sends[i]))
    && match w.phase
       case Idle => true
       case Verifying(hash, id) => w.state.pending == Some(Mark(hash, Some(id)))
       case Resolving(_) => w.state.pending.None?
       case Sending(hash, b) =>
         Complete(b) && w.state.pending == w.disk.pending == Some(Mark(hash, None)) && w.sends != []
         && w.sends[|w.sends| - 1] == Open(hash, None)
  }

  lemma SettleLast(sends: seq<Send>, s: Send)
    requires sends != [] && forall i :: 0 <= i < |sends| - 1 ==> Settled(sends[i])
    ensures Settled(s) ==> AllSettled(WithLast(sends, s))
    ensures forall i :: 0 <= i < |sends| - 1 ==> Settled(WithLast(sends, s)[i])
    ensures WithLast(sends, s)[|sends| - 1] == s && |WithLast(sends, s)| == |sends|
  {
  }

  lemma SegmentKeepsInv(w: World, e: Event)
    requires Inv(w) && Enabled(w, e)
    ensures Inv(Run(w, e).world)
  {
    if w.sends != [] {
      match e {
        case ReceiptEvent(_) => SettleLast(w.sends, Accepted(w.phase.promptHash));
        case SucceededEvent => SettleLast(w.sends, Succeeded(w.phase.promptHash));
        case FailedEvent(receipt, _) =>
          SettleLast(w.sends, NotStarted(w.phase.promptHash));
          SettleLast(w.sends, Open(w.phase.promptHash, receipt));
        case _ =>
      }
    }
  }

  /** Whatever write came last, the file marks a send that may still be open. */
  lemma RestartKeepsMarks(w: World, e: Event, k: nat)
    requires Inv(w) && Enabled(w, e) && k <= |Run(w, e).disks|
    ensures var w' := Restarted(w, Run(w, e), k); Marks(w'.disk, w'.sends)
  {
    if w.sends != [] {
      match e {
        case ReceiptEvent(_) => SettleLast(w.sends, Accepted(w.phase.promptHash));
        case SucceededEvent => SettleLast(w.sends, Succeeded(w.phase.promptHash));
        case FailedEvent(receipt, _) =>
          SettleLast(w.sends, NotStarted(w.phase.promptHash));
          SettleLast(w.sends, Open(w.phase.promptHash, receipt));
        case _ =>
      }
    }
  }

  lemma RestartKeepsEarlier(w: World, e: Event, k: nat, i: nat)
    requires Inv(w) && Enabled(w, e) && k <= |Run(w, e).disks|
    requires i < |Restarted(w, Run(w, e), k).sends| - 1
    ensures Settled(Restarted(w, Run(w, e), k).sends[i])
  {
    if w.sends != [] {
      var hash := if w.phase.Idle? then "" else w.phase.promptHash;
      SettleLast(w.sends, Accepted(hash));
    }
  }

  lemma RestartKeepsInv(w: World, e: Event, k: nat)
    requires Inv(w) && Enabled(w, e) && k <= |Run(w, e).disks|
    ensures Inv(Restarted(w, Run(w, e), k))
  {
    var w' := Restarted(w, Run(w, e), k);
    RestartKeepsMarks(w, e, k);
    forall i: nat | i < |w'.sends| - 1 ensures Settled(w'.sends[i]) {
      RestartKeepsEarlier(w, e, k, i);
    }
  }

  lemma {:induction false} RunKeepsInv(trace: seq<World>)
    requires Runs(trace)
    ensures Inv(Now(trace))
  {
    var n := |trace| - 1;
    if n >= 0 {
      var w := Now(trace[..n]);
      RunKeepsInv(trace[..n]);
      var e :| Enabled(w, e) && Leads(w, Run(w, e), trace[n]);
      SegmentKeepsInv(w, e);
      if trace[n] != Run(w, e).world {
        var k :| 0 <= k <= |Run(w, e).disks| && trace[n] == Restarted(w, Run(w, e), k);
        RestartKeepsInv(w, e, k);
      }
    }
  }

  /** Across deliveries, crashes and restarts: a send goes out only when every earlier one returned
      success, was reported as not started, or had its receipt read as accepted. */
  lemma NeverResendsBlindly(trace: seq<World>, next: World)
    requires Runs(trace) && Step(Now(trace), next) && |next.sends| > |Now(trace).sends|
    ensures AllSettled(Now(trace).sends)
    ensures |next.sends| == |Now(trace).sends| + 1 && Now(trace).sends <= next.sends
  {
    RunKeepsInv(trace);
    var w := Now(trace);
    var e :| Enabled(w, e) && Leads(w, Run(w, e), next);
  }

  /** The receipt that is read is the one of the last send, and that was a send of the same prompt. */
  lemma ReceiptIsOfLastSend(trace: seq<World>)
    requires Runs(trace) && Now(trace).phase.Verifying?
    ensures var sends := Now(trace).sends;
            && sends != []
            && var last := sends[|sends| - 1];
               && (last.Accepted? || last.Open?) && last.promptHash == Now(trace).phase.promptHash
               && (last.Open? ==> last.receipt == Some(Now(trace).phase.deliveryId))
  {
    RunKeepsInv(trace);
  }

  lemma SegmentKeepsOutcomes(w: World, e: Event, i: nat)
    requires Inv(w) && Enabled(w, e) && i < |w.sends| && Settled(w.sends[i])
    ensures i < |Run(w, e).world.sends| && Settled(Run(w, e).world.sends[i])
  {
    if w.sends != [] {
      var hash := if w.phase.Idle? then "" else w.phase.promptHash;
      SettleLast(w.sends, Accepted(hash));
    }
  }

  /** An earlier outcome never changes: only the last send gets another one. */
  lemma OutcomesAreFinal(trace: seq<World>, next: World, i: nat)
    requires Runs(trace) && Step(Now(trace), next) && i < |Now(trace).sends| && Settled(Now(trace).sends[i])
    ensures i < |next.sends| && Settled(next.sends[i])
  {
    RunKeepsInv(trace);
    var w := Now(trace);
    var e :| Enabled(w, e) && Leads(w, Run(w, e), next);
    SegmentKeepsOutcomes(w, e, i);
  }

  predicate LastIs(sends: seq<Send>, s: Send) {
    sends != [] && sends[|sends| - 1] == s
  }

  /** A delivery is answered as done only when the last send was of its own prompt and returned
      success or had its receipt accepted; then nothing stays marked, in memory or in the file. */
  lemma DeliveredIsSettled(trace: seq<World>, e: Event)
    requires Runs(trace) && Enabled(Now(trace), e) && Run(Now(trace), e).answer.Delivered?
    ensures !Now(trace).phase.Idle?
    ensures var w, hash := Run(Now(trace), e).world, Now(trace).phase.promptHash;
            && (LastIs(w.sends, Succeeded(hash)) || LastIs(w.sends, Accepted(hash)))
            && w.state == w.disk == State(Some(Run(Now(trace), e).answer.binding), None)
  {
    RunKeepsInv(trace);
  }

  /** While an earlier send is uncertain, another prompt is turned away, and so is the same one as
      long as there is no receipt to ask for. */
  lemma UncertainBlocks(w: World, promptHash: string)
    requires w.phase.Idle? && w.state.pending.Some?
    requires w.state.pending.value.promptHash != promptHash || w.state.pending.value.deliveryId.None?
    ensures Start(w, promptHash) == Segment([], w, false, Unconfirmed)
  {
  }

  /** The same prompt again asks for the receipt that its earlier send named; accepted, that ends the
      delivery without another send, and refused, it changes nothing. */
  lemma SamePromptAsks(trace: seq<World>, promptHash: string, receipt: string)
    requires Runs(trace) && Now(trace).phase.Idle?
    requires Now(trace).state.pending == Some(Mark(promptHash, Some(receipt)))
    ensures var w := Now(trace);
            var asked := Start(w, promptHash);
            && asked.answer == Pending && asked.disks == []
            && asked.world == w.(phase := Verifying(promptHash, receipt))
            && w.state.binding.Some?
            && ReceiptRead(asked.world, true).answer == Delivered(w.state.binding.value)
            && ReceiptRead(asked.world, true).world.state == State(w.state.binding, None)
            && |ReceiptRead(asked.world, true).world.sends| == |w.sends|
            && ReceiptRead(asked.world, false) == Segment([], w, false, Unconfirmed)
  {
    RunKeepsInv(trace);
  }

  /** A send that returns ends its delivery. */
  lemma SuccessEnds(w: World)
    requires w.phase.Sending?
    ensures SendSucceeded(w).answer == Delivered(w.phase.binding)
    ensures SendSucceeded(w).world.state == SendSucceeded(w).world.disk == State(Some(w.phase.binding), None)
  {
  }

  /** A target is looked up only when every earlier send is settled. */
  lemma ResolvingMeansSettled(trace: seq<World>, promptHash: string)
    requires Runs(trace) && Now(trace).phase.Idle? && Start(Now(trace), promptHash).world.phase.Resolving?
    ensures AllSettled(Now(trace).sends) && Start(Now(trace), promptHash).world.phase == Resolving(promptHash)
  {
    RunKeepsInv(trace);
  }

  /** Whoever sends has the mark of this prompt in the file, beside the target that it sends to. */
  lemma SendingIsMarked(trace: seq<World>, b: Binding)
    requires Runs(trace) && Now(trace).phase.Resolving? && Complete(b)
    ensures var w, hash := Resolved(Now(trace), b).world, Now(trace).phase.promptHash;
            && w.phase == Sending(hash, b) && w.disk == State(Some(b), Some(Mark(hash, None)))
            && w.sends == Now(trace).sends + [Open(hash, None)]
            && AllSettled(Now(trace).sends)
  {
    RunKeepsInv(trace);
  }

  /** A failed send stays marked under its prompt, with the receipt that it named, unless it named
      none and had not started. */
  lemma FailureKeepsMark(trace: seq<World>, receipt: Option<string>, notStarted: bool)
    requires Runs(trace) && Now(trace).phase.Sending?
    ensures var w, hash := Now(trace), Now(trace).phase.promptHash;
            var s := SendFailed(w, receipt, notStarted);
            && s.world.state == s.world.disk && s.world.phase.Idle?
            && s.world.state.pending == (if receipt.None? && notStarted then None else Some(Mark(hash, receipt)))
            && LastIs(s.world.sends, if receipt.None? && notStarted then NotStarted(hash) else Open(hash, receipt))
            && (s.answer == Unconfirmed <==> s.world.state.pending.Some?)
  {
    RunKeepsInv(trace);
  }

  ghost predicate Reachable(w: World) {
    exists trace :: Runs(trace) && Now(trace) == w
  }

  lemma InitialIsReachable()
    ensures Reachable(Initial)
  {
    assert Runs([]) && Now([]) == Initial;
  }

  lemma RunIsReachable(w: World, e: Event)
    requires Reachable(w) && Enabled(w, e)
    ensures Reachable(Run(w, e).world)
  {
    var trace :| Runs(trace) && Now(trace) == w;
    var w' := Run(w, e).world;
    assert (trace + [w'])[..|trace|] == trace;
    assert Leads(w, Run(w, e), w');
    assert Runs(trace + [w']) && Now(trace + [w']) == w';
  }

  // ---------------------------------------------------------------- the agent, in place

  class MemoryConsolidationAgent {
    var state: State
    var disk: State
    var phase: Phase
    ghost var sends: seq<Send>
    /** What the delivery answered last. */
    var answer: Answer
    /** The file after each write of the latest segment. */
    ghost var written: seq<State>

    ghost function Snapshot(): World
      reads this
    {
      World(state, disk, phase, sends)
    }

    ghost predicate Followed(s: Segment)
      reads this
    {
      Snapshot() == s.world && written == s.disks && answer == s.answer
    }

    /** The state was reached by segments of deliveries. */
    ghost predicate Valid()
      reads this
    {
      Reachable(Snapshot())
    }

    constructor ()
      ensures Valid() && Snapshot() == Initial
    {
      state, disk, phase, sends, written := State(None, None), State(None, None), Idle, [], [];
      answer := Pending;
      new;
      InitialIsReachable();
    }

    /** An agent that is free to send has no open send behind it. */
    lemma NothingIsOpen()
      requires Valid() && state.pending.None?
      ensures AllSettled(sends)
    {
      var trace :| Runs(trace) && Now(trace) == Snapshot();
      RunKeepsInv(trace);
    }

    method Persist(b: Binding)
      modifies this`state, this`disk, this`written
      ensures state == State(Some(b), old(state).pending) == disk && written == old(written) + [disk]
    {
      state := State(Some(b), state.pending);
      disk := state;
      written := written + [disk];
    }

    method Deliver(promptHash: string)
      requires Valid() && phase.Idle?
      modifies this
      ensures Valid()
      ensures Followed(Start(old(Snapshot()), promptHash))
    {
      RunIsReachable(Snapshot(), StartEvent(promptHash));
      written, answer := [], Pending;
      if state.pending.Some? {
        var mark := state.pending.value;
        if state.binding.Some? && mark.promptHash == promptHash && mark.deliveryId.Some? {
          phase := Verifying(promptHash, mark.deliveryId.value);
        } else {
          answer := Unconfirmed;
        }
      } else {
        phase := Resolving(promptHash);
      }
    }

    method OnReceipt(accepted: bool)
      requires Valid() && phase.Verifying?
      modifies this
      ensures Valid()
      ensures Followed(ReceiptRead(old(Snapshot()), accepted))
    {
      RunIsReachable(Snapshot(), ReceiptEvent(accepted));
      written, answer := [], Unconfirmed;
      if accepted && state.binding.Some? {
        sends := WithLast(sends, Accepted(phase.promptHash));
        state := state.(pending := None);
        Persist(state.binding.value);
        answer := Delivered(state.binding.value);
      }
      phase := Idle;
    }

    method OnResolved(b: Binding)
      requires Valid() && phase.Resolving?
      modifies this
      ensures Valid()
      ensures Followed(Resolved(old(Snapshot()), b))
    {
      RunIsReachable(Snapshot(), ResolvedEvent(b));
      written, answer := [], Pending;
      if !Complete(b) {
        phase, answer := Idle, Failed;
        return;
      }
      var promptHash := phase.promptHash;
      Persist(b);
      state := state.(pending := Some(Mark(promptHash, None)));
      Persist(b);
      phase := Sending(promptHash, b);
      sends := sends + [Open(promptHash, None)];
    }

    /** No target was found. */
    method OnResolveFailed()
      requires Valid() && phase.Resolving?
      modifies this
      ensures Valid()
      ensures Followed(Leave(old(Snapshot()), Failed))
    {
      RunIsReachable(Snapshot(), ResolveFailed);
      written, phase, answer := [], Idle, Failed;
    }

    method OnSent()
      requires Valid() && phase.Sending?
      modifies this
      ensures Valid()
      ensures Followed(SendSucceeded(old(Snapshot())))
    {
      RunIsReachable(Snapshot(), SucceededEvent);
      written := [];
      sends := WithLast(sends, Succeeded(phase.promptHash));
      state := state.(pending := None);
      Persist(phase.binding);
      phase, answer := Idle, Delivered(phase.binding);
    }

    method OnSendFailed(receipt: Option<string>, notStarted: bool)
      requires Valid() && phase.Sending?
      modifies this
      ensures Valid()
      ensures Followed(SendFailed(old(Snapshot()), receipt, notStarted))
    {
      RunIsReachable(Snapshot(), FailedEvent(receipt, notStarted));
      written := [];
      sends := WithLast(sends, if receipt.None? && notStarted then NotStarted(phase.promptHash)
        else Open(phase.promptHash, receipt));
      if receipt.Some? {
        state := state.(pending := Some(Mark(phase.promptHash, receipt)));
      } else if notStarted {
        state := state.(pending := None);
      }
      Persist(phase.binding);
      phase, answer := Idle, if state.pending.Some? then Unconfirmed else Failed;
    }
  }
}
