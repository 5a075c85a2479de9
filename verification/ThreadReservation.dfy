/** Task creation under one reservation key: calls that interleave at their awaits, stale snapshots
    that are written back, and crashes between any two file writes. */
module ThreadReservation {
  import opened Records

  datatype Phase =
    | Reserved | Creating | ThreadCreated | Naming | InitialTurn
    | Completed | Uncertain | FailedBeforeCreate

  datatype Reservation = Reservation(
    phase: Phase, intent: Option<string>, thread: Option<string>, result: Option<string>, updatedAt: int)

  /** `Unreadable` is what a crash leaves between creating the file and writing it. */
  datatype File = Absent | Unreadable | Stored(r: Reservation)

  /** `intent` is the frozen caller intent of a caller key; title keys have none. */
  datatype Params = Params(intent: Option<string>, canRecover: bool, canConfirm: bool, staleAfter: int)

  /** What a call is waiting for, with the reservation it read or wrote before. */
  datatype Await =
    | Recovery(snapshot: Reservation)
    | Confirmation(snapshot: Reservation)
    | Creation(current: Reservation, started: bool)

  datatype Call = Call(params: Params, at: Await)

  /** `creates` counts calls of `create`, `starts` those that began the native creation, `confirmed`
      the answers that the task is missing. */
  datatype World = World(file: File, calls: map<nat, Call>, creates: nat, starts: nat, confirmed: nat)

  datatype Failure = IntentConflict | UnreadableFile | DifferentTask | Blocked(r: Reservation) | DidNotStart

  /** What a call has answered so far. */
  datatype Answer = Pending | Returns(task: string) | Throws(failure: Failure)

  /** One run of a call between two awaits: the files after each of its writes, the world behind it,
      and what the call answers there. */
  datatype Segment = Segment(files: seq<File>, world: World, answer: Answer)

  predicate NoTaskYet(file: File) {
    file.Absent? || (file.Stored? && file.r.phase == FailedBeforeCreate)
  }

  // ---------------------------------------------------------------- the segments

  datatype Reserving = Fresh(files: seq<File>, r: Reservation) | Existing(r: Reservation) | Refused(why: Failure)

  /** `reserveCreation`: refused for a different intent and for an unreadable file. */
  function Reserve(file: File, intent: Option<string>, now: int): Reserving {
    var r := Reservation(Reserved, intent, None, None, now);
    match file
    case Absent => Fresh([Unreadable, Stored(r)], r)
    case Unreadable => Refused(UnreadableFile)
    case Stored(e) =>
      if intent.Some? && e.intent != intent then Refused(IntentConflict)
      else if e.phase != FailedBeforeCreate then Existing(e)
      else Fresh([Stored(r)], r)
  }

  function Without(w: World, id: nat): World {
    w.(calls := map i | i in w.calls && i != id :: w.calls[i])
  }

  function Waiting(w: World, id: nat, params: Params, at: Await): World {
    w.(calls := w.calls[id := Call(params, at)])
  }

  /** Mark the reservation as creating and call `create`. */
  function CallCreate(w: World, id: nat, params: Params, files: seq<File>, r: Reservation, now: int): Segment {
    var current := r.(phase := Creating, updatedAt := now);
    Segment(files + [Stored(current)],
      Waiting(w, id, params, Creation(current, false)).(file := Stored(current), creates := w.creates + 1), Pending)
  }

  /** Write a reservation and leave the call. */
  function WriteAndLeave(w: World, id: nat, r: Reservation, answer: Answer): Segment {
    Segment([Stored(r)], Without(w, id).(file := Stored(r)), answer)
  }

  function JudgeStale(w: World, id: nat, params: Params, e: Reservation, now: int): Segment {
    var uncertain := e.(phase := Uncertain, updatedAt := now);
    if e.phase != Creating || now - e.updatedAt < params.staleAfter then Segment([], Without(w, id), Throws(Blocked(e)))
    else if params.intent.None? && e.thread.None?
      && params.canConfirm then Segment([], Waiting(w, id, params, Confirmation(e)), Pending)
    else WriteAndLeave(w, id, uncertain, Throws(Blocked(uncertain)))
  }

  predicate Recoverable(p: Phase) {
    p == Creating || p == ThreadCreated || p == Naming || p == Uncertain
  }

  function Begin(w: World, id: nat, params: Params, now: int): Segment {
    match Reserve(w.file, params.intent, now)
    case Refused(why) => Segment([], w, Throws(why))
    case Fresh(files, r) => CallCreate(w, id, params, files, r, now)
    case Existing(e) => MeetExisting(w, id, params, e, now)
  }

  function MeetExisting(w: World, id: nat, params: Params, e: Reservation, now: int): Segment {
    if e.phase == Completed && e.result.Some? then Segment([], w, Returns(e.result.value))
    else if params.intent.Some? && params.canRecover
      && Recoverable(e.phase) then Segment([], Waiting(w, id, params, Recovery(e)), Pending)
    else JudgeStale(w, id, params, e, now)
  }

  function Recovered(w: World, id: nat, answer: Option<string>, now: int): Segment
    requires id in w.calls && w.calls[id].at.Recovery?
  {
    var e := w.calls[id].at.snapshot;
    if answer.None? then JudgeStale(w, id, w.calls[id].params, e, now)
    else if e.thread.Some? && e.thread != answer then Segment([], Without(w, id), Throws(DifferentTask))
    else WriteAndLeave(w, id, e.(phase := Completed, thread := answer, result := answer, updatedAt := now),
      Returns(answer.value))
  }

  /** `missing` is false as well when the confirmation failed. */
  function Confirmed(w: World, id: nat, missing: bool, now: int): Segment
    requires id in w.calls && w.calls[id].at.Confirmation?
  {
    var params, e := w.calls[id].params, w.calls[id].at.snapshot;
    var uncertain := e.(phase := Uncertain, updatedAt := now);
    if !missing then WriteAndLeave(w, id, uncertain, Throws(Blocked(uncertain)))
    else
      var failed := Stored(e.(phase := FailedBeforeCreate, updatedAt := now));
      Reopened(w.(confirmed := w.confirmed + 1, file := failed), id, params, failed, now)
  }

  function Reopened(w: World, id: nat, params: Params, failed: File, now: int): Segment {
    match Reserve(failed, params.intent, now)
    case Fresh(files, r) => CallCreate(w, id, params, [failed] + files, r, now)
    case Existing(r) => Segment([failed], Without(w, id).(file := failed), Throws(Blocked(r)))
    case Refused(why) => Segment([failed], Without(w, id).(file := failed), Throws(why))
  }

  function Staged(w: World, id: nat, phase: Phase, thread: string, now: int): Segment
    requires id in w.calls && w.calls[id].at.Creation?
  {
    var current := w.calls[id].at.current.(phase := phase, thread := Some(thread), updatedAt := now);
    Segment([Stored(current)], Waiting(w, id, w.calls[id].params,
      w.calls[id].at.(current := current)).(file := Stored(current)), Pending)
  }

  function NativeStarted(w: World, id: nat): Segment
    requires id in w.calls && w.calls[id].at.Creation?
  {
    var call := w.calls[id];
    if call.at.started then Segment([], w, Pending)
    else Segment([], Waiting(w, id, call.params, call.at.(started := true)).(starts := w.starts + 1), Pending)
  }

  datatype Result = Success(thread: string) | NotStarted | OtherError

  function Finished(w: World, id: nat, result: Result, now: int): Segment
    requires id in w.calls && w.calls[id].at.Creation?
  {
    var caller, current := w.calls[id].params.intent.Some?, w.calls[id].at.current;
    var uncertain := current.(phase := Uncertain, updatedAt := now);
    match result
    case Success(thread) =>
      if caller && current.thread.Some? && current.thread.value != thread
      then WriteAndLeave(w, id, uncertain, Throws(Blocked(uncertain)))
      else WriteAndLeave(w, id, current.(phase := Completed, thread := Some(thread), result := Some(thread),
        updatedAt := now), Returns(thread))
    case NotStarted =>
      if caller then WriteAndLeave(w, id, current.(phase := FailedBeforeCreate, updatedAt := now), Throws(DidNotStart))
      else WriteAndLeave(w, id, uncertain, Throws(Blocked(uncertain)))
    case OtherError => WriteAndLeave(w, id, uncertain, Throws(Blocked(uncertain)))
  }

  // ---------------------------------------------------------------- steps

  datatype Event =
    | BeginEvent(id: nat, params: Params, now: int)
    | RecoveredEvent(id: nat, answer: Option<string>, now: int)
    | ConfirmedEvent(id: nat, missing: bool, now: int)
    | StagedEvent(id: nat, phase: Phase, thread: string, now: int)
    | StartedEvent(id: nat)
    | FinishedEvent(id: nat, result: Result, now: int)

  /** A creation that reports that it did not start has not started. */
  predicate Enabled(w: World, e: Event, caller: bool) {
    match e
    case BeginEvent(id, params, _) => id !in w.calls && (params.intent.Some? <==> caller)
    case RecoveredEvent(id, _, _) => id in w.calls && w.calls[id].at.Recovery?
    case ConfirmedEvent(id, _, _) => id in w.calls && w.calls[id].at.Confirmation?
    case StagedEvent(id, phase, _, _) =>
      id in w.calls && w.calls[id].at.Creation? && phase in {ThreadCreated, Naming, InitialTurn}
    case StartedEvent(id) => id in w.calls && w.calls[id].at.Creation?
    case FinishedEvent(id, result, _) =>
      id in w.calls && w.calls[id].at.Creation? && (result.NotStarted? ==> !w.calls[id].at.started)
  }

  function Run(w: World, e: Event, caller: bool): Segment
    requires Enabled(w, e, caller)
  {
    match e
    case BeginEvent(id, params, now) => Begin(w, id, params, now)
    case RecoveredEvent(id, answer, now) => Recovered(w, id, answer, now)
    case ConfirmedEvent(id, missing, now) => Confirmed(w, id, missing, now)
    case StagedEvent(id, phase, thread, now) => Staged(w, id, phase, thread, now)
    case StartedEvent(id) => NativeStarted(w, id)
    case FinishedEvent(id, result, now) => Finished(w, id, result, now)
  }

  /** The process died after `writes` of the segment's writes; every call is gone. */
  function Crashed(w: World, s: Segment, writes: nat): World
    requires writes <= |s.files|
  {
    World(if writes == 0 then w.file else s.files[writes - 1], map[], w.creates, w.starts, s.world.confirmed)
  }

  ghost predicate Step(w: World, w': World, caller: bool) {
    exists e :: Enabled(w, e, caller) && Reaches(w, Run(w, e, caller), w')
  }

  ghost predicate Reaches(w: World, s: Segment, w': World) {
    w' == s.world || exists k :: 0 <= k <= |s.files| && w' == Crashed(w, s, k)
  }

  const Initial := World(Absent, map[], 0, 0, 0)

  function Last(w: World, trace: seq<World>): World {
    if trace == [] then w else trace[|trace| - 1]
  }

  /** `trace` lists the worlds after `w`, one step each. */
  ghost predicate Runs(w: World, trace: seq<World>, caller: bool) {
    var n := |trace| - 1;
    n < 0 || (Runs(w, trace[..n], caller) && Step(Last(w, trace[..n]), trace[n], caller))
  }

  // ---------------------------------------------------------------- caller keys

  function SnapshotOf(at: Await): Reservation {
    match at case Recovery(r) => r case Confirmation(r) => r case Creation(r, _) => r
  }

  /** Every pending call has the intent of the file, and so has its snapshot. */
  predicate SameIntent(w: World) {
    && (!w.file.Stored? ==> w.calls == map[])
    && (w.file.Stored? ==> w.file.r.intent.Some?)
    && forall i <- w.calls ::
         && w.calls[i].params.intent.Some? && w.file.Stored?
         && w.calls[i].params.intent == SnapshotOf(w.calls[i].at).intent == w.file.r.intent
  }

  predicate OneCreating(w: World) {
    forall i <- w.calls, j <- w.calls :: w.calls[i].at.Creation? && w.calls[j].at.Creation? ==> i == j
  }

  /** The file tells of a call that is creating. */
  predicate CreatingIsStored(w: World) {
    NoTaskYet(w.file) ==> forall i <- w.calls :: !w.calls[i].at.Creation?
  }

  predicate NoneConfirms(w: World) {
    forall i <- w.calls :: !w.calls[i].at.Confirmation?
  }

  /** While a creation may still start, none has. */
  predicate OneStart(w: World) {
    && (NoTaskYet(w.file) ==> w.starts == 0)
    && (forall i <- w.calls :: w.calls[i].at.Creation? && !w.calls[i].at.started ==> w.starts == 0)
    && w.starts <= 1
  }

  predicate CallerInv(w: World) {
    SameIntent(w) && OneCreating(w) && CreatingIsStored(w) && NoneConfirms(w) && OneStart(w)
  }

  lemma CallerSegmentKeepsIntent(w: World, e: Event)
    requires CallerInv(w) && Enabled(w, e, true)
    ensures SameIntent(Run(w, e, true).world)
  {
    if e.BeginEvent? {
      BeginKeepsIntent(w, e.id, e.params, e.now);
    }
  }

  lemma BeginKeepsIntent(w: World, id: nat, params: Params, now: int)
    requires SameIntent(w) && id !in w.calls && params.intent.Some?
    ensures SameIntent(Begin(w, id, params, now).world)
  {
  }

  lemma CallerFilesKeepIntent(w: World, e: Event)
    requires CallerInv(w) && Enabled(w, e, true)
    ensures forall f <- Run(w, e, true).files :: f.Stored? ==> f.r.intent.Some?
    ensures w.file.Stored? ==> forall f <- Run(w, e, true).files :: f.Stored? && f.r.intent == w.file.r.intent
  {
  }

  lemma CallerWorldKeepsIntent(w: World, e: Event)
    requires CallerInv(w) && Enabled(w, e, true) && w.file.Stored?
    ensures Run(w, e, true).world.file.Stored? && Run(w, e, true).world.file.r.intent == w.file.r.intent
  {
  }

  lemma CallerSegmentKeepsOneCreating(w: World, e: Event)
    requires CallerInv(w) && Enabled(w, e, true)
    ensures OneCreating(Run(w, e, true).world)
  {
  }

  lemma CallerSegmentStoresCreating(w: World, e: Event)
    requires CallerInv(w) && Enabled(w, e, true)
    ensures CreatingIsStored(Run(w, e, true).world)
  {
  }

  lemma CallerSegmentNeverConfirms(w: World, e: Event)
    requires CallerInv(w) && Enabled(w, e, true)
    ensures NoneConfirms(Run(w, e, true).world)
  {
  }

  lemma CallerSegmentKeepsOneStart(w: World, e: Event)
    requires CallerInv(w) && Enabled(w, e, true)
    ensures OneStart(Run(w, e, true).world)
  {
  }

  /** A creation is possible again only after one that did not start. */
  lemma CallerFilesStayClosed(w: World, e: Event, k: nat)
    requires CallerInv(w) && Enabled(w, e, true) && k <= |Run(w, e, true).files|
    ensures NoTaskYet(Crashed(w, Run(w, e, true), k).file) ==> w.starts == 0
  {
  }

  lemma CallerStep(w: World, w': World)
    requires CallerInv(w) && Step(w, w', true)
    ensures CallerInv(w')
    ensures w.file.Stored? ==> w'.file.Stored? && w'.file.r.intent == w.file.r.intent
  {
    var e :| Enabled(w, e, true) && Reaches(w, Run(w, e, true), w');
    CallerSegmentKeepsIntent(w, e);
    CallerFilesKeepIntent(w, e);
    CallerSegmentKeepsOneCreating(w, e);
    CallerSegmentStoresCreating(w, e);
    CallerSegmentNeverConfirms(w, e);
    CallerSegmentKeepsOneStart(w, e);
    if w.file.Stored? {
      CallerWorldKeepsIntent(w, e);
    }
    var s := Run(w, e, true);
    if w' != s.world {
      var k :| 0 <= k <= |s.files| && w' == Crashed(w, s, k);
      CallerFilesStayClosed(w, e, k);
    }
  }

  lemma {:induction false} CallerRunKeepsInv(w: World, trace: seq<World>)
    requires CallerInv(w) && Runs(w, trace, true)
    ensures CallerInv(Last(w, trace))
  {
    var n := |trace| - 1;
    if n >= 0 {
      CallerRunKeepsInv(w, trace[..n]);
      CallerStep(Last(w, trace[..n]), trace[n]);
    }
  }

  /** Whatever interleaves or crashes: for a caller key, native creation starts at most once. */
  lemma CallerCreatesAtMostOnce(trace: seq<World>)
    requires Runs(Initial, trace, true)
    ensures Last(Initial, trace).starts <= 1
  {
    CallerRunKeepsInv(Initial, trace);
  }

  ghost predicate HasIntent(w: World, intent: Option<string>) {
    w.file.Stored? && w.file.r.intent == intent
  }

  lemma {:induction false} RunKeepsIntent(w: World, trace: seq<World>, intent: Option<string>)
    requires CallerInv(w) && Runs(w, trace, true) && HasIntent(w, intent)
    ensures HasIntent(Last(w, trace), intent)
  {
    var n := |trace| - 1;
    if n >= 0 {
      RunKeepsIntent(w, trace[..n], intent);
      CallerRunKeepsInv(w, trace[..n]);
      CallerStep(Last(w, trace[..n]), trace[n]);
    }
  }

  /** The frozen intent of a caller key never changes. */
  lemma CallerIntentIsFrozen(trace: seq<World>, more: seq<World>, intent: Option<string>)
    requires Runs(Initial, trace, true) && HasIntent(Last(Initial, trace), intent)
    requires Runs(Last(Initial, trace), more, true)
    ensures HasIntent(Last(Last(Initial, trace), more), intent)
  {
    CallerRunKeepsInv(Initial, trace);
    RunKeepsIntent(Last(Initial, trace), more, intent);
  }

  // ---------------------------------------------------------------- title keys

  /** Each call of `create` uses up the first reservation or a confirmation. */
  predicate TitleInv(w: World) {
    && w.creates + (if NoTaskYet(w.file) then 1 else 0) <= 1 + w.confirmed
    && forall i <- w.calls :: w.calls[i].params.intent.None?
  }

  lemma TitleSegmentKeepsInv(w: World, e: Event)
    requires TitleInv(w) && Enabled(w, e, false)
    ensures TitleInv(Run(w, e, false).world)
  {
  }

  lemma TitleCrashKeepsInv(w: World, e: Event, k: nat)
    requires TitleInv(w) && Enabled(w, e, false) && k <= |Run(w, e, false).files|
    ensures TitleInv(Crashed(w, Run(w, e, false), k))
  {
  }

  lemma TitleStep(w: World, w': World)
    requires TitleInv(w) && Step(w, w', false)
    ensures TitleInv(w')
  {
    var e :| Enabled(w, e, false) && Reaches(w, Run(w, e, false), w');
    TitleSegmentKeepsInv(w, e);
    if w' != Run(w, e, false).world {
      var k :| 0 <= k <= |Run(w, e, false).files| && w' == Crashed(w, Run(w, e, false), k);
      TitleCrashKeepsInv(w, e, k);
    }
  }

  lemma {:induction false} TitleRunKeepsInv(w: World, trace: seq<World>)
    requires TitleInv(w) && Runs(w, trace, false)
    ensures TitleInv(Last(w, trace))
  {
    var n := |trace| - 1;
    if n >= 0 {
      TitleRunKeepsInv(w, trace[..n]);
      TitleStep(Last(w, trace[..n]), trace[n]);
    }
  }

  /** For a title key, `create` is called at most once more often than the task was confirmed missing. */
  lemma TitleCreatesAreConfirmed(trace: seq<World>)
    requires Runs(Initial, trace, false)
    ensures Last(Initial, trace).creates <= 1 + Last(Initial, trace).confirmed
  {
    TitleRunKeepsInv(Initial, trace);
  }

  // ---------------------------------------------------------------- completed reservations

  predicate Consistent(r: Reservation) {
    (r.phase == Completed <==> r.result.Some?) && (r.result.Some? ==> r.thread == r.result)
  }

  /** The file names the task that it reports, and no pending call holds a finished reservation. */
  predicate ResultInv(w: World) {
    && (w.file.Stored? ==> Consistent(w.file.r))
    && forall i <- w.calls :: SnapshotOf(w.calls[i].at).result.None?
  }

  lemma SegmentKeepsResults(w: World, e: Event, caller: bool)
    requires ResultInv(w) && Enabled(w, e, caller)
    ensures ResultInv(Run(w, e, caller).world)
  {
  }

  lemma FilesKeepResults(w: World, e: Event, caller: bool)
    requires ResultInv(w) && Enabled(w, e, caller)
    ensures forall f <- Run(w, e, caller).files :: f.Stored? ==> Consistent(f.r)
  {
  }

  /** Whatever interleaves or crashes, a completed reservation holds the task that it answers with,
      and no other one does. */
  lemma {:induction false} CompletedNamesItsTask(trace: seq<World>, caller: bool)
    requires Runs(Initial, trace, caller)
    ensures ResultInv(Last(Initial, trace))
  {
    var n := |trace| - 1;
    if n >= 0 {
      var w := Last(Initial, trace[..n]);
      CompletedNamesItsTask(trace[..n], caller);
      var e :| Enabled(w, e, caller) && Reaches(w, Run(w, e, caller), trace[n]);
      SegmentKeepsResults(w, e, caller);
      FilesKeepResults(w, e, caller);
    }
  }

  // ---------------------------------------------------------------- what a call answers

  /** The file is reserved for another intent of the same caller key. */
  predicate OtherIntent(file: File, intent: Option<string>) {
    file.Stored? && intent.Some? && file.r.intent != intent
  }

  predicate HoldsTask(file: File, task: string) {
    file.Stored? && file.r.phase == Completed && file.r.result == Some(task) == file.r.thread
  }

  /** A call with another intent is told so, and changes nothing. */
  lemma OtherIntentIsRefused(w: World, id: nat, params: Params, now: int)
    requires OtherIntent(w.file, params.intent)
    ensures Begin(w, id, params, now) == Segment([], w, Throws(IntentConflict))
  {
  }

  /** Whoever is told a task finds it in the file, as the result of a completed reservation. */
  lemma ReturnedIsStored(w: World, e: Event, caller: bool)
    requires ResultInv(w) && Enabled(w, e, caller)
    ensures var s := Run(w, e, caller); s.answer.Returns? ==> HoldsTask(s.world.file, s.answer.task)
  {
  }

  /** A call waits exactly as long as its answer is pending. */
  lemma PendingIsWaiting(w: World, e: Event, caller: bool)
    requires Enabled(w, e, caller)
    ensures var s := Run(w, e, caller); s.answer.Pending? <==> e.id in s.world.calls
    ensures forall i | i != e.id :: i in Run(w, e, caller).world.calls <==> i in w.calls
  {
  }

  /** Where no task was created yet, a call with the right intent creates one: under its own
      reservation, which the file tells of before `create` is called. */
  lemma FreshCallCreates(w: World, id: nat, params: Params, now: int)
    requires NoTaskYet(w.file) && !OtherIntent(w.file, params.intent)
    ensures var s := Begin(w, id, params, now);
            && s.answer == Pending && s.world.creates == w.creates + 1
            && s.world.file == Stored(Reservation(Creating, params.intent, None, None, now))
            && id in s.world.calls && s.world.calls[id] == Call(params, Creation(s.world.file.r, false))
            && s.files[|s.files| - 1] == s.world.file
            && (w.file.Stored? ==> forall f <- s.files :: f.Stored?)
  {
  }

  /** `create` is called only where no task was created yet, or was confirmed missing just now. */
  lemma OnlyFreshCreates(w: World, e: Event, caller: bool)
    requires Enabled(w, e, caller)
    ensures var s := Run(w, e, caller);
            && w.creates <= s.world.creates <= w.creates + 1
            && (s.world.creates == w.creates + 1 <==>
                  || (e.BeginEvent? && NoTaskYet(w.file) && !OtherIntent(w.file, e.params.intent))
                  || (e.ConfirmedEvent? && e.missing
                      && !OtherIntent(Stored(w.calls[e.id].at.snapshot), w.calls[e.id].params.intent)))
  {
  }

  /** A creation that succeeds completes its reservation with the new task and answers it, unless an
      earlier stage of a caller's creation named another one. */
  lemma SuccessCompletes(w: World, id: nat, task: string, now: int)
    requires id in w.calls && w.calls[id].at.Creation?
    requires w.calls[id].params.intent.Some? && w.calls[id].at.current.thread.Some?
             ==> w.calls[id].at.current.thread == Some(task)
    ensures var s := Finished(w, id, Success(task), now);
            s.answer == Returns(task) && HoldsTask(s.world.file, task) && s.files == [s.world.file]
  {
  }

  /** A caller's creation that returns another task than its earlier stage named is uncertain. */
  lemma OtherTaskIsUncertain(w: World, id: nat, task: string, now: int)
    requires id in w.calls && w.calls[id].at.Creation? && w.calls[id].params.intent.Some?
    requires w.calls[id].at.current.thread.Some? && w.calls[id].at.current.thread != Some(task)
    ensures var s := Finished(w, id, Success(task), now);
            var e := w.calls[id].at.current.(phase := Uncertain, updatedAt := now);
            s.answer == Throws(Blocked(e)) && s.files == [s.world.file] == [Stored(e)]
  {
  }

  /** A file that a crash left unreadable stops every call, and stays as it is. */
  lemma UnreadableStops(w: World, id: nat, params: Params, now: int)
    requires w.file.Unreadable?
    ensures Begin(w, id, params, now) == Segment([], w, Throws(UnreadableFile))
  {
  }

  /** A completed reservation answers every later call with the right intent, and stays as it is. */
  lemma CompletedAnswers(w: World, id: nat, params: Params, now: int, task: string)
    requires HoldsTask(w.file, task) && !OtherIntent(w.file, params.intent)
    ensures Begin(w, id, params, now) == Segment([], w, Returns(task))
  {
  }

  /** A recent creation blocks, and one that has grown old reopens only through a confirmation: for
      a title key that knows no task yet. */
  lemma CreatingBlocks(w: World, id: nat, params: Params, now: int)
    requires w.file.Stored? && w.file.r.phase == Creating && !OtherIntent(w.file, params.intent)
    requires params.intent.None? || !params.canRecover
    ensures var s := Begin(w, id, params, now);
            && s.world.creates == w.creates
            && (now - w.file.r.updatedAt < params.staleAfter ==> s.answer == Throws(Blocked(w.file.r)) && s.files == [])
            && (s.answer.Pending? <==>
                  now - w.file.r.updatedAt >= params.staleAfter && params.intent.None? && w.file.r.thread.None?
                  && params.canConfirm)
            && (s.answer.Pending? ==> s.files == [] && s.world.calls[id].at == Confirmation(w.file.r))
            && (s.files != [] ==> s.world.file == Stored(w.file.r.(phase := Uncertain, updatedAt := now)))
  {
  }

  /** Whatever else a reservation has come to blocks every later call, at any age, and stays as it is. */
  lemma OthersBlock(w: World, id: nat, params: Params, now: int)
    requires w.file.Stored? && !OtherIntent(w.file, params.intent)
    requires w.file.r.phase !in {Creating, FailedBeforeCreate}
    requires w.file.r.phase == Completed ==> w.file.r.result.None?
    requires params.intent.None? || !params.canRecover || w.file.r.phase in {Reserved, InitialTurn, Completed}
    ensures var s := Begin(w, id, params, now);
            && s.answer == Throws(Blocked(w.file.r)) && s.files == []
            && s.world.file == w.file && s.world.creates == w.creates
  {
  }

  /** A call that could not recover its task is judged by the age of the creation like any other. */
  lemma UnrecoveredIsJudged(w: World, id: nat, now: int)
    requires id in w.calls && w.calls[id].at.Recovery? && w.calls[id].params.intent.Some?
    ensures var s, e := Recovered(w, id, None, now), w.calls[id].at.snapshot;
            var stale := e.phase == Creating && now - e.updatedAt >= w.calls[id].params.staleAfter;
            var uncertain := e.(phase := Uncertain, updatedAt := now);
            && s.world.creates == w.creates && id !in s.world.calls
            && (stale ==> s.files == [Stored(uncertain)] && s.answer == Throws(Blocked(uncertain)))
            && (!stale ==> s.files == [] && s.world.file == w.file && s.answer == Throws(Blocked(e)))
  {
  }

  /** A caller that can recover asks for its task first, whatever a creation has come to since. */
  lemma RecoverableAsks(w: World, id: nat, params: Params, now: int)
    requires w.file.Stored? && !OtherIntent(w.file, params.intent) && params.intent.Some? && params.canRecover
    requires w.file.r.phase in {Creating, ThreadCreated, Naming, Uncertain}
    ensures var s := Begin(w, id, params, now);
            && s.answer == Pending && s.files == [] && s.world.creates == w.creates
            && id in s.world.calls && s.world.calls[id] == Call(params, Recovery(w.file.r))
  {
  }

  /** A stage is on file, with the task that it names, before the creation goes on. */
  lemma StageIsStored(w: World, id: nat, phase: Phase, task: string, now: int)
    requires id in w.calls && w.calls[id].at.Creation?
    ensures var s := Staged(w, id, phase, task, now);
            && s.files == [s.world.file] && s.world.file.Stored?
            && s.world.file.r == w.calls[id].at.current.(phase := phase, thread := Some(task), updatedAt := now)
            && id in s.world.calls
            && s.world.calls[id] == w.calls[id].(at := Creation(s.world.file.r, w.calls[id].at.started))
  {
  }

  /** A creation that fails is uncertain and blocks, except a caller's that did not start: that one
      may be tried again. */
  lemma FailureIsJudged(w: World, id: nat, result: Result, now: int)
    requires id in w.calls && w.calls[id].at.Creation? && !result.Success?
    ensures var s, current := Finished(w, id, result, now), w.calls[id].at.current;
            && var mayRetry := result.NotStarted? && w.calls[id].params.intent.Some?;
            && s.files == [s.world.file] && s.world.file.Stored? && id !in s.world.calls
            && s.world.file.r == current.(phase := if mayRetry then FailedBeforeCreate else Uncertain, updatedAt := now)
            && s.answer == Throws(if mayRetry then DidNotStart else Blocked(s.world.file.r))
  {
  }

  /** Only an authoritative answer that the task is missing leads to another creation. */
  lemma ConfirmationDecides(w: World, id: nat, now: int)
    requires id in w.calls && w.calls[id].at.Confirmation? && w.calls[id].params.intent.None?
    ensures var s, e := Confirmed(w, id, true, now), w.calls[id].at.snapshot;
            && s.answer == Pending && s.world.creates == w.creates + 1
            && s.files != [] && s.files[0] == Stored(e.(phase := FailedBeforeCreate, updatedAt := now))
            && s.world.file == Stored(Reservation(Creating, None, None, None, now))
    ensures var s, e := Confirmed(w, id, false, now), w.calls[id].at.snapshot.(phase := Uncertain, updatedAt := now);
            && s.answer == Throws(Blocked(e)) && s.world.creates == w.creates
            && s.files == [s.world.file] == [Stored(e)]
  {
  }

  /** What was created for the caller before is found again: a recovered task completes the
      reservation, unless the reservation names another one. */
  lemma RecoveryCompletes(w: World, id: nat, task: string, now: int)
    requires id in w.calls && w.calls[id].at.Recovery?
    ensures var s, known := Recovered(w, id, Some(task), now), w.calls[id].at.snapshot.thread;
            if known.Some? && known != Some(task)
            then s.answer == Throws(DifferentTask) && s.files == [] && s.world.file == w.file
            else s.answer == Returns(task) && HoldsTask(s.world.file, task)
  {
  }

  /** In every run under a caller key each pending call has the intent that the file was reserved for. */
  lemma CallsShareIntent(trace: seq<World>, id: nat)
    requires Runs(Initial, trace, true) && id in Last(Initial, trace).calls
    ensures var w := Last(Initial, trace);
            w.file.Stored? && w.calls[id].params.intent.Some? && w.calls[id].params.intent == w.file.r.intent
  {
    CallerRunKeepsInv(Initial, trace);
  }

  ghost predicate Reachable(w: World, caller: bool) {
    exists trace :: Runs(Initial, trace, caller) && Last(Initial, trace) == w
  }

  lemma InitialIsReachable(caller: bool)
    ensures Reachable(Initial, caller)
  {
    assert Runs(Initial, [], caller) && Last(Initial, []) == Initial;
  }

  lemma RunIsReachable(w: World, e: Event, caller: bool)
    requires Reachable(w, caller) && Enabled(w, e, caller)
    ensures Reachable(Run(w, e, caller).world, caller)
  {
    var trace :| Runs(Initial, trace, caller) && Last(Initial, trace) == w;
    var w' := Run(w, e, caller).world;
    assert (trace + [w'])[..|trace|] == trace;
    assert Reaches(w, Run(w, e, caller), w');
    assert Runs(Initial, trace + [w'], caller) && Last(Initial, trace + [w']) == w';
  }

  lemma BeginIsRight(w: World, id: nat, params: Params, now: int, caller: bool)
    requires Reachable(w, caller) && id !in w.calls && (params.intent.Some? <==> caller)
    ensures var s := Begin(w, id, params, now);
            && Reachable(s.world, caller)
            && (OtherIntent(w.file, params.intent) ==> s == Segment([], w, Throws(IntentConflict)))
            && (s.answer.Returns? ==> HoldsTask(s.world.file, s.answer.task))
  {
    var e := BeginEvent(id, params, now);
    RunIsReachable(w, e, caller);
    var trace :| Runs(Initial, trace, caller) && Last(Initial, trace) == w;
    CompletedNamesItsTask(trace, caller);
    ReturnedIsStored(w, e, caller);
  }

  // ---------------------------------------------------------------- the file, in place

  /** The reservation file and the calls around it, changed write by write. */
  class ReservationDesk {
    /** Whether the key is a caller's; a title key otherwise. */
    const caller: bool
    var file: File
    var calls: map<nat, Call>
    var creates: nat
    ghost var starts: nat
    ghost var confirmed: nat
    /** The file after each write of the latest segment. */
    ghost var written: seq<File>

    ghost function Now(): World
      reads this
    {
      World(file, calls, creates, starts, confirmed)
    }

    /** The state was reached by segments of calls under this kind of key. */
    ghost predicate Valid()
      reads this
    {
      Reachable(Now(), caller)
    }

    constructor (caller: bool)
      ensures Valid() && Now() == Initial && this.caller == caller
    {
      this.caller := caller;
      file, calls, creates, starts, confirmed, written := Absent, map[], 0, 0, 0, [];
      new;
      InitialIsReachable(caller);
    }

    /** What a desk promises in every valid state. */
    lemma Promises()
      requires Valid()
      ensures caller ==> starts <= 1
      ensures !caller ==> creates <= 1 + confirmed
      ensures file.Stored? ==> Consistent(file.r)
    {
      var trace :| Runs(Initial, trace, caller) && Last(Initial, trace) == Now();
      CompletedNamesItsTask(trace, caller);
      if caller {
        CallerCreatesAtMostOnce(trace);
      } else {
        TitleCreatesAreConfirmed(trace);
      }
    }

    method Write(f: File)
      modifies this`file, this`written
      ensures file == f && written == old(written) + [f]
    {
      file := f;
      written := written + [f];
    }

    method Leave(id: nat)
      modifies this`calls
      ensures Now() == Without(old(Now()), id)
    {
      calls := map i | i in calls && i != id :: calls[i];
    }

    method StartCreating(id: nat, params: Params, r: Reservation, now: int) returns (answer: Answer)
      modifies this
      ensures Segment(written, Now(), answer) == CallCreate(old(Now()), id, params, old(written), r, now)
    {
      var current := r.(phase := Creating, updatedAt := now);
      Write(Stored(current));
      creates := creates + 1;
      calls := calls[id := Call(params, Creation(current, false))];
      return Pending;
    }

    method ReserveCreation(intent: Option<string>, now: int) returns (reserving: Reserving)
      modifies this`file, this`written
      ensures reserving == Reserve(old(file), intent, now)
      ensures if reserving.Fresh? then written == old(written) + reserving.files && file == Stored(reserving.r)
              else written == old(written) && file == old(file)
      ensures OtherIntent(old(file), intent) ==> reserving == Refused(IntentConflict)
    {
      var r := Reservation(Reserved, intent, None, None, now);
      if file.Stored? {
        if intent.Some? && file.r.intent != intent {
          return Refused(IntentConflict);
        }
        if file.r.phase != FailedBeforeCreate {
          return Existing(file.r);
        }
        Write(Stored(r));
        return Fresh([Stored(r)], r);
      }
      if file.Unreadable? {
        return Refused(UnreadableFile);
      }
      Write(Unreadable);
      Write(Stored(r));
      return Fresh([Unreadable, Stored(r)], r);
    }

    method ResolveStale(id: nat, params: Params, e: Reservation, now: int) returns (answer: Answer)
      requires written == []
      modifies this
      ensures Segment(written, Now(), answer) == JudgeStale(old(Now()), id, params, e, now)
    {
      if e.phase != Creating || now - e.updatedAt < params.staleAfter {
        Leave(id);
        return Throws(Blocked(e));
      }
      if params.intent.None? && e.thread.None? && params.canConfirm {
        calls := calls[id := Call(params, Confirmation(e))];
        return Pending;
      }
      answer := MarkUncertain(id, e, now);
    }

    /** Nobody can tell what became of the creation. */
    method MarkUncertain(id: nat, e: Reservation, now: int) returns (answer: Answer)
      modifies this
      ensures var r := e.(phase := Uncertain, updatedAt := now);
              && written == old(written) + [Stored(r)] && Now() == Without(old(Now()), id).(file := Stored(r))
              && answer == Throws(Blocked(r))
    {
      var uncertain := e.(phase := Uncertain, updatedAt := now);
      Write(Stored(uncertain));
      Leave(id);
      return Throws(Blocked(uncertain));
    }

    /** `createCodexThreadWithReservation` up to its first await. */
    method BeginCreation(id: nat, params: Params, now: int) returns (answer: Answer)
      requires Valid() && id !in calls && (params.intent.Some? <==> caller)
      modifies this
      ensures Valid()
      ensures Segment(written, Now(), answer) == Begin(old(Now()), id, params, now)
      ensures OtherIntent(old(file), params.intent) ==>
                Now() == old(Now()) && written == [] && answer == Throws(IntentConflict)
      ensures answer.Returns? ==> HoldsTask(file, answer.task)
    {
      BeginIsRight(Now(), id, params, now, caller);
      answer := ReserveOrMeet(id, params, now);
    }

    method ReserveOrMeet(id: nat, params: Params, now: int) returns (answer: Answer)
      modifies this
      ensures Segment(written, Now(), answer) == Begin(old(Now()), id, params, now)
    {
      written := [];
      var reserving := ReserveCreation(params.intent, now);
      match reserving {
        case Refused(why) => answer := Throws(why);
        case Fresh(_, r) => answer := StartCreating(id, params, r, now);
        case Existing(e) => answer := AnswerExisting(id, params, e, now);
      }
    }

    /** Somebody reserved before: answer, recover, or judge how old the reservation is. */
    method AnswerExisting(id: nat, params: Params, e: Reservation, now: int) returns (answer: Answer)
      requires written == []
      modifies this
      ensures Segment(written, Now(), answer) == MeetExisting(old(Now()), id, params, e, now)
    {
      if e.phase == Completed && e.result.Some? {
        return Returns(e.result.value);
      }
      if params.intent.Some? && params.canRecover && Recoverable(e.phase) {
        calls := calls[id := Call(params, Recovery(e))];
        return Pending;
      }
      answer := ResolveStale(id, params, e, now);
    }

    /** The answer of `recoverCreated`, judged against the reservation read before it. */
    method ContinueRecovered(id: nat, found: Option<string>, now: int) returns (answer: Answer)
      requires Valid() && id in calls && calls[id].at.Recovery?
      modifies this
      ensures Valid()
      ensures Segment(written, Now(), answer) == Recovered(old(Now()), id, found, now)
      ensures answer.Returns? ==> HoldsTask(file, answer.task)
    {
      RunIsReachable(Now(), RecoveredEvent(id, found, now), caller);
      written := [];
      var params, e := calls[id].params, calls[id].at.snapshot;
      if found.None? {
        answer := ResolveStale(id, params, e, now);
      } else if e.thread.Some? && e.thread != found {
        Leave(id);
        answer := Throws(DifferentTask);
      } else {
        Write(Stored(e.(phase := Completed, thread := found, result := found, updatedAt := now)));
        Leave(id);
        answer := Returns(found.value);
      }
    }

    /** The native creation begins. */
    method NoteNativeStart(id: nat)
      requires Valid() && id in calls && calls[id].at.Creation?
      modifies this
      ensures Valid()
      ensures Segment(written, Now(), Pending) == NativeStarted(old(Now()), id)
    {
      RunIsReachable(Now(), StartedEvent(id), caller);
      written := [];
      var call := calls[id];
      if !call.at.started {
        calls := calls[id := call.(at := call.at.(started := true))];
        starts := starts + 1;
      }
    }

    /** `create` reports a stage. */
    method RecordStage(id: nat, phase: Phase, thread: string, now: int)
      requires Valid() && id in calls && calls[id].at.Creation? && phase in {ThreadCreated, Naming, InitialTurn}
      modifies this
      ensures Valid()
      ensures Segment(written, Now(), Pending) == Staged(old(Now()), id, phase, thread, now)
    {
      RunIsReachable(Now(), StagedEvent(id, phase, thread, now), caller);
      written := [];
      var call := calls[id];
      var current := call.at.current.(phase := phase, thread := Some(thread), updatedAt := now);
      Write(Stored(current));
      calls := calls[id := call.(at := call.at.(current := current))];
    }

    /** The answer of `confirmMissing`. */
    method ContinueConfirmed(id: nat, missing: bool, now: int) returns (answer: Answer)
      requires Valid() && id in calls && calls[id].at.Confirmation?
      modifies this
      ensures Valid()
      ensures Segment(written, Now(), answer) == Confirmed(old(Now()), id, missing, now)
    {
      RunIsReachable(Now(), ConfirmedEvent(id, missing, now), caller);
      written := [];
      var params, e := calls[id].params, calls[id].at.snapshot;
      if !missing {
        answer := MarkUncertain(id, e, now);
        return;
      }
      confirmed := confirmed + 1;
      Write(Stored(e.(phase := FailedBeforeCreate, updatedAt := now)));
      answer := ReserveAgain(id, params, now);
    }

    /** Reserve once more after the file says that nothing was created. */
    method ReserveAgain(id: nat, params: Params, now: int) returns (answer: Answer)
      requires |written| == 1 && written == [file]
      modifies this
      ensures Segment(written, Now(), answer) == Reopened(old(Now()), id, params, old(file), now)
    {
      var reserving := ReserveCreation(params.intent, now);
      match reserving {
        case Fresh(_, r) => answer := StartCreating(id, params, r, now);
        case Existing(r) =>
          Leave(id);
          answer := Throws(Blocked(r));
        case Refused(why) =>
          Leave(id);
          answer := Throws(why);
      }
    }

    /** The outcome of `create`. */
    method FinishCreation(id: nat, result: Result, now: int) returns (answer: Answer)
      requires Valid() && id in calls && calls[id].at.Creation?
      requires result.NotStarted? ==> !calls[id].at.started
      modifies this
      ensures Valid()
      ensures Segment(written, Now(), answer) == Finished(old(Now()), id, result, now)
      ensures answer.Returns? ==> HoldsTask(file, answer.task) && result == Success(answer.task)
    {
      RunIsReachable(Now(), FinishedEvent(id, result, now), caller);
      written := [];
      var byCaller, current := calls[id].params.intent.Some?, calls[id].at.current;
      if result.Success? && !(byCaller && current.thread.Some? && current.thread.value != result.thread) {
        var task := Some(result.thread);
        Write(Stored(current.(phase := Completed, thread := task, result := task, updatedAt := now)));
        Leave(id);
        answer := Returns(result.thread);
      } else if result.NotStarted? && byCaller {
        Write(Stored(current.(phase := FailedBeforeCreate, updatedAt := now)));
        Leave(id);
        answer := Throws(DidNotStart);
      } else {
        answer := MarkUncertain(id, current, now);
      }
    }
  }
}
