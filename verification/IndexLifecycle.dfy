/** Generations of the search index: lock-holding writers publish, collect and roll back while
    lock-free readers lease. Every file operation is one atomic step; steps interleave freely. */
module IndexLifecycle {
  import opened Records

  type Generation = nat
  type LeaseId = nat
  type ReaderId = nat

  /** Where one call of `acquireMessageIndexLease` stands. */
  datatype Reader =
    | Idle
    | SawPointer(g: Generation)               // active.json was read
    | SawHealthy(g: Generation)               // no quarantine.json was found
    | Leased(g: Generation, id: LeaseId)      // the lease file is written
    | Rechecked(g: Generation, id: LeaseId)   // active.json still named the generation
    | Held(g: Generation, id: LeaseId)        // the database existed: the lease was returned

  /** Where the process holding writer.lock stands. */
  datatype Writer =
    | Unlocked
    | Locked
    | Failing                                 // the candidate was marked as damaged
    | Built(g: Generation)                    // the candidate is complete and validated
    | Saved(g: Generation)                    // previous.json is written
    | Published(g: Generation)                // active.json is written
    | RollingBack(to: Generation)             // previous.json already names the old active
    | Collecting(todo: set<Generation>)
    | Scanning(todo: set<Generation>, g: Generation, unread: set<LeaseId>)
    | Removing(todo: set<Generation>, g: Generation)

  datatype World = World(
    active: Option<Generation>,
    previous: Option<Generation>,
    building: Option<Generation>,
    dirs: set<Generation>,
    databases: set<Generation>,
    quarantined: set<Generation>,
    leases: map<LeaseId, Generation>,
    dead: set<LeaseId>,                       // leases whose process has ended
    readers: map<ReaderId, Reader>,
    writer: Writer,
    nextLease: LeaseId,
    nextGeneration: Generation)

  const Start := World(None, None, None, {}, {}, {}, map[], {}, map[], Unlocked, 0, 0)

  datatype ReaderAction =
    | ReadPointer | CheckQuarantine | WriteLease | Recheck | ConfirmDatabase
    | Reuse | Release | MarkBad | Die

  datatype WriterAction =
    | Lock | Unlock
    | MarkActiveCorrupt
    | StartBuild | FinishBuild | FailBuild | DropBuilding
    | SavePrevious(healthy: bool) | Publish | ClearBuilding
    | SaveForRollback(expected: Generation) | FinishRollback
    | StartCollect(damaged: set<Generation>)
    | Pick(g: Generation)
    | ReadLease(id: LeaseId)
    | FinishScan
    | RemoveLeaseFile(id: LeaseId) | RemoveDatabase | RemoveMark | RemoveDirectory
    | FinishCollect

  datatype Action = Read(r: ReaderId, a: ReaderAction) | Write(w: WriterAction)

  function ReaderAt(w: World, r: ReaderId): Reader {
    if r in w.readers then w.readers[r] else Idle
  }

  /** The directory removal has no further checks: a lease file may vanish while it runs. */
  predicate ReaderEnabled(w: World, r: ReaderId, a: ReaderAction) {
    var s := ReaderAt(w, r);
    match a
    case ReadPointer => s.Idle? && w.active.Some?
    case CheckQuarantine => s.SawPointer?
    case WriteLease => s.SawHealthy?
    case Recheck => s.Leased?
    case ConfirmDatabase => s.Rechecked?
    case Reuse => s.Held? && w.active == Some(s.g) && s.g !in w.quarantined && s.g in w.databases
    case Release => s.Held?
    case MarkBad => s.Held?
    case Die => true
  }

  function ReaderNext(w: World, r: ReaderId, a: ReaderAction): World
    requires ReaderEnabled(w, r, a)
  {
    var s := ReaderAt(w, r);
    match a
    case ReadPointer => w.(readers := w.readers[r := SawPointer(w.active.value)])
    case CheckQuarantine =>
      w.(readers := w.readers[r := if s.g in w.quarantined then Idle else SawHealthy(s.g)])
    case WriteLease =>  // mkdir -p may bring back the directory of a collected generation
      w.(readers := w.readers[r := Leased(s.g, w.nextLease)],
         leases := w.leases[w.nextLease := s.g], dirs := w.dirs + {s.g}, nextLease := w.nextLease + 1)
    case Recheck =>
      if w.active == Some(s.g) then w.(readers := w.readers[r := Rechecked(s.g, s.id)])
      else w.(readers := w.readers[r := Idle], leases := w.leases - {s.id})
    case ConfirmDatabase =>
      if s.g in w.databases then w.(readers := w.readers[r := Held(s.g, s.id)])
      else w.(readers := w.readers[r := Idle], leases := w.leases - {s.id})
    case Reuse => w  // a retained lease is revalidated and handed out again; no file is touched
    case Release => w.(readers := w.readers[r := Idle], leases := w.leases - {s.id})
    case MarkBad => w.(quarantined := w.quarantined + {s.g})
    case Die =>
      w.(readers := w.readers[r := Idle],
         dead := if s.Leased? || s.Rechecked? || s.Held? then w.dead + {s.id} else w.dead)
  }

  function Pointed(w: World): set<Generation> {
    (if w.active.Some? then {w.active.value} else {})
    + (if w.previous.Some? then {w.previous.value} else {})
    + (if w.building.Some? then {w.building.value} else {})
  }

  predicate WriterEnabled(w: World, a: WriterAction) {
    var s := w.writer;
    match a
    case Lock => s.Unlocked?
    case Unlock => !s.Unlocked?  // a finished, failed or crashed writer alike
    case MarkActiveCorrupt => s.Locked? && w.active.Some?
    case StartBuild => s.Locked? && w.building.None?
    case FinishBuild => s.Locked? && w.building.Some?
    case FailBuild => s.Locked? && w.building.Some?
    case DropBuilding => s.Failing?
    case SavePrevious(_) => s.Built?
    case Publish => s.Saved?
    case ClearBuilding => s.Published?
    case SaveForRollback(expected) =>
      && s.Locked? && w.active == Some(expected) && w.previous.Some?
      && w.previous.value !in w.quarantined && w.previous.value in w.databases
    case FinishRollback => s.RollingBack?
    case StartCollect(damaged) => s.Locked? && damaged <= w.quarantined
    case Pick(g) => s.Collecting? && g in s.todo
    case ReadLease(id) => s.Scanning? && id in s.unread
    case FinishScan => s.Scanning? && s.unread == {}
    case RemoveLeaseFile(id) => s.Removing? && id in w.leases && w.leases[id] == s.g
    case RemoveDatabase => s.Removing?
    case RemoveMark => s.Removing?
    case RemoveDirectory => s.Removing? && s.g !in w.databases
    case FinishCollect => s.Collecting? && s.todo == {}
  }

  function WriterNext(w: World, a: WriterAction): World
    requires WriterEnabled(w, a)
  {
    var s := w.writer;
    match a
    case Lock => w.(writer := Locked)
    case Unlock => w.(writer := Unlocked)
    case MarkActiveCorrupt => w.(quarantined := w.quarantined + {w.active.value})
    case StartBuild => w.(building := Some(w.nextGeneration), nextGeneration := w.nextGeneration + 1)
    case FinishBuild =>
      w.(writer := Built(w.building.value), dirs := w.dirs + {w.building.value},
         databases := w.databases + {w.building.value})
    case FailBuild =>
      w.(writer := Failing, dirs := w.dirs + {w.building.value},
         quarantined := w.quarantined + {w.building.value})
    case DropBuilding => w.(writer := Locked, building := None)
    case SavePrevious(healthy) =>  // as judged before the build
      w.(writer := Saved(s.g), previous := if w.active.Some? && healthy then w.active else w.previous)
    case Publish => w.(writer := Published(s.g), active := Some(s.g))
    case ClearBuilding => w.(writer := Locked, building := None)
    case SaveForRollback(_) => w.(writer := RollingBack(w.previous.value), previous := w.active)
    case FinishRollback => w.(writer := Locked, active := Some(s.to))
    case StartCollect(damaged) => w.(writer := Collecting(w.dirs - Pointed(w) - damaged))
    case Pick(g) => w.(writer := Scanning(s.todo - {g}, g, set id | id in w.leases && w.leases[id] == g))
    case ReadLease(id) =>
      if id !in w.leases || id !in w.dead then w.(writer := Collecting(s.todo))  // vanished or live: keep
      else w.(writer := Scanning(s.todo, s.g, s.unread - {id}), leases := w.leases - {id})
    case FinishScan => w.(writer := Removing(s.todo, s.g))
    case RemoveLeaseFile(id) => w.(leases := w.leases - {id})
    case RemoveDatabase => w.(databases := w.databases - {s.g})
    case RemoveMark => w.(quarantined := w.quarantined - {s.g})
    case RemoveDirectory =>
      w.(writer := Collecting(s.todo), dirs := w.dirs - {s.g}, quarantined := w.quarantined - {s.g},
         leases := map id | id in w.leases && w.leases[id] != s.g :: w.leases[id])
    case FinishCollect => w.(writer := Locked)
  }

  predicate Enabled(w: World, a: Action) {
    match a
    case Read(r, ra) => ReaderEnabled(w, r, ra)
    case Write(wa) => WriterEnabled(w, wa)
  }

  function Next(w: World, a: Action): World
    requires Enabled(w, a)
  {
    match a
    case Read(r, ra) => ReaderNext(w, r, ra)
    case Write(wa) => WriterNext(w, wa)
  }

  // ---------------------------------------------------------------- the invariant

  /** The reader relies on its generation staying where it is. */
  predicate Relies(s: Reader) {
    s.Rechecked? || s.Held?
  }

  predicate HasLease(s: Reader) {
    s.Leased? || Relies(s)
  }

  ghost predicate PointersGood(w: World) {
    && (w.active.Some? ==> w.active.value in w.databases && w.active.value in w.dirs)
    && (w.previous.Some? ==> w.previous.value in w.databases && w.previous.value in w.dirs)
    && (w.building.Some? ==> w.building.value < w.nextGeneration)
    && (forall g <- w.dirs :: g < w.nextGeneration)
  }

  /** Lease ids are fresh, belong to live processes, and no two readers share one. */
  ghost predicate LeasesGood(w: World) {
    && (forall r <- w.readers :: HasLease(w.readers[r]) ==>
          w.readers[r].id < w.nextLease && w.readers[r].id !in w.dead)
    && (forall r, t :: r in w.readers && t in w.readers && r != t && HasLease(w.readers[r]) && HasLease(w.readers[t])
          ==> w.readers[r].id != w.readers[t].id)
  }

  ghost predicate BoundsGood(w: World) {
    && (forall id <- w.leases :: id < w.nextLease)
    && (forall id <- w.dead :: id < w.nextLease)
    && (forall r <- w.readers :: w.readers[r] != Idle ==> w.readers[r].g < w.nextGeneration)
  }

  /** The generations that a pointer names or is about to name again. */
  ghost function Protected(w: World): set<Generation> {
    Pointed(w) + if w.writer.RollingBack? then {w.writer.to} else {}
  }

  /** A written lease disappears only after its generation has lost every pointer for good. */
  ghost predicate FreshLeaseKept(w: World) {
    forall r <- w.readers :: w.readers[r].Leased? && w.readers[r].g in Protected(w) ==>
      w.readers[r].id in w.leases && w.leases[w.readers[r].id] == w.readers[r].g
  }

  /** A reader that relies on a generation has its lease file in place and the database exists. */
  ghost predicate ReliedOnKept(w: World) {
    forall r <- w.readers :: Relies(w.readers[r]) ==>
      && w.readers[r].id in w.leases && w.leases[w.readers[r].id] == w.readers[r].g
      && w.readers[r].g in w.databases && w.readers[r].g in w.dirs
  }

  /** What a collector knows about the generation it is about to remove. */
  ghost predicate WriterGood(w: World) {
    match w.writer
    case Built(g) => w.building == Some(g) && g in w.databases && g in w.dirs
    case Saved(g) => w.building == Some(g) && g in w.databases && g in w.dirs
    case Published(g) => w.active == Some(g)
    case RollingBack(to) => to in w.databases && to in w.dirs
    case Collecting(todo) => todo !! Pointed(w)
    case Scanning(todo, g, unread) =>
      && todo !! Pointed(w) && g !in Pointed(w)
      && forall r <- w.readers :: Relies(w.readers[r]) && w.readers[r].g == g ==> w.readers[r].id in unread
    case Removing(todo, g) =>
      && todo !! Pointed(w) && g !in Pointed(w)
      && forall r <- w.readers :: Relies(w.readers[r]) ==> w.readers[r].g != g
    case _ => true
  }

  ghost predicate Inv(w: World) {
    PointersGood(w) && LeasesGood(w) && BoundsGood(w) && FreshLeaseKept(w) && ReliedOnKept(w) && WriterGood(w)
  }

  lemma ReaderKeepsPointersGood(w: World, r: ReaderId, a: ReaderAction)
    requires Inv(w) && ReaderEnabled(w, r, a)
    ensures PointersGood(ReaderNext(w, r, a))
  {
  }

  lemma ReaderKeepsLeasesGood(w: World, r: ReaderId, a: ReaderAction)
    requires Inv(w) && ReaderEnabled(w, r, a)
    ensures LeasesGood(ReaderNext(w, r, a))
  {
  }

  lemma ReaderKeepsBoundsGood(w: World, r: ReaderId, a: ReaderAction)
    requires Inv(w) && ReaderEnabled(w, r, a)
    ensures BoundsGood(ReaderNext(w, r, a))
  {
  }

  /** Reader steps do not move a pointer or the writer. */
  lemma ReaderKeepsProtected(w: World, r: ReaderId, a: ReaderAction)
    requires ReaderEnabled(w, r, a)
    ensures Protected(ReaderNext(w, r, a)) == Protected(w)
  {
  }

  lemma ReaderKeepsFreshLeaseKept(w: World, r: ReaderId, a: ReaderAction)
    requires Inv(w) && ReaderEnabled(w, r, a)
    ensures FreshLeaseKept(ReaderNext(w, r, a))
  {
    var w' := ReaderNext(w, r, a);
    ReaderKeepsProtected(w, r, a);
    forall t | t in w'.readers && w'.readers[t].Leased? && w'.readers[t].g in Protected(w')
      ensures w'.readers[t].id in w'.leases && w'.leases[w'.readers[t].id] == w'.readers[t].g
    {
      if t != r {
        assert t in w.readers && w.readers[t] == w'.readers[t];
      }
    }
  }

  lemma ReaderKeepsReliedOnKept(w: World, r: ReaderId, a: ReaderAction)
    requires Inv(w) && ReaderEnabled(w, r, a)
    ensures ReliedOnKept(ReaderNext(w, r, a))
  {
  }

  lemma ReaderKeepsWriterGood(w: World, r: ReaderId, a: ReaderAction)
    requires Inv(w) && ReaderEnabled(w, r, a)
    ensures WriterGood(ReaderNext(w, r, a))
  {
  }

  lemma ReaderKeepsInv(w: World, r: ReaderId, a: ReaderAction)
    requires Inv(w) && ReaderEnabled(w, r, a)
    ensures Inv(ReaderNext(w, r, a))
  {
    ReaderKeepsPointersGood(w, r, a);
    ReaderKeepsLeasesGood(w, r, a);
    ReaderKeepsBoundsGood(w, r, a);
    ReaderKeepsFreshLeaseKept(w, r, a);
    ReaderKeepsReliedOnKept(w, r, a);
    ReaderKeepsWriterGood(w, r, a);
  }

  lemma WriterKeepsPointersGood(w: World, a: WriterAction)
    requires Inv(w) && WriterEnabled(w, a)
    ensures PointersGood(WriterNext(w, a))
  {
  }

  lemma WriterKeepsLeasesGood(w: World, a: WriterAction)
    requires Inv(w) && WriterEnabled(w, a)
    ensures LeasesGood(WriterNext(w, a))
  {
  }

  lemma WriterKeepsBoundsGood(w: World, a: WriterAction)
    requires Inv(w) && WriterEnabled(w, a)
    ensures BoundsGood(WriterNext(w, a))
  {
  }

  /** A lease file is taken away only from a dead process, or with a generation that lost its pointers. */
  lemma WriterTakesDeadLeases(w: World, a: WriterAction, id: LeaseId)
    requires Inv(w) && WriterEnabled(w, a) && id in w.leases
    ensures (id in WriterNext(w, a).leases && WriterNext(w, a).leases[id] == w.leases[id])
            || id in w.dead || w.leases[id] !in Protected(WriterNext(w, a))
  {
  }

  lemma WriterProtectsNoMore(w: World, a: WriterAction, g: Generation)
    requires Inv(w) && WriterEnabled(w, a) && g in Protected(WriterNext(w, a))
    ensures g in Protected(w) || g == w.nextGeneration
  {
  }

  lemma WriterKeepsReaders(w: World, a: WriterAction)
    requires WriterEnabled(w, a)
    ensures WriterNext(w, a).readers == w.readers && WriterNext(w, a).dead == w.dead
  {
  }

  lemma WriterKeepsFreshLeaseKept(w: World, a: WriterAction)
    requires Inv(w) && WriterEnabled(w, a)
    ensures FreshLeaseKept(WriterNext(w, a))
  {
    var w' := WriterNext(w, a);
    WriterKeepsReaders(w, a);
    forall r | r in w'.readers && w'.readers[r].Leased? && w'.readers[r].g in Protected(w')
      ensures w'.readers[r].id in w'.leases && w'.leases[w'.readers[r].id] == w'.readers[r].g
    {
      WriterProtectsNoMore(w, a, w.readers[r].g);
      WriterTakesDeadLeases(w, a, w.readers[r].id);
    }
  }

  lemma WriterKeepsReliedOnKept(w: World, a: WriterAction)
    requires Inv(w) && WriterEnabled(w, a)
    ensures ReliedOnKept(WriterNext(w, a))
  {
  }

  lemma WriterKeepsWriterGood(w: World, a: WriterAction)
    requires Inv(w) && WriterEnabled(w, a)
    ensures WriterGood(WriterNext(w, a))
  {
  }

  lemma WriterKeepsInv(w: World, a: WriterAction)
    requires Inv(w) && WriterEnabled(w, a)
    ensures Inv(WriterNext(w, a))
  {
    WriterKeepsPointersGood(w, a);
    WriterKeepsLeasesGood(w, a);
    WriterKeepsBoundsGood(w, a);
    WriterKeepsFreshLeaseKept(w, a);
    WriterKeepsReliedOnKept(w, a);
    WriterKeepsWriterGood(w, a);
  }

  // ---------------------------------------------------------------- runs

  ghost predicate Run(start: World, actions: seq<Action>, end: World) {
    if actions == [] then start == end
    else
      var n := |actions| - 1;
      exists mid :: Run(start, actions[..n], mid) && Enabled(mid, actions[n]) && end == Next(mid, actions[n])
  }

  lemma {:induction false} RunKeepsInv(actions: seq<Action>, end: World)
    requires Run(Start, actions, end)
    ensures Inv(end)
  {
    if actions != [] {
      var n := |actions| - 1;
      var mid :| Run(Start, actions[..n], mid) && Enabled(mid, actions[n]) && end == Next(mid, actions[n]);
      RunKeepsInv(actions[..n], mid);
      NextKeepsInv(mid, actions[n]);
    }
  }

  lemma NextKeepsInv(w: World, a: Action)
    requires Inv(w) && Enabled(w, a)
    ensures Inv(Next(w, a))
  {
    match a
    case Read(r, ra) => ReaderKeepsInv(w, r, ra);
    case Write(wa) => WriterKeepsInv(w, wa);
  }

  /** In every interleaving, a generation whose lease was returned and not yet released has its
      lease file and its database. */
  lemma LeasedGenerationIsNeverDeleted(actions: seq<Action>, end: World, r: ReaderId)
    requires Run(Start, actions, end) && ReaderAt(end, r).Held?
    ensures ReaderAt(end, r).g in end.databases && ReaderAt(end, r).g in end.dirs
    ensures ReaderAt(end, r).id in end.leases
  {
    RunKeepsInv(actions, end);
  }

  /** The serving pointer and the rollback pointer never name a missing database, whatever
      crashed in between; and once the pointer recheck passed, the database is there. */
  lemma PointersNeverDangle(actions: seq<Action>, end: World)
    requires Run(Start, actions, end)
    ensures end.active.Some? ==> end.active.value in end.databases
    ensures end.previous.Some? ==> end.previous.value in end.databases
    ensures forall r :: ReaderAt(end, r).Rechecked? ==> ReaderAt(end, r).g in end.databases
  {
    RunKeepsInv(actions, end);
  }

  // ---------------------------------------------------------------- damaged generations

  /** Marked as damaged, or without a pointer and never to get one again. */
  ghost predicate IsOut(w: World, g: Generation) {
    g < w.nextGeneration && (g in w.quarantined || g !in Protected(w))
  }

  /** A mark goes only with a generation that has lost every pointer for good. */
  lemma NextKeepsOut(w: World, a: Action, g: Generation)
    requires Inv(w) && Enabled(w, a) && IsOut(w, g)
    ensures IsOut(Next(w, a), g)
  {
    match a
    case Read(r, ra) => ReaderKeepsProtected(w, r, ra);
    case Write(wa) =>
      if g in Protected(Next(w, a)) {
        WriterProtectsNoMore(w, wa, g);
      }
  }

  /** The reader may have found `g` unmarked only because `g` was gone already. */
  ghost predicate Barred(w: World, r: ReaderId, g: Generation) {
    var s := ReaderAt(w, r);
    && IsOut(w, g)
    && (Relies(s) ==> s.g != g)
    && ((s.SawHealthy? || s.Leased?) && s.g == g ==> g !in Protected(w))
  }

  lemma NextKeepsBarred(w: World, a: Action, r: ReaderId, g: Generation)
    requires Inv(w) && Enabled(w, a) && Barred(w, r, g)
    ensures Barred(Next(w, a), r, g)
  {
    NextKeepsOut(w, a, g);
    match a
    case Read(t, ra) => ReaderKeepsProtected(w, t, ra);
    case Write(wa) =>
      WriterKeepsReaders(w, wa);
      if g in Protected(Next(w, a)) {
        WriterProtectsNoMore(w, wa, g);
      }
  }

  /** A reader that comes to a generation behind its mark is never handed it, whatever is
      published, rolled back, collected or crashes meanwhile. */
  lemma {:induction false} MarkedIsNeverLeased(before: seq<Action>, w: World, actions: seq<Action>, end: World,
      r: ReaderId, g: Generation)
    requires Run(Start, before, w) && Run(w, actions, end)
    requires g in w.quarantined
    requires ReaderAt(w, r).Idle? || ReaderAt(w, r).SawPointer?
    ensures Inv(end) && Barred(end, r, g)
    ensures Relies(ReaderAt(end, r)) ==> ReaderAt(end, r).g != g
    ensures g in Protected(end) && (ReaderAt(end, r).SawHealthy? || ReaderAt(end, r).Leased?)
            ==> ReaderAt(end, r).g != g
  {
    if actions == [] {
      RunKeepsInv(before, w);
      RunKeepsMarks(before, w);
    } else {
      var n := |actions| - 1;
      var mid :| Run(w, actions[..n], mid) && Enabled(mid, actions[n]) && end == Next(mid, actions[n]);
      MarkedIsNeverLeased(before, w, actions[..n], mid, r, g);
      NextKeepsBarred(mid, actions[n], r, g);
      NextKeepsInv(mid, actions[n]);
    }
  }

  /** Not serving, not about to, and out. */
  ghost predicate Retired(w: World, g: Generation) {
    && IsOut(w, g) && w.active != Some(g) && w.building != Some(g)
    && w.writer != RollingBack(g) && w.writer != Built(g) && w.writer != Saved(g)
  }

  lemma NextKeepsRetired(w: World, a: Action, g: Generation)
    requires Inv(w) && Enabled(w, a) && Retired(w, g)
    ensures Retired(Next(w, a), g)
  {
    NextKeepsOut(w, a, g);
  }

  /** A generation that was marked while it was not serving is never served again, not even by a
      rollback. */
  lemma {:induction false} MarkedIsNeverServed(before: seq<Action>, w: World, actions: seq<Action>, end: World,
      g: Generation)
    requires Run(Start, before, w) && Run(w, actions, end) && Retired(w, g)
    ensures Inv(end) && Retired(end, g) && end.active != Some(g)
  {
    if actions == [] {
      RunKeepsInv(before, w);
    } else {
      var n := |actions| - 1;
      var mid :| Run(w, actions[..n], mid) && Enabled(mid, actions[n]) && end == Next(mid, actions[n]);
      MarkedIsNeverServed(before, w, actions[..n], mid, g);
      NextKeepsRetired(mid, actions[n], g);
      NextKeepsInv(mid, actions[n]);
    }
  }

  /** Whoever finds a generation damaged marks it: a reader, a builder, or a writer that finds the
      serving one corrupt. */
  lemma DamageIsMarked(w: World, a: Action)
    requires Enabled(w, a)
    ensures a.Read? && a.a.MarkBad? ==> ReaderAt(w, a.r).g in Next(w, a).quarantined
    ensures a.Write? && a.w.FailBuild? ==> w.building.value in Next(w, a).quarantined
    ensures a.Write? && a.w.MarkActiveCorrupt? ==> w.active.value in Next(w, a).quarantined
  {
  }

  /** A lease is handed out, anew or again, only on a generation with its database, and again only
      while it serves and is unmarked. */
  lemma HandedOutIsThere(w: World, r: ReaderId, a: ReaderAction)
    requires ReaderEnabled(w, r, a) && (a.Reuse? || (!ReaderAt(w, r).Held? && ReaderAt(ReaderNext(w, r, a), r).Held?))
    ensures var s := ReaderAt(ReaderNext(w, r, a), r);
            && s.Held? && s.g in w.databases
            && (a.Reuse? ==> w.active == Some(s.g) && s.g !in w.quarantined && ReaderNext(w, r, a) == w)
  {
  }

  /** Marks are of generations that were handed out. */
  ghost predicate MarksGood(w: World) {
    forall g <- w.quarantined :: g < w.nextGeneration
  }

  lemma ReaderMarks(w: World, r: ReaderId, a: ReaderAction)
    requires ReaderEnabled(w, r, a)
    ensures w.quarantined <= ReaderNext(w, r, a).quarantined
    ensures forall g | g in ReaderNext(w, r, a).quarantined && g !in w.quarantined ::
              r in w.readers && w.readers[r].Held? && w.readers[r].g == g
    ensures ReaderNext(w, r, a).nextGeneration == w.nextGeneration
  {
  }

  lemma WriterMarks(w: World, a: WriterAction)
    requires WriterEnabled(w, a)
    ensures forall g | g in WriterNext(w, a).quarantined && g !in w.quarantined ::
              w.active == Some(g) || w.building == Some(g)
    ensures WriterNext(w, a).nextGeneration >= w.nextGeneration
  {
  }

  lemma NextKeepsMarks(w: World, a: Action)
    requires Inv(w) && MarksGood(w) && Enabled(w, a)
    ensures MarksGood(Next(w, a))
  {
    match a
    case Read(r, ra) => ReaderMarks(w, r, ra);
    case Write(wa) => WriterMarks(w, wa);
  }

  lemma {:induction false} RunKeepsMarks(actions: seq<Action>, end: World)
    requires Run(Start, actions, end)
    ensures MarksGood(end)
  {
    if actions != [] {
      var n := |actions| - 1;
      var mid :| Run(Start, actions[..n], mid) && Enabled(mid, actions[n]) && end == Next(mid, actions[n]);
      RunKeepsMarks(actions[..n], mid);
      RunKeepsInv(actions[..n], mid);
      NextKeepsMarks(mid, actions[n]);
    }
  }

  lemma OnlyRemovalUnmarks(w: World, a: Action, g: Generation)
    requires Enabled(w, a) && g in w.quarantined && g !in Next(w, a).quarantined
    ensures w.writer.Removing? && w.writer.g == g
  {
  }

  /** A mark stays as long as a pointer names the generation or a reader relies on it. */
  lemma MarksStay(w: World, a: Action, g: Generation)
    requires Inv(w) && Enabled(w, a) && g in w.quarantined
    requires g in Pointed(w) || exists r <- w.readers :: Relies(w.readers[r]) && w.readers[r].g == g
    ensures g in Next(w, a).quarantined
  {
    assert WriterGood(w);
    if g !in Next(w, a).quarantined {
      OnlyRemovalUnmarks(w, a, g);
    }
  }

  // ---------------------------------------------------------------- what a writer does to the pointers

  /** Only readers step. */
  ghost predicate ReadersOnly(actions: seq<Action>) {
    forall a <- actions :: a.Read?
  }

  lemma {:induction false} ReadersLeavePointers(w: World, actions: seq<Action>, end: World)
    requires Run(w, actions, end) && ReadersOnly(actions)
    ensures end.active == w.active && end.previous == w.previous && end.building == w.building
    ensures end.writer == w.writer && end.databases == w.databases
  {
    if actions != [] {
      var n := |actions| - 1;
      var mid :| Run(w, actions[..n], mid) && Enabled(mid, actions[n]) && end == Next(mid, actions[n]);
      ReadersLeavePointers(w, actions[..n], mid);
      assert actions[n].Read?;
    }
  }

  /** A rollback swaps the serving and the rollback pointer, whatever readers do meanwhile, and
      only to a generation that is there and unmarked. */
  lemma RollbackSwaps(w: World, expected: Generation, actions: seq<Action>, mid: World)
    requires WriterEnabled(w, SaveForRollback(expected))
    requires Run(WriterNext(w, SaveForRollback(expected)), actions, mid) && ReadersOnly(actions)
    ensures WriterEnabled(mid, FinishRollback)
    ensures var end := WriterNext(mid, FinishRollback);
            && w.active == Some(expected) && end.previous == w.active
            && end.active == w.previous && end.active.Some?
            && end.active.value in w.databases && end.active.value !in w.quarantined
            && end.writer == Locked
  {
    ReadersLeavePointers(WriterNext(w, SaveForRollback(expected)), actions, mid);
  }

  /** A publication serves the candidate and keeps the old generation for a rollback, if it was
      judged healthy, whatever readers do between the two writes. */
  lemma PublishServes(w: World, healthy: bool, actions: seq<Action>, mid: World)
    requires WriterEnabled(w, SavePrevious(healthy))
    requires Run(WriterNext(w, SavePrevious(healthy)), actions, mid) && ReadersOnly(actions)
    ensures WriterEnabled(mid, Publish)
    ensures var end := WriterNext(mid, Publish);
            && end.active == Some(w.writer.g)
            && end.previous == (if healthy && w.active.Some? then w.active else w.previous)
            && end.building == w.building
            && WriterNext(end, ClearBuilding) == end.(writer := Locked, building := None)
  {
    ReadersLeavePointers(WriterNext(w, SavePrevious(healthy)), actions, mid);
  }

  // ---------------------------------------------------------------- leases and collections

  /** Databases, marks and lease files lie in the directories that are there. */
  ghost predicate FilesInPlace(w: World) {
    && w.databases <= w.dirs && w.quarantined <= w.dirs
    && forall id <- w.leases :: w.leases[id] in w.dirs
  }

  lemma ReaderKeepsFiles(w: World, r: ReaderId, a: ReaderAction)
    requires ReliedOnKept(w) && ReaderEnabled(w, r, a) && FilesInPlace(w)
    ensures FilesInPlace(ReaderNext(w, r, a))
  {
  }

  lemma WriterKeepsFiles(w: World, a: WriterAction)
    requires PointersGood(w) && WriterEnabled(w, a) && FilesInPlace(w)
    ensures FilesInPlace(WriterNext(w, a))
  {
  }

  lemma {:induction false} FilesHaveDirectories(actions: seq<Action>, end: World)
    requires Run(Start, actions, end)
    ensures FilesInPlace(end)
  {
    if actions != [] {
      var n := |actions| - 1;
      var mid :| Run(Start, actions[..n], mid) && Enabled(mid, actions[n]) && end == Next(mid, actions[n]);
      FilesHaveDirectories(actions[..n], mid);
      RunKeepsInv(actions[..n], mid);
      match actions[n]
      case Read(r, ra) => ReaderKeepsFiles(mid, r, ra);
      case Write(wa) => WriterKeepsFiles(mid, wa);
    }
  }

  ghost predicate IsOwned(w: World, id: LeaseId) {
    exists r <- w.readers :: HasLease(w.readers[r]) && w.readers[r].id == id
  }

  /** Every lease file belongs to a reader that holds it, or to one that died. */
  ghost predicate NoneLeaks(w: World) {
    forall id <- w.leases :: id in w.dead || IsOwned(w, id)
  }

  lemma ReaderKeepsOthers(w: World, r: ReaderId, a: ReaderAction, id: LeaseId)
    requires ReaderEnabled(w, r, a) && IsOwned(w, id)
    requires HasLease(ReaderAt(w, r)) ==> ReaderAt(w, r).id != id
    ensures IsOwned(ReaderNext(w, r, a), id)
  {
    var t :| t in w.readers && HasLease(w.readers[t]) && w.readers[t].id == id;
    assert t != r && ReaderNext(w, r, a).readers[t] == w.readers[t];
  }

  lemma ReaderLeaksNone(w: World, r: ReaderId, a: ReaderAction)
    requires ReaderEnabled(w, r, a) && NoneLeaks(w)
    ensures NoneLeaks(ReaderNext(w, r, a))
  {
    var s, w' := ReaderAt(w, r), ReaderNext(w, r, a);
    forall id | id in w'.leases && id !in w'.dead ensures IsOwned(w', id) {
      if HasLease(ReaderAt(w', r)) && ReaderAt(w', r).id == id {
        assert r in w'.readers && HasLease(w'.readers[r]);
      } else {
        assert id in w.leases;
        ReaderKeepsOthers(w, r, a, id);
      }
    }
  }

  lemma WriterLeaksNone(w: World, a: WriterAction)
    requires WriterEnabled(w, a) && NoneLeaks(w)
    ensures NoneLeaks(WriterNext(w, a))
  {
    var w' := WriterNext(w, a);
    assert w'.readers == w.readers && w'.dead == w.dead;
    forall id | id in w'.leases && id !in w'.dead ensures IsOwned(w', id) {
      assert id in w.leases && IsOwned(w, id);
    }
  }

  /** A lease outlives the need for it only when the process of its reader has ended. */
  lemma {:induction false} NoLeaseLeaks(actions: seq<Action>, end: World)
    requires Run(Start, actions, end)
    ensures NoneLeaks(end)
  {
    if actions != [] {
      var n := |actions| - 1;
      var mid :| Run(Start, actions[..n], mid) && Enabled(mid, actions[n]) && end == Next(mid, actions[n]);
      NoLeaseLeaks(actions[..n], mid);
      match actions[n]
      case Read(r, ra) => ReaderLeaksNone(mid, r, ra);
      case Write(wa) => WriterLeaksNone(mid, wa);
    }
  }

  /** A collector takes a lease away when its process has ended, and otherwise keeps the generation. */
  lemma ScanJudgesLease(w: World, id: LeaseId)
    requires WriterEnabled(w, ReadLease(id)) && id in w.leases
    ensures var w' := WriterNext(w, ReadLease(id));
            && (id in w.dead ==> id !in w'.leases && w'.writer == w.writer.(unread := w.writer.unread - {id}))
            && (id !in w.dead ==> w'.leases == w.leases && w'.writer == Collecting(w.writer.todo))
  {
  }

  ghost predicate Spares(w: World, g: Generation) {
    && g in w.databases
    && (w.writer.Collecting? || w.writer.Scanning? || w.writer.Removing? ==> g !in w.writer.todo)
    && (w.writer.Scanning? || w.writer.Removing? ==> w.writer.g != g)
  }

  lemma NextSpares(w: World, a: Action, g: Generation)
    requires Enabled(w, a) && Spares(w, g) && !(a.Write? && a.w.StartCollect?)
    ensures Spares(Next(w, a), g)
  {
  }

  /** A damaged generation that a collection is told to keep stays through all of it. */
  lemma {:induction false} KeptIsSpared(w: World, damaged: set<Generation>, g: Generation, actions: seq<Action>,
      end: World)
    requires WriterEnabled(w, StartCollect(damaged)) && g in damaged && g in w.databases
    requires Run(WriterNext(w, StartCollect(damaged)), actions, end)
    requires forall a <- actions :: !(a.Write? && a.w.StartCollect?)
    ensures Spares(end, g)
  {
    if actions != [] {
      var n, start := |actions| - 1, WriterNext(w, StartCollect(damaged));
      var mid :| Run(start, actions[..n], mid) && Enabled(mid, actions[n]) && end == Next(mid, actions[n]);
      KeptIsSpared(w, damaged, g, actions[..n], mid);
      NextSpares(mid, actions[n], g);
    }
  }

  lemma FourSteps(w: World, a: Action, w1: World, b: Action, w2: World, c: Action, w3: World, d: Action, w4: World)
    requires Enabled(w, a) && w1 == Next(w, a) && Enabled(w1, b) && w2 == Next(w1, b)
    requires Enabled(w2, c) && w3 == Next(w2, c) && Enabled(w3, d) && w4 == Next(w3, d)
    ensures Run(w, [a, b, c, d], w4)
  {
    TwoSteps(w, a, w1, b, w2);
    StepRuns(w, [a, b], w2, c);
    assert [a, b] + [c] == [a, b, c];
    StepRuns(w, [a, b, c], w3, d);
    assert [a, b, c] + [d] == [a, b, c, d];
  }

  lemma TwoSteps(w: World, a: Action, w1: World, b: Action, w2: World)
    requires Enabled(w, a) && w1 == Next(w, a) && Enabled(w1, b) && w2 == Next(w1, b)
    ensures Run(w, [a, b], w2)
  {
    StepRuns(w, [], w, a);
    assert [] + [a] == [a];
    StepRuns(w, [a], w1, b);
    assert [a] + [b] == [a, b];
  }

  /** A reader that releases its lease or dies no longer keeps its generation: the lease file is
      gone, or a collector finds that its process has ended. Other leases stay. */
  lemma LeaseEnds(w: World, r: ReaderId, a: ReaderAction)
    requires HasLease(ReaderAt(w, r)) && ReaderEnabled(w, r, a) && (a.Release? || a.Die?)
    ensures var w', id := ReaderNext(w, r, a), ReaderAt(w, r).id;
            && ReaderAt(w', r) == Idle
            && (id !in w'.leases || id in w'.dead)
            && (forall i <- w.leases :: i != id ==> i in w'.leases && w'.leases[i] == w.leases[i])
            && (forall i <- w'.dead :: i in w.dead || i == id)
  {
  }

  /** A collection may take away every generation without a pointer, unless it is told to keep it. */
  lemma UnpointedIsTarget(w: World, damaged: set<Generation>, g: Generation)
    requires WriterEnabled(w, StartCollect(damaged)) && g in w.dirs
    ensures var w' := WriterNext(w, StartCollect(damaged));
            WriterEnabled(w', Pick(g))
            <==> w.active != Some(g) && w.previous != Some(g) && w.building != Some(g) && g !in damaged
  {
  }

  /** A collector can take away a generation of its list that nobody leases, with all its files. */
  lemma UnleasedCanGo(w: World, g: Generation) returns (end: World)
    requires w.writer.Collecting? && g in w.writer.todo && forall id <- w.leases :: w.leases[id] != g
    ensures Run(w, [Write(Pick(g)), Write(FinishScan), Write(RemoveDatabase), Write(RemoveDirectory)], end)
    ensures end.databases == w.databases - {g} && end.dirs == w.dirs - {g} && g !in end.quarantined
    ensures end.leases == w.leases && Pointed(end) == Pointed(w) && end.writer == Collecting(w.writer.todo - {g})
  {
    var w1 := WriterNext(w, Pick(g));
    assert w1.writer.unread == {};
    var w2 := WriterNext(w1, FinishScan);
    var w3 := WriterNext(w2, RemoveDatabase);
    end := WriterNext(w3, RemoveDirectory);
    assert end.leases == w.leases;
    FourSteps(w, Write(Pick(g)), w1, Write(FinishScan), w2, Write(RemoveDatabase), w3, Write(RemoveDirectory), end);
  }

  lemma StepRuns(start: World, actions: seq<Action>, w: World, a: Action)
    requires Run(start, actions, w) && Enabled(w, a)
    ensures Run(start, actions + [a], Next(w, a))
  {
    assert (actions + [a])[..|actions|] == actions;
  }

  ghost predicate Reachable(w: World) {
    exists actions :: Run(Start, actions, w)
  }

  lemma StartIsReachable()
    ensures Reachable(Start)
  {
    assert Run(Start, [], Start);
  }

  lemma NextIsReachable(w: World, a: Action)
    requires Reachable(w) && Enabled(w, a)
    ensures Reachable(Next(w, a))
  {
    var actions :| Run(Start, actions, w);
    StepRuns(Start, actions, w, a);
  }

  // ---------------------------------------------------------------- the index directory, in place

  /** The pointer, lease and quarantine files of one index and the processes around them; each
      method performs one step on them. */
  class IndexDirectory {
    var active: Option<Generation>
    var previous: Option<Generation>
    var building: Option<Generation>
    var dirs: set<Generation>
    var databases: set<Generation>
    var quarantined: set<Generation>
    var leases: map<LeaseId, Generation>
    var dead: set<LeaseId>
    var readers: map<ReaderId, Reader>
    var writer: Writer
    var nextLease: LeaseId
    var nextGeneration: Generation

    function Now(): World
      reads this
    {
      World(active, previous, building, dirs, databases, quarantined, leases, dead, readers, writer, nextLease,
        nextGeneration)
    }

    /** The state was reached by the steps of the protocol. */
    ghost predicate Valid()
      reads this
    {
      Reachable(Now())
    }

    constructor ()
      ensures Valid() && Now() == Start
    {
      active, previous, building := None, None, None;
      dirs, databases, quarantined, leases, dead, readers := {}, {}, {}, map[], {}, map[];
      writer, nextLease, nextGeneration := Unlocked, 0, 0;
      new;
      StartIsReachable();
    }

    /** Whoever holds a lease on a valid directory has its database. */
    lemma HeldIsServed(r: ReaderId)
      requires Valid() && ReaderAt(Now(), r).Held?
      ensures ReaderAt(Now(), r).g in databases && ReaderAt(Now(), r).g in dirs && ReaderAt(Now(), r).id in leases
    {
      var actions :| Run(Start, actions, Now());
      LeasedGenerationIsNeverDeleted(actions, Now(), r);
    }

    /** Go back to idle and take the lease file away. */
    method DropLease(r: ReaderId, id: LeaseId)
      modifies this`readers, this`leases
      ensures readers == old(readers)[r := Idle] && leases == old(leases) - {id}
    {
      readers := readers[r := Idle];
      leases := leases - {id};
    }

    method ReaderStep(r: ReaderId, a: ReaderAction)
      requires Valid() && ReaderEnabled(Now(), r, a)
      modifies this
      ensures Valid() && Now() == ReaderNext(old(Now()), r, a)
    {
      NextIsReachable(Now(), Read(r, a));
      var s := ReaderAt(Now(), r);
      match a {
        case ReadPointer => readers := readers[r := SawPointer(active.value)];
        case CheckQuarantine => readers := readers[r := if s.g in quarantined then Idle else SawHealthy(s.g)];
        case WriteLease =>
          dirs := dirs + {s.g};
          leases := leases[nextLease := s.g];
          readers := readers[r := Leased(s.g, nextLease)];
          nextLease := nextLease + 1;
        case Recheck =>
          if active == Some(s.g) {
            readers := readers[r := Rechecked(s.g, s.id)];
          } else {
            DropLease(r, s.id);
          }
        case ConfirmDatabase =>
          if s.g in databases {
            readers := readers[r := Held(s.g, s.id)];
          } else {
            DropLease(r, s.id);
          }
        case Reuse =>
        case Release => DropLease(r, s.id);
        case MarkBad => quarantined := quarantined + {s.g};
        case Die =>
          if s.Leased? || s.Rechecked? || s.Held? {
            dead := dead + {s.id};
          }
          readers := readers[r := Idle];
      }
    }

    method WriterStep(a: WriterAction)
      requires Valid() && WriterEnabled(Now(), a)
      modifies this
      ensures Valid() && Now() == WriterNext(old(Now()), a)
    {
      NextIsReachable(Now(), Write(a));
      var s := writer;
      match a {
        case Lock => writer := Locked;
        case Unlock => writer := Unlocked;
        case MarkActiveCorrupt => quarantined := quarantined + {active.value};
        case StartBuild =>
          building := Some(nextGeneration);
          nextGeneration := nextGeneration + 1;
        case FinishBuild =>
          dirs, databases := dirs + {building.value}, databases + {building.value};
          writer := Built(building.value);
        case FailBuild =>
          dirs, quarantined := dirs + {building.value}, quarantined + {building.value};
          writer := Failing;
        case DropBuilding => building, writer := None, Locked;
        case SavePrevious(healthy) =>
          if active.Some? && healthy {
            previous := active;
          }
          writer := Saved(s.g);
        case Publish => active, writer := Some(s.g), Published(s.g);
        case ClearBuilding => building, writer := None, Locked;
        case SaveForRollback(_) => writer, previous := RollingBack(previous.value), active;
        case FinishRollback => active, writer := Some(s.to), Locked;
        case StartCollect(damaged) => writer := Collecting(dirs - Pointed(Now()) - damaged);
        case Pick(g) => writer := Scanning(s.todo - {g}, g, set id | id in leases && leases[id] == g);
        case ReadLease(id) =>
          if id !in leases || id !in dead {
            writer := Collecting(s.todo);
          } else {
            leases := leases - {id};
            writer := Scanning(s.todo, s.g, s.unread - {id});
          }
        case FinishScan => writer := Removing(s.todo, s.g);
        case RemoveLeaseFile(id) => leases := leases - {id};
        case RemoveDatabase => databases := databases - {s.g};
        case RemoveMark => quarantined := quarantined - {s.g};
        case RemoveDirectory =>
          dirs, quarantined := dirs - {s.g}, quarantined - {s.g};
          leases := map id | id in leases && leases[id] != s.g :: leases[id];
          writer := Collecting(s.todo);
        case FinishCollect => writer := Locked;
      }
    }
  }
}
