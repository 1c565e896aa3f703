/**
  The production of cache entries as a state machine. Any number of callers look an entry up,
  join or start the flight for it, download or synthesise it, commit it and open it, while a
  sweeper unlinks old files, transfers fail half-way, and the process restarts.

  Steps are as fine as the system calls that matter: a lookup up to its open and stat, its touch by
  name with a time read in between; the rename of a commit, with the size that an earlier stat saw;
  the sweeper's look at a file and its unlinking by name. Staging names and inode numbers are
  never reused.
*/
module Protocol {
  import opened Prelude
  import opened CabFormat
  import opened Symstore
  import opened CacheKeys
  import opened Disk

  /** What never changes: the compressor and how long an entry may stay unused. */
  datatype Env = Env(codec: Codec, maxUnused: nat)

  /** Why a request fails: `ErrNotFound`, or anything else. */
  datatype Error = NotFound | Fault

  /**
    How a flight ends: with an error, or with the entry it committed, the length of the eviction log
    then, the time of the file, and whether no earlier lookup was still about to touch the entry and
    no sweeper that had read an earlier time was about to unlink it.
  */
  datatype Outcome = Ok(entry: Name, since: nat, at: int, calm: bool) | Err(error: Error)

  /** What a caller gets: an open file, no file and no error, or an error. */
  datatype Result = File(ino: nat) | Missing | Failure(error: Error)

  datatype FKey = FKey(role: Role, key: Key)

  datatype Flight = Flight(id: FKey, executor: nat, result: Option<Outcome>)

  /** The first lookup of a request, or the one after a flight. */
  datatype Position = First | Again(fid: nat)

  /** What a closure writes into its staging file. */
  datatype Job = Download | Mirror | Synthesize

  function FlightRole(job: Job): Role {
    if job == Download then Objects else CabSynth
  }

  /** The role under which a job's file is committed. */
  function TargetRole(job: Job): Role {
    match job case Download => Objects case Mirror => RawCompressed case Synthesize => CabSynth
  }

  datatype PC =
    | Look(role: Role, pos: Position)                    // about to open an entry
    | Touching(role: Role, pos: Position, ino: nat, since: int)   // opened it then; about to touch its name
    | Enter(role: Role)                                  // missed; about to call Do
    | Await(role: Role, fid: nat)                        // blocked in Do behind another caller
    | Returning(role: Role, fid: nat, executed: bool)    // Do has returned
    | Resolving                                          // download: asking the resolver
    | ReadingMagic                                       // synthesize: reading the first four bytes
    | NewTemp(job: Job)
    | Writing(job: Job)
    | Committing(job: Job)
    | Cleaning(role: Role, error: Error)                 // deferred removal of the staging file
    | Finishing(role: Role, outcome: Outcome)            // the closure has returned
    | Done(result: Result)

  datatype Temp = Temp(n: nat, ino: nat)

  /**
    A goroutine serving one request. The flights it is executing, the object it holds open
    inside `synthesize` and its staging file are kept beside the program counter.
  */
  datatype Caller = Caller(req: Request, compressed: bool, pc: PC,
                           objFlight: Option<nat>, cabFlight: Option<nat>, obj: Option<nat>, tmp: Option<Temp>)

  /** A file that the sweeper has found too old, and is about to unlink by name. */
  datatype Doomed = Doomed(name: Name, mtime: int, size: nat)

  /** A sweep in progress; `todo` holds the names it still has to visit before it is complete. */
  datatype Sweep = Sweep(start: int, cutoff: int, todo: set<Name>, doomed: Option<Doomed>,
                         removedBytes: nat, removedEntries: nat)

  /** An unlinked file, with the time the sweeper had read under its name. */
  datatype Eviction = Eviction(name: Name, ino: nat, mtime: int, cutoff: int)

  /** A complete transfer of `payload` for some request with this cache key. */
  datatype Transfer = Transfer(key: Key, payload: Bytes)

  datatype State = State(
    now: int,
    disk: Disk,
    callers: map<nat, Caller>,
    active: map<FKey, nat>,             // singleflight's table
    flights: map<nat, Flight>,          // every flight since the process started
    sizeGauge: int,
    entryGauge: int,
    coalesced: nat,
    sweep: Option<Sweep>,
    // history
    fetched: set<Transfer>,
    evictions: seq<Eviction>,
    lostBytes: int,                     // gauge adjustments that never happened
    lostEntries: int,
    orphans: set<nat>,                  // staging files left by a crash
    usedTemps: set<nat>,
    okReturns: set<(nat, nat)>)         // (caller, flight) whose produceOnce returned nil

  /** What a caller may do next. */
  datatype Move =
    | LookFail
    | LookMiss
    | LookHit
    | TouchEntry(done: bool, stamp: int)   // with a time read after the lookup
    | EnterFlight(fid: nat)
    | Wake
    | Return
    | Resolve(refused: Option<Error>)
    | ReadMagic(failed: bool)
    | CreateTemp(n: nat, ino: nat)
    | CreateFail
    | WriteSome(bytes: Bytes)
    | WriteAll(payload: Bytes)
    | WriteFail(error: Error)
    | CommitOk(seen: Option<nat>)   // the size of the final path when it was looked at, if it was there
    | CommitFail
    | Cleanup
    | Publish

  datatype Action =
    | Tick(d: nat)
    | Arrive(c: nat, req: Request, compressed: bool)
    | Leave(c: nat)
    | Act(c: nat, m: Move)
    | SweepBegin
    | SweepVisit(name: Name)
    | SweepUnlink
    | SweepEnd
    | SweepFail
    | Restart(seeded: bool)

  // ---- reading the state ----

  function KeyOf(x: Caller): Key {
    CacheKey(x.req)
  }

  /** Where an error at the level of `role` takes a caller: out of `synthesize`, or out of the service. */
  function AfterError(x: Caller, role: Role, e: Error): PC {
    if role == Objects && x.compressed then Finishing(CabSynth, Err(e)) else Done(Failure(e))
  }

  /** Where a missed lookup takes a caller. A nil object makes `synthesize` fail at its first read. */
  function AfterMiss(x: Caller, role: Role, pos: Position): PC {
    match role
    case Objects => if pos == First then Enter(Objects) else if x.compressed then Finishing(CabSynth, Err(Fault)) else Done(Missing)
    case RawCompressed => Look(CabSynth, pos)
    case CabSynth => if pos == First then Enter(CabSynth) else Done(Missing)
  }

  /** The executed flight of a level. */
  function Executing(x: Caller, role: Role): Option<nat> {
    if role == Objects then x.objFlight else x.cabFlight
  }

  function SetExecuting(x: Caller, role: Role, f: Option<nat>): Caller {
    if role == Objects then x.(objFlight := f) else x.(cabFlight := f)
  }

  /** What a closure's complete file holds. */
  predicate CompletePayload(env: Env, s: State, x: Caller, job: Job, payload: Bytes) {
    match job
    case Download => true
    case Mirror => x.obj.Some? && payload == BytesAt(s.disk, x.obj.value)
    case Synthesize =>
      x.obj.Some? && ValidName(x.req.filename) && |BytesAt(s.disk, x.obj.value)| <= MAX_FOLDER
      && payload == Cabinet(env.codec, x.req.filename, BytesAt(s.disk, x.obj.value))
  }

  // ---- the moves of a caller ----

  /** The entry a caller is looking up or touching. */
  function Looking(x: Caller): Name
    requires x.pc.Look? || x.pc.Touching?
  {
    Entry(x.pc.role, KeyOf(x))
  }

  function FlightId(x: Caller): FKey
    requires x.pc.Enter? || x.pc.Finishing?
  {
    FKey(x.pc.role, KeyOf(x))
  }

  /** The result of the flight a caller waits for or returns from. */
  function ResultOf(x: Caller, flights: map<nat, Flight>): Option<Outcome>
    requires x.pc.Await? || x.pc.Returning?
  {
    if x.pc.fid in flights then flights[x.pc.fid].result else None
  }

  function Target(x: Caller): Name
    requires x.pc.Committing?
  {
    Entry(TargetRole(x.pc.job), KeyOf(x))
  }

  /** No lookup of the entry from before `t0` is still about to touch it. */
  predicate Undisturbed(callers: map<nat, Caller>, name: Name, t0: int) {
    forall c :: c in callers && callers[c].pc.Touching? && Looking(callers[c]) == name ==> callers[c].pc.since >= t0
  }

  /** No sweeper is about to unlink the entry that has read a time before `t0`. */
  predicate Undoomed(sweep: Option<Sweep>, name: Name, t0: int) {
    sweep.Some? && sweep.value.doomed.Some? && sweep.value.doomed.value.name == name ==> sweep.value.doomed.value.mtime >= t0
  }

  predicate Calm(s: State, name: Name, t0: int) {
    Undisturbed(s.callers, name, t0) && Undoomed(s.sweep, name, t0)
  }

  predicate CanMove(env: Env, s: State, x: Caller, m: Move) {
    match m
    case LookFail => x.pc.Look?
    case LookMiss => x.pc.Look? && Looking(x) !in s.disk.names
    case LookHit => x.pc.Look? && Looking(x) in s.disk.names
    case TouchEntry(_, stamp) => x.pc.Touching? && x.pc.since <= stamp <= s.now
    case EnterFlight(fid) => x.pc.Enter? && fid !in s.flights
    case Wake => x.pc.Await? && ResultOf(x, s.flights).Some?
    case Return => x.pc.Returning? && ResultOf(x, s.flights).Some?
    case Resolve(_) => x.pc.Resolving?
    case ReadMagic(_) => x.pc.ReadingMagic? && x.obj.Some?
    case CreateTemp(n, ino) => x.pc.NewTemp? && n !in s.usedTemps && ino !in s.disk.inodes
    case CreateFail => x.pc.NewTemp?
    case WriteSome(_) => x.pc.Writing? && x.tmp.Some?
    case WriteAll(payload) => x.pc.Writing? && x.tmp.Some? && CompletePayload(env, s, x, x.pc.job, payload)
    case WriteFail(_) => x.pc.Writing?
    case CommitOk(_) => x.pc.Committing? && x.tmp.Some? && Staged(x.tmp.value.n) in s.disk.names
    case CommitFail => x.pc.Committing?
    case Cleanup => x.pc.Cleaning? && x.tmp.Some?
    case Publish => x.pc.Finishing? && Executing(x, x.pc.role).Some? && Executing(x, x.pc.role).value in s.flights
  }

  /** A caller that has opened its file: `synthesize` goes on with it, everybody else returns it. */
  function Opened(x: Caller, role: Role, ino: nat): Caller {
    if role == Objects && x.compressed then x.(obj := Some(ino), pc := ReadingMagic)
    else x.(pc := Done(File(ino)))
  }

  /** The caller after its move. */
  function Moved(env: Env, s: State, x: Caller, m: Move): Caller
    requires CanMove(env, s, x, m)
  {
    match m
    case LookFail => x.(pc := AfterError(x, x.pc.role, Fault))
    case LookMiss => x.(pc := AfterMiss(x, x.pc.role, x.pc.pos))
    case LookHit => x.(pc := Touching(x.pc.role, x.pc.pos, s.disk.names[Looking(x)], s.now))
    case TouchEntry(_, _) => Opened(x, x.pc.role, x.pc.ino)
    case EnterFlight(fid) =>
      if FlightId(x) in s.active then x.(pc := Await(x.pc.role, s.active[FlightId(x)]))
      else SetExecuting(x, x.pc.role, Some(fid)).(pc := if x.pc.role == Objects then Resolving else Look(Objects, First))
    case Wake => x.(pc := Returning(x.pc.role, x.pc.fid, false))
    case Return =>
      (match ResultOf(x, s.flights).value
       case Err(e) => x.(pc := AfterError(x, x.pc.role, e))
       case Ok(_, _, _, _) => x.(pc := Look(if x.pc.role == Objects then Objects else RawCompressed, Again(x.pc.fid))))
    case Resolve(refused) =>
      x.(pc := if refused.Some? then Finishing(Objects, Err(refused.value)) else NewTemp(Download))
    case ReadMagic(failed) =>
      x.(pc := if failed then Finishing(CabSynth, Err(Fault))
               else NewTemp(if IsCab(BytesAt(s.disk, x.obj.value)) then Mirror else Synthesize))
    case CreateTemp(n, ino) => x.(pc := Writing(x.pc.job), tmp := Some(Temp(n, ino)))
    case CreateFail => x.(pc := Finishing(FlightRole(x.pc.job), Err(Fault)))
    case WriteSome(_) => x
    case WriteAll(_) => x.(pc := Committing(x.pc.job))
    case WriteFail(error) => x.(pc := Cleaning(FlightRole(x.pc.job), error))
    case CommitOk(_) =>
      var at := MtimeAt(s.disk, x.tmp.value.ino);
      var outcome := Ok(Target(x), |s.evictions|, at, Calm(s, Target(x), at));
      x.(pc := Finishing(FlightRole(x.pc.job), outcome), tmp := None)
    case CommitFail => x.(pc := Cleaning(FlightRole(x.pc.job), Fault))
    case Cleanup => x.(pc := Finishing(x.pc.role, Err(x.pc.error)), tmp := None)
    case Publish =>
      SetExecuting(x, x.pc.role, None).(pc := Returning(x.pc.role, Executing(x, x.pc.role).value, true),
                                        obj := if x.pc.role == CabSynth then None else x.obj)
  }

  /** The shared state after the move; the caller's own record is not updated here. */
  function Effect(env: Env, s: State, c: nat, x: Caller, m: Move): State
    requires CanMove(env, s, x, m)
  {
    match m
    case TouchEntry(done, stamp) => if done then s.(disk := Touch(s.disk, Looking(x), stamp)) else s
    case EnterFlight(fid) =>
      if FlightId(x) in s.active then s
      else s.(active := s.active[FlightId(x) := fid], flights := s.flights[fid := Flight(FlightId(x), c, None)])
    case Return =>
      if ResultOf(x, s.flights).value.Err? then s
      else s.(coalesced := s.coalesced + (if x.pc.executed then 0 else 1), okReturns := s.okReturns + {(c, x.pc.fid)})
    case CreateTemp(n, ino) => s.(disk := Create(s.disk, n, ino, s.now), usedTemps := s.usedTemps + {n})
    case WriteSome(bytes) => s.(disk := WriteFile(s.disk, x.tmp.value.ino, bytes, s.now))
    case WriteAll(payload) =>
      s.(disk := WriteFile(s.disk, x.tmp.value.ino, payload, s.now),
         fetched := if x.pc.job == Download then s.fetched + {Transfer(KeyOf(x), payload)} else s.fetched)
    case CommitOk(seen) => Committed(s, x.tmp.value.n, Target(x), seen)
    case Cleanup => s.(disk := Remove(s.disk, Staged(x.tmp.value.n)))
    case Publish =>
      var f := Executing(x, x.pc.role).value;
      s.(flights := s.flights[f := s.flights[f].(result := Some(x.pc.outcome))], active := s.active - {FlightId(x)})
    case _ => s
  }

  /** The size of a file under its name. */
  function SizeOf(d: Disk, n: Name): Option<nat> {
    if n in d.names then Some(|BytesAt(d, d.names[n])|) else None
  }

  /** `Commit`: rename, and adjust the gauges by what was seen of the final path. */
  function Committed(s: State, n: nat, to: Name, seen: Option<nat>): State
    requires Staged(n) in s.disk.names && to.Entry?
  {
    var size := |BytesAt(s.disk, s.disk.names[Staged(n)])|;
    var loss := CommitLoss(s.disk, to, seen);
    s.(disk := Rename(s.disk, n, to),
       sizeGauge := s.sizeGauge + size - BytesOf(seen), entryGauge := s.entryGauge + 1 - EntriesOf(seen),
       lostBytes := s.lostBytes + loss.0, lostEntries := s.lostEntries + loss.1)
  }

  /** What a commit adjusts the gauges by too much, because the final path was not as it had been seen. */
  function CommitLoss(d: Disk, to: Name, seen: Option<nat>): (int, int) {
    (BytesOf(SizeOf(d, to)) - BytesOf(seen), EntriesOf(SizeOf(d, to)) - EntriesOf(seen))
  }

  function BytesOf(size: Option<nat>): int {
    if size.Some? then size.value else 0
  }

  function EntriesOf(size: Option<nat>): int {
    if size.Some? then 1 else 0
  }

  // ---- the sweeper, the clock and crashes ----

  /** The sweeper looks at one file. */
  function VisitNext(s: State, name: Name): State
    requires s.sweep.Some? && name in s.disk.names
  {
    var w := s.sweep.value;
    var mtime := MtimeAt(s.disk, s.disk.names[name]);
    var seen := w.(todo := w.todo - {name});
    s.(sweep := Some(if mtime >= w.cutoff then seen
                     else seen.(doomed := Some(Doomed(name, mtime, |BytesAt(s.disk, s.disk.names[name])|)))))
  }

  /** It unlinks by name what it has found too old, whatever lies there by now. */
  function UnlinkNext(s: State): State
    requires s.sweep.Some? && s.sweep.value.doomed.Some?
  {
    var d := s.sweep.value.doomed.value;
    var w := s.sweep.value.(doomed := None);
    if d.name !in s.disk.names then s.(sweep := Some(w))
    else
      s.(disk := Remove(s.disk, d.name),
         evictions := s.evictions + [Eviction(d.name, s.disk.names[d.name], d.mtime, w.cutoff)],
         lostBytes := s.lostBytes + UnlinkLoss(s.disk, d),
         sweep := Some(if d.name.Entry? then w.(removedBytes := w.removedBytes + d.size, removedEntries := w.removedEntries + 1)
                       else w))
  }

  /** By how much the file that is unlinked is larger than the one that was seen; the gauges stay too high by that. */
  function UnlinkLoss(d: Disk, doomed: Doomed): int {
    if doomed.name in d.names && doomed.name.Entry? then |BytesAt(d, d.names[doomed.name])| - doomed.size else 0
  }

  /** The process dies and starts again; the gauges are seeded by a walk, or stay at zero if it fails. */
  ghost function RestartNext(s: State, seeded: bool): State {
    var bytes: int := TotalBytes(s.disk);
    var entries: int := TotalEntries(s.disk);
    s.(callers := map[], active := map[], flights := map[], coalesced := 0, sweep := None, okReturns := {},
       sizeGauge := if seeded then bytes else 0, entryGauge := if seeded then entries else 0,
       lostBytes := if seeded then 0 else -bytes, lostEntries := if seeded then 0 else -entries,
       orphans := set n | n in s.usedTemps && Staged(n) in s.disk.names)
  }

  // ---- steps and runs ----

  /** A request starts with its first lookup. */
  function NewCaller(req: Request, compressed: bool): Caller {
    Caller(req, compressed, Look(if compressed then RawCompressed else Objects, First), None, None, None, None)
  }

  ghost predicate Enabled(env: Env, s: State, a: Action) {
    match a
    case Tick(_) => true
    case Arrive(c, _, _) => c !in s.callers
    case Leave(c) => c in s.callers && s.callers[c].pc.Done?
    case Act(c, m) => c in s.callers && CanMove(env, s, s.callers[c], m)
    case SweepBegin => s.sweep.None?
    case SweepVisit(name) => s.sweep.Some? && s.sweep.value.doomed.None? && name in s.disk.names
    case SweepUnlink => s.sweep.Some? && s.sweep.value.doomed.Some?
    case SweepEnd => s.sweep.Some? && s.sweep.value.doomed.None? && s.sweep.value.todo !! s.disk.names.Keys
    case SweepFail => s.sweep.Some? && s.sweep.value.doomed.None?
    case Restart(_) => true
  }

  ghost function Next(env: Env, s: State, a: Action): State
    requires Enabled(env, s, a)
  {
    match a
    case Tick(d) => s.(now := s.now + d)
    case Arrive(c, req, compressed) => s.(callers := s.callers[c := NewCaller(req, compressed)])
    case Leave(c) => s.(callers := s.callers - {c})
    case Act(c, m) =>
      Effect(env, s, c, s.callers[c], m).(callers := s.callers[c := Moved(env, s, s.callers[c], m)])
    case SweepBegin => s.(sweep := Some(Sweep(s.now, s.now - env.maxUnused, s.disk.names.Keys, None, 0, 0)))
    case SweepVisit(name) => VisitNext(s, name)
    case SweepUnlink => UnlinkNext(s)
    case SweepEnd =>
      s.(sweep := None, sizeGauge := s.sizeGauge - s.sweep.value.removedBytes,
         entryGauge := s.entryGauge - s.sweep.value.removedEntries)
    case SweepFail =>
      s.(sweep := None, lostBytes := s.lostBytes + s.sweep.value.removedBytes,
         lostEntries := s.lostEntries + s.sweep.value.removedEntries)
    case Restart(seeded) => RestartNext(s, seeded)
  }

  ghost predicate Initial(s: State) {
    && s.disk == Disk(map[], map[]) && s.callers == map[] && s.active == map[] && s.flights == map[]
    && s.sizeGauge == 0 && s.entryGauge == 0 && s.coalesced == 0 && s.sweep.None?
    && s.fetched == {} && s.evictions == [] && s.lostBytes == 0 && s.lostEntries == 0
    && s.orphans == {} && s.usedTemps == {} && s.okReturns == {}
  }

  /** The actions `acts` can happen one after the other, from `s` to `t`. */
  ghost predicate Run(env: Env, s: State, acts: seq<Action>, t: State)
    decreases |acts|
  {
    if acts == [] then s == t
    else Enabled(env, s, acts[0]) && Run(env, Next(env, s, acts[0]), acts[1..], t)
  }

  ghost predicate Reachable(env: Env, s: State) {
    exists s0: State, acts: seq<Action> :: Initial(s0) && Run(env, s0, acts, s)
  }
}
