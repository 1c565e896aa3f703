/** What every reachable state of the protocol satisfies, in independent groups. */
module ProtocolInv {
  import opened Prelude
  import opened CabFormat
  import opened CacheKeys
  import opened Disk
  import opened Protocol

  // ---- where a caller is ----

  /** Inside the closure of an `objects` flight. */
  predicate ObjBody(pc: PC) {
    || pc.Resolving?
    || ((pc.NewTemp? || pc.Writing? || pc.Committing?) && pc.job == Download)
    || ((pc.Cleaning? || pc.Finishing?) && pc.role == Objects)
  }

  /** Inside `object`, in its closure or around it. */
  predicate ObjLevel(pc: PC) {
    || ObjBody(pc)
    || ((pc.Look? || pc.Touching? || pc.Enter? || pc.Await? || pc.Returning?) && pc.role == Objects)
  }

  /** Inside the closure of a `cab_synth` flight, outside `object`. */
  predicate CabBody(pc: PC) {
    || pc.ReadingMagic?
    || ((pc.NewTemp? || pc.Writing? || pc.Committing?) && pc.job != Download)
    || ((pc.Cleaning? || pc.Finishing?) && pc.role != Objects)
  }

  predicate NeedsObject(pc: PC) {
    pc.ReadingMagic? || ((pc.NewTemp? || pc.Writing? || pc.Committing?) && pc.job != Download)
  }

  /** The program counter determines which flights, files and handles a caller has. */
  predicate Shape(x: Caller) {
    && (x.objFlight.Some? <==> ObjBody(x.pc))
    && (x.cabFlight.Some? <==> x.compressed && (ObjLevel(x.pc) || CabBody(x.pc)))
    && (!x.compressed ==> ObjLevel(x.pc) || x.pc.Done?)
    && (x.tmp.Some? <==> x.pc.Writing? || x.pc.Committing? || x.pc.Cleaning?)
    && (NeedsObject(x.pc) ==> x.obj.Some?)
    && (x.obj.Some? ==> CabBody(x.pc))
    && ((x.pc.Enter? || x.pc.Await? || x.pc.Returning? || x.pc.Cleaning? || x.pc.Finishing?) ==> x.pc.role != RawCompressed)
  }

  ghost predicate Shapes(callers: map<nat, Caller>) {
    forall c :: c in callers ==> Shape(callers[c])
  }

  // ---- flights ----

  ghost predicate Executes(c: nat, x: Caller, role: Role, active: map<FKey, nat>, flights: map<nat, Flight>) {
    Executing(x, role).Some? ==>
      var f, id := Executing(x, role).value, FKey(role, KeyOf(x));
      f in flights && flights[f] == Flight(id, c, None) && id in active && active[id] == f
  }

  /** What a caller's program counter says about the flight it names. */
  ghost predicate Names(c: nat, x: Caller, active: map<FKey, nat>, flights: map<nat, Flight>) {
    match x.pc
    case Await(role, f) =>
      var id := FKey(role, KeyOf(x));
      && f in flights && flights[f].id == id && flights[f].executor != c
      && (flights[f].result.None? ==> id in active && active[id] == f)
    case Returning(role, f, executed) =>
      && f in flights && flights[f].id == FKey(role, KeyOf(x)) && flights[f].result.Some?
      && (executed <==> flights[f].executor == c)
    case Look(role, Again(f)) => Served(x, role, f, flights)
    case Touching(role, Again(f), _, _) => Served(x, role, f, flights)
    case _ => true
  }

  ghost predicate Served(x: Caller, role: Role, f: nat, flights: map<nat, Flight>) {
    && f in flights && flights[f].id == FKey(if role == Objects then Objects else CabSynth, KeyOf(x))
    && flights[f].result.Some? && flights[f].result.value.Ok?
  }

  ghost predicate ActiveFlight(k: FKey, f: nat, callers: map<nat, Caller>, flights: map<nat, Flight>) {
    && f in flights && flights[f].id == k && flights[f].result.None? && k.role != RawCompressed
    && flights[f].executor in callers
    && Executing(callers[flights[f].executor], k.role) == Some(f)
    && KeyOf(callers[flights[f].executor]) == k.key
  }

  ghost predicate Flights(callers: map<nat, Caller>, active: map<FKey, nat>, flights: map<nat, Flight>) {
    && (forall c :: c in callers ==>
          && Executes(c, callers[c], Objects, active, flights)
          && Executes(c, callers[c], CabSynth, active, flights)
          && Names(c, callers[c], active, flights))
    && (forall k :: k in active ==> ActiveFlight(k, active[k], callers, flights))
  }

  // ---- files and handles ----

  /** The inodes a caller holds open for reading. */
  predicate Holds(x: Caller, i: nat) {
    x.obj == Some(i) || (x.pc.Touching? && x.pc.ino == i) || x.pc == Done(File(i))
  }

  /** The inode a caller may write to. */
  predicate Writes(x: Caller, i: nat) {
    x.tmp.Some? && x.tmp.value.ino == i
  }

  /** Nobody can write to the inode any more. */
  ghost predicate Frozen(d: Disk, callers: map<nat, Caller>, i: nat) {
    i in d.inodes && forall c :: c in callers ==> !Writes(callers[c], i)
  }

  ghost predicate OwnsTemp(x: Caller, d: Disk, used: set<nat>) {
    x.tmp.Some? ==>
      var t := x.tmp.value;
      && t.ino in d.inodes && t.n in used
      && (Staged(t.n) in d.names ==> d.names[Staged(t.n)] == t.ino)
      && (forall m :: m in d.names && d.names[m] == t.ino ==> m == Staged(t.n))
  }

  ghost predicate Files(d: Disk, callers: map<nat, Caller>, used: set<nat>) {
    && WellFormed(d)
    && (forall n :: Staged(n) in d.names ==> n in used)
    && (forall c :: c in callers ==> OwnsTemp(callers[c], d, used))
    && (forall c, e :: c in callers && e in callers && c != e && callers[c].tmp.Some? && callers[e].tmp.Some? ==>
          callers[c].tmp.value.ino != callers[e].tmp.value.ino && callers[c].tmp.value.n != callers[e].tmp.value.n)
    && (forall c, i :: c in callers && Holds(callers[c], i) ==> Frozen(d, callers, i))
  }

  // ---- contents ----

  /** What a file of a role may hold for a key. */
  ghost predicate Good(env: Env, role: Role, key: Key, b: Bytes, fetched: set<Transfer>) {
    match role
    case Objects => Transfer(key, b) in fetched
    case RawCompressed => Transfer(key, b) in fetched && IsCab(b)
    case CabSynth => exists p: Bytes :: Wraps(env, key, b, p, fetched)
  }

  /** `b` is the cabinet made of the fetched payload `p`, which is not a cabinet itself. */
  ghost predicate Wraps(env: Env, key: Key, b: Bytes, p: Bytes, fetched: set<Transfer>) {
    && Transfer(key, p) in fetched && !IsCab(p) && |p| <= MAX_FOLDER
    && ValidName(FileOf(key.inner)) && b == Cabinet(env.codec, FileOf(key.inner), p)
  }

  ghost predicate Carries(env: Env, x: Caller, d: Disk, fetched: set<Transfer>) {
    && (x.obj.Some? ==> Transfer(KeyOf(x), BytesAt(d, x.obj.value)) in fetched)
    && (x.pc.Touching? ==> Good(env, x.pc.role, KeyOf(x), BytesAt(d, x.pc.ino), fetched))
    && (x.pc.Done? && x.pc.result.File? ==> Serves(env, x, BytesAt(d, x.pc.result.ino), fetched))
    && (NeedsObject(x.pc) && !x.pc.ReadingMagic? && x.obj.Some? ==>
          (x.pc.job == Mirror <==> IsCab(BytesAt(d, x.obj.value))))
    && (x.pc.Committing? && x.tmp.Some? ==>
          Good(env, TargetRole(x.pc.job), KeyOf(x), BytesAt(d, x.tmp.value.ino), fetched))
  }

  ghost predicate Serves(env: Env, x: Caller, b: Bytes, fetched: set<Transfer>) {
    if x.compressed
    then Good(env, RawCompressed, KeyOf(x), b, fetched) || Good(env, CabSynth, KeyOf(x), b, fetched)
    else Good(env, Objects, KeyOf(x), b, fetched)
  }

  ghost predicate Contents(env: Env, d: Disk, callers: map<nat, Caller>, fetched: set<Transfer>) {
    && (forall n :: n in d.names && n.Entry? ==> Good(env, n.role, n.key, BytesAt(d, d.names[n]), fetched))
    && (forall c :: c in callers ==> Carries(env, callers[c], d, fetched))
  }

  // ---- gauges ----

  function PendingBytes(sweep: Option<Sweep>): nat {
    if sweep.Some? then sweep.value.removedBytes else 0
  }

  function PendingEntries(sweep: Option<Sweep>): nat {
    if sweep.Some? then sweep.value.removedEntries else 0
  }

  /** The gauges exceed the truth by what the running sweep has not subtracted yet, and by what was lost. */
  ghost predicate Gauges(s: State) {
    && s.sizeGauge == TotalBytes(s.disk) + PendingBytes(s.sweep) + s.lostBytes
    && s.entryGauge == TotalEntries(s.disk) + PendingEntries(s.sweep) + s.lostEntries
  }

  // ---- evictions ----

  /** Since the log had length `since`, the sweeper has removed `n`. */
  ghost predicate EvictedSince(evictions: seq<Eviction>, since: nat, n: Name) {
    exists j :: since <= j < |evictions| && evictions[j].name == n
  }

  ghost predicate OutcomeHolds(o: Outcome, id: FKey, d: Disk, evictions: seq<Eviction>) {
    o.Ok? ==>
      && o.entry.Entry? && o.entry.key == id.key
      && (o.entry.role == Objects <==> id.role == Objects)
      && o.since <= |evictions|
      && (o.entry in d.names || EvictedSince(evictions, o.since, o.entry))
  }

  ghost predicate Outcomes(d: Disk, callers: map<nat, Caller>, flights: map<nat, Flight>, evictions: seq<Eviction>) {
    && (forall f :: f in flights && flights[f].result.Some? ==>
          OutcomeHolds(flights[f].result.value, flights[f].id, d, evictions))
    && (forall c :: c in callers && callers[c].pc.Finishing? ==>
          OutcomeHolds(callers[c].pc.outcome, FKey(callers[c].pc.role, KeyOf(callers[c])), d, evictions))
  }

  /** A caller that missed `raw_compressed` after a flight had committed it there missed an evicted file. */
  ghost predicate Missed(x: Caller, flights: map<nat, Flight>, evictions: seq<Eviction>) {
    x.pc.Look? && x.pc.role == CabSynth && x.pc.pos.Again? && Succeeded(x.pc.pos.fid, flights) ==>
      var o := flights[x.pc.pos.fid].result.value;
      o.entry.Entry? && o.entry.role == RawCompressed ==> EvictedSince(evictions, o.since, o.entry)
  }

  ghost predicate Misses(callers: map<nat, Caller>, flights: map<nat, Flight>, evictions: seq<Eviction>) {
    forall c :: c in callers ==> Missed(callers[c], flights, evictions)
  }

  // ---- how old an entry can be ----

  /** From the creation of its staging file to the rename, a caller is producing one name. */
  predicate Produces(x: Caller, n: Name) {
    (x.pc.NewTemp? || x.pc.Writing? || x.pc.Committing?) && n == Entry(TargetRole(x.pc.job), KeyOf(x))
  }

  /** The caller is about to rename a complete staging file to the entry. */
  predicate Commits(x: Caller, d: Disk, n: Name) {
    x.pc.Committing? && Target(x) == n && x.tmp.Some? && Staged(x.tmp.value.n) in d.names
  }

  /** No staging file from before `t0` is about to become the entry. */
  ghost predicate Unreplaced(d: Disk, callers: map<nat, Caller>, n: Name, t0: int) {
    forall c :: c in callers && Commits(callers[c], d, n) ==> MtimeAt(d, callers[c].tmp.value.ino) >= t0
  }

  /** Nothing under way makes the entry older than `t0`, or takes it for older. */
  ghost predicate Secure(s: State, n: Name, t0: int) {
    Undisturbed(s.callers, n, t0) && Undoomed(s.sweep, n, t0) && Unreplaced(s.disk, s.callers, n, t0)
  }

  /**
    The entry is not older than `t0`, nothing under way makes it older, and its evictions from
    the index `from` of the log on found it no older.
  */
  ghost predicate Young(s: State, n: Name, t0: int, from: nat) {
    && (n in s.disk.names ==> MtimeAt(s.disk, s.disk.names[n]) >= t0)
    && Secure(s, n, t0)
    && (forall j :: from <= j < |s.evictions| && s.evictions[j].name == n ==> s.evictions[j].mtime >= t0)
  }

  ghost predicate Dated(o: Outcome, s: State) {
    o.Ok? ==>
      && o.at <= s.now
      && (o.calm ==> Young(s, o.entry, o.at, o.since))
  }

  ghost predicate Dates(s: State) {
    && (forall f :: f in s.flights && s.flights[f].result.Some? ==> Dated(s.flights[f].result.value, s))
    && (forall c :: c in s.callers && s.callers[c].pc.Finishing? ==> Dated(s.callers[c].pc.outcome, s))
  }

  // ---- staging files ----

  /** Every staging file belongs to a caller or was left by a crash; a crash's file is nobody's. */
  ghost predicate Staging(d: Disk, callers: map<nat, Caller>, orphans: set<nat>, used: set<nat>) {
    && (forall n :: Staged(n) in d.names ==>
          n in orphans || exists c :: c in callers && callers[c].tmp.Some? && callers[c].tmp.value.n == n)
    && (forall c :: c in callers && callers[c].tmp.Some? ==> callers[c].tmp.value.n !in orphans)
    && orphans <= used
  }

  /** During a sweep, an orphan older than the cutoff is still on the list, or about to be unlinked. */
  ghost predicate SweepFinds(d: Disk, sweep: Option<Sweep>, orphans: set<nat>) {
    sweep.Some? ==>
      forall n :: n in orphans && Staged(n) in d.names && MtimeAt(d, d.names[Staged(n)]) < sweep.value.cutoff ==>
        Staged(n) in sweep.value.todo || (sweep.value.doomed.Some? && sweep.value.doomed.value.name == Staged(n))
  }

  // ---- time ----

  ghost predicate Times(env: Env, s: State) {
    && (forall i :: i in s.disk.inodes ==> s.disk.inodes[i].mtime <= s.now)
    && (forall j :: 0 <= j < |s.evictions| ==>
          s.evictions[j].mtime < s.evictions[j].cutoff && s.evictions[j].cutoff + env.maxUnused <= s.now)
    && (forall c :: c in s.callers && s.callers[c].pc.Touching? ==> s.callers[c].pc.since <= s.now)
    && (s.sweep.Some? ==>
          && s.sweep.value.start <= s.now && s.sweep.value.cutoff == s.sweep.value.start - env.maxUnused
          && (s.sweep.value.doomed.Some? ==> s.sweep.value.doomed.value.mtime < s.sweep.value.cutoff))
  }

  // ---- counting ----

  /** Successful flights whose executor has returned. */
  ghost function Settled(flights: map<nat, Flight>, okReturns: set<(nat, nat)>): set<nat> {
    set f | f in flights && (flights[f].executor, f) in okReturns
  }

  predicate Succeeded(f: nat, flights: map<nat, Flight>) {
    f in flights && flights[f].result.Some? && flights[f].result.value.Ok?
  }

  /** Nobody whose return has been counted is waiting for, or returning from, the same flight. */
  ghost predicate Past(c: nat, x: Caller, okReturns: set<(nat, nat)>) {
    x.pc.Await? || x.pc.Returning? ==> (c, x.pc.fid) !in okReturns
  }

  /** The executor of a successful flight has been counted, or is about to be. */
  ghost predicate Accounted(f: nat, callers: map<nat, Caller>, flights: map<nat, Flight>, okReturns: set<(nat, nat)>) {
    Succeeded(f, flights) ==>
      var e := flights[f].executor;
      (e, f) in okReturns || (e in callers && callers[e].pc.Returning? && callers[e].pc.fid == f)
  }

  ghost predicate Counts(callers: map<nat, Caller>, flights: map<nat, Flight>, coalesced: nat, okReturns: set<(nat, nat)>) {
    && |okReturns| == coalesced + |Settled(flights, okReturns)|
    && (forall p :: p in okReturns ==> Succeeded(p.1, flights))
    && (forall c :: c in callers ==> Past(c, callers[c], okReturns))
    && (forall f :: f in flights ==> Accounted(f, callers, flights, okReturns))
  }

  // ---- all together ----

  ghost predicate Inv(env: Env, s: State) {
    && Shapes(s.callers)
    && Flights(s.callers, s.active, s.flights)
    && Files(s.disk, s.callers, s.usedTemps)
    && Contents(env, s.disk, s.callers, s.fetched)
    && Gauges(s)
    && Outcomes(s.disk, s.callers, s.flights, s.evictions)
    && Misses(s.callers, s.flights, s.evictions)
    && Staging(s.disk, s.callers, s.orphans, s.usedTemps)
    && SweepFinds(s.disk, s.sweep, s.orphans)
    && Times(env, s)
    && Dates(s)
    && Counts(s.callers, s.flights, s.coalesced, s.okReturns)
  }
}
