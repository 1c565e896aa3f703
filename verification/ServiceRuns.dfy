/** The service run by one caller, call by call, is a run of the state machine. */
module ServiceRuns {
  import opened Prelude
  import opened CabFormat
  import opened Symstore
  import opened CacheKeys
  import opened Disk
  import opened Protocol
  import opened ProtocolInv
  import opened ProtocolSteps
  import opened ProtocolRuns
  import Service = Objects

  /** No flight is forgotten or changed. */
  ghost predicate Extends(flights: map<nat, Flight>, more: map<nat, Flight>) {
    forall f :: f in flights ==> f in more && more[f] == flights[f]
  }

  /** The disks publish the same and stage the same, and of what was there no flight has moved. */
  ghost predicate Alike(s: State, t: State) {
    && Published(t.disk) == Published(s.disk) && StagingNames(t.disk) == StagingNames(s.disk)
    && t.now == s.now && t.active == s.active && Extends(s.flights, t.flights)
  }

  /** Caller `c` has become `y`, and the others have not moved. */
  ghost predicate Becomes(s: State, c: nat, y: Caller, t: State) {
    t.callers == s.callers[c := y]
  }

  lemma BecomesThen(s: State, c: nat, y: Caller, u: State, z: Caller, t: State)
    requires Becomes(s, c, y, u) && Becomes(u, c, z, t)
    ensures Becomes(s, c, z, t)
  {
  }

  lemma BecomesIt(s: State, c: nat, y: Caller, t: State)
    requires Becomes(s, c, y, t)
    ensures c in t.callers && t.callers[c] == y
  {
  }

  lemma ExtendsThen(f: map<nat, Flight>, g: map<nat, Flight>, h: map<nat, Flight>)
    requires Extends(f, g) && Extends(g, h)
    ensures Extends(f, h)
  {
  }

  // ---- a download that fails ----

  /** The resolver does not know the object, or fails. */
  lemma IsRefused(env: Env, s: State, c: nat, x: Caller, e: Error) returns (f: nat, acts: seq<Action>, t: State)
    requires c in s.callers && x == s.callers[c] && x.pc == Enter(Objects) && FlightId(x) !in s.active
    ensures Run(env, s, acts, t) && f !in s.flights
    ensures t == s.(active := s.active[FlightId(x) := f], flights := s.flights[f := Flight(FlightId(x), c, None)],
                    callers := s.callers[c := x.(pc := Finishing(Objects, Err(e)), objFlight := Some(f))])
  {
    hide CacheKey;
    f := Fresh(s.flights.Keys);
    var a, b := Act(c, EnterFlight(f)), Act(c, Resolve(Some(e)));
    var u := Next(env, s, a);
    t := Next(env, u, b);
    assert t.callers == s.callers[c := x.(pc := Finishing(Objects, Err(e)), objFlight := Some(f))];
    acts := [a, b];
    TwoSteps(env, s, a, u, b, t);
  }

  lemma CannotStage(env: Env, s: State, c: nat, x: Caller) returns (acts: seq<Action>, t: State)
    requires c in s.callers && x == s.callers[c] && x.pc == NewTemp(Download)
    ensures Run(env, s, acts, t)
    ensures t == s.(callers := s.callers[c := x.(pc := Finishing(Objects, Err(Fault)))])
  {
    t := Next(env, s, Act(c, CreateFail));
    acts := [Act(c, CreateFail)];
    OneStep(env, s, Act(c, CreateFail));
  }

  /** The transfer stops half-way, or the commit fails. */
  lemma BreaksOff(env: Env, s: State, c: nat, x: Caller, n: nat, ino: nat, bytes: Bytes, whole: bool, e: Error)
    returns (acts: seq<Action>, t: State)
    requires c in s.callers && x == s.callers[c] && x.pc == NewTemp(Download) && n !in s.usedTemps && ino !in s.disk.inodes
    requires whole ==> e == Fault
    ensures Run(env, s, acts, t) && Becomes(s, c, x.(pc := Cleaning(Objects, e), tmp := Some(Temp(n, ino))), t)
    ensures t.disk == WriteFile(Create(s.disk, n, ino, s.now), ino, bytes, s.now)
    ensures t.active == s.active && t.flights == s.flights && t.now == s.now && t.evictions == s.evictions
  {
    hide CacheKey, WriteFile, Create;
    var u, a;
    if whole {
      acts, u := TransfersAll(env, s, c, x, n, ino, bytes);
      a := Act(c, CommitFail);
    } else {
      acts, u := TransfersSome(env, s, c, x, n, ino, bytes);
      a := Act(c, WriteFail(e));
    }
    t := Next(env, u, a);
    OneStep(env, u, a);
    assert t.callers == s.callers[c := x.(pc := Cleaning(Objects, e), tmp := Some(Temp(n, ino)))];
    hide Run, Next, Enabled;
    RunsJoin(env, s, acts, u, [a], t);
    acts := acts + [a];
  }

  lemma TransfersSome(env: Env, s: State, c: nat, x: Caller, n: nat, ino: nat, bytes: Bytes) returns (acts: seq<Action>, t: State)
    requires c in s.callers && x == s.callers[c] && x.pc == NewTemp(Download)
    requires n !in s.usedTemps && ino !in s.disk.inodes
    ensures Run(env, s, acts, t)
    ensures t == s.(disk := WriteFile(Create(s.disk, n, ino, s.now), ino, bytes, s.now), usedTemps := s.usedTemps + {n},
                    callers := s.callers[c := x.(pc := Writing(Download), tmp := Some(Temp(n, ino)))])
  {
    hide CacheKey;
    var a, b := Act(c, CreateTemp(n, ino)), Act(c, WriteSome(bytes));
    var u := Next(env, s, a);
    t := Next(env, u, b);
    assert t.callers == s.callers[c := x.(pc := Writing(Download), tmp := Some(Temp(n, ino)))];
    acts := [a, b];
    TwoSteps(env, s, a, u, b, t);
  }

  lemma CleansUp(env: Env, s: State, c: nat, x: Caller, e: Error) returns (acts: seq<Action>, t: State)
    requires c in s.callers && x == s.callers[c] && x.pc == Cleaning(Objects, e) && x.tmp.Some?
    ensures Run(env, s, acts, t)
    ensures t == s.(disk := Remove(s.disk, Staged(x.tmp.value.n)),
                    callers := s.callers[c := x.(pc := Finishing(Objects, Err(e)), tmp := None)])
  {
    t := Next(env, s, Act(c, Cleanup));
    acts := [Act(c, Cleanup)];
    OneStep(env, s, Act(c, Cleanup));
  }

  lemma StagedAndRemoved(d: Disk, n: nat, ino: nat, bytes: Bytes, now: int)
    requires WellFormed(d) && Staged(n) !in d.names && ino !in d.inodes
    ensures var r := Remove(WriteFile(Create(d, n, ino, now), ino, bytes, now), Staged(n));
            Published(r) == Published(d) && StagingNames(r) == StagingNames(d)
  {
  }

  /** From an empty-handed closure to its error, whatever has been staged in between. */
  lemma FailsAfterResolving(env: Env, s: State, c: nat, x: Caller, n: nat, ino: nat, luck: Service.DownloadLuck, e: Error)
    returns (acts: seq<Action>, t: State)
    requires c in s.callers && x == s.callers[c] && x.pc == NewTemp(Download) && x.tmp.None?
    requires WellFormed(s.disk) && n !in s.usedTemps && Staged(n) !in s.disk.names && ino !in s.disk.inodes
    requires luck.tempFails || luck.fetched.error.None? ==> e == Fault
    ensures Run(env, s, acts, t) && Alike(s, t) && t.flights == s.flights
    ensures Becomes(s, c, x.(pc := Finishing(Objects, Err(e))), t)
  {
    hide Run, CacheKey, WellFormed, Published, StagingNames, Create, WriteFile, Remove;
    if luck.tempFails {
      acts, t := CannotStage(env, s, c, x);
    } else {
      var a1, u, a2;
      a1, u := BreaksOff(env, s, c, x, n, ino, luck.fetched.written, luck.fetched.error.None?, e);
      a2, t := CleansUp(env, u, c, u.callers[c], e);
      StagedAndRemoved(s.disk, n, ino, luck.fetched.written, s.now);
      RunsJoin(env, s, a1, u, a2, t);
      acts := a1 + a2;
      assert t.callers == s.callers[c := x.(pc := Finishing(Objects, Err(e)))];
    }
  }

  /** A download that fails brings its flight to an error, and leaves what is published and staged as it was. */
  lemma FailsInFlight(env: Env, s: State, c: nat, x: Caller, luck: Service.DownloadLuck, e: Error)
    returns (f: nat, acts: seq<Action>, t: State)
    requires c in s.callers && x == s.callers[c] && x.pc == Enter(Objects) && x.tmp.None? && FlightId(x) !in s.active
    requires WellFormed(s.disk) && forall n :: Staged(n) in s.disk.names ==> n in s.usedTemps
    requires !Service.Arrives(luck) && e == if Service.NotThere(luck) then NotFound else Fault
    ensures Run(env, s, acts, t) && f in t.flights && f !in s.flights && t.active == s.active[FlightId(x) := f] && t.now == s.now
    ensures Becomes(s, c, x.(pc := Finishing(Objects, Err(e)), objFlight := Some(f)), t)
    ensures Published(t.disk) == Published(s.disk) && StagingNames(t.disk) == StagingNames(s.disk) && Extends(s.flights, t.flights)
  {
    hide Run, CacheKey, WellFormed, Published, StagingNames;
    if luck.resolution != Service.Found {
      f, acts, t := IsRefused(env, s, c, x, e);
    } else {
      f := Fresh(s.flights.Keys);
      var n := Fresh(s.usedTemps);
      var ino := Fresh(s.disk.inodes.Keys);
      var a1, u := StartsDownload(env, s, c, x, f);
      var a2;
      a2, t := FailsAfterResolving(env, u, c, u.callers[c], n, ino, luck, e);
      RunsJoin(env, s, a1, u, a2, t);
      acts := a1 + a2;
      assert t.callers == s.callers[c := x.(pc := Finishing(Objects, Err(e)), objFlight := Some(f))];
    }
  }

  lemma FailureEnds(env: Env, s: State, c: nat, x: Caller, f: nat, e: Error) returns (acts: seq<Action>, t: State)
    requires c in s.callers && x == s.callers[c] && x.pc == Finishing(Objects, Err(e))
    requires x.objFlight == Some(f) && f in s.flights
    ensures Run(env, s, acts, t) && Becomes(s, c, x.(pc := AfterError(x, Objects, e), objFlight := None), t)
    ensures t.disk == s.disk && t.now == s.now && t.active == s.active - {FKey(Objects, KeyOf(x))}
    ensures t.flights == s.flights[f := s.flights[f].(result := Some(Err(e)))]
  {
    hide CacheKey;
    var a, b := Act(c, Publish), Act(c, Return);
    var u := Next(env, s, a);
    t := Next(env, u, b);
    assert t.callers == s.callers[c := x.(pc := AfterError(x, Objects, e), objFlight := None)];
    acts := [a, b];
    TwoSteps(env, s, a, u, b, t);
  }

  lemma CanStage(env: Env, s: State, c: nat, x: Caller)
    requires Reachable(env, s) && c in s.callers && x == s.callers[c] && x.pc == Enter(Objects)
    ensures WellFormed(s.disk) && x.tmp.None? && x.objFlight.None?
    ensures forall n :: Staged(n) in s.disk.names ==> n in s.usedTemps
  {
    InvReachable(env, s);
    assert Shapes(s.callers) && Files(s.disk, s.callers, s.usedTemps);
    hide Inv, Reachable;
    assert Shape(x);
  }

  /** A download that fails ends in its error. */
  lemma FailedDownload(env: Env, s: State, c: nat, x: Caller, luck: Service.DownloadLuck, e: Error) returns (acts: seq<Action>, t: State)
    requires Reachable(env, s) && c in s.callers && x == s.callers[c] && x.pc == Enter(Objects)
    requires FlightId(x) !in s.active && !Service.Arrives(luck) && e == if Service.NotThere(luck) then NotFound else Fault
    ensures Run(env, s, acts, t) && Alike(s, t) && Becomes(s, c, x.(pc := AfterError(x, Objects, e)), t)
  {
    hide Reachable, Run, CacheKey, WellFormed, Published, StagingNames, Becomes, AfterError;
    CanStage(env, s, c, x);
    var f, a1, v := FailsInFlight(env, s, c, x, luck, e);
    var y := x.(pc := Finishing(Objects, Err(e)), objFlight := Some(f));
    BecomesIt(s, c, y, v);
    var a2;
    a2, t := FailureEnds(env, v, c, y, f, e);
    RunsJoin(env, s, a1, v, a2, t);
    acts := a1 + a2;
    assert s.active[FlightId(x) := f] - {FlightId(x)} == s.active;
    SameErrors(x, y, e);
    BecomesThen(s, c, y, v, x.(pc := AfterError(x, Objects, e)), t);
  }

  lemma SameErrors(x: Caller, y: Caller, e: Error)
    requires y.compressed == x.compressed
    ensures forall role: Role :: AfterError(y, role, e) == AfterError(x, role, e)
  {
  }

  // ---- lookups ----

  /** What a lookup makes of a caller. */
  function AfterLookup(x: Caller, d: Disk, luck: Service.LookupLuck): Caller
    requires x.pc.Look?
  {
    if luck.fails then x.(pc := AfterError(x, x.pc.role, Fault))
    else if Looking(x) in d.names then Opened(x, x.pc.role, d.names[Looking(x)])
    else x.(pc := AfterMiss(x, x.pc.role, x.pc.pos))
  }

  /** A lookup fails, misses, or opens the file and touches it or not. */
  lemma LooksUp(env: Env, s: State, c: nat, x: Caller, luck: Service.LookupLuck) returns (acts: seq<Action>, t: State)
    requires c in s.callers && x == s.callers[c] && x.pc.Look?
    ensures Run(env, s, acts, t) && Alike(s, t) && Becomes(s, c, AfterLookup(x, s.disk, luck), t)
    ensures t.disk.names == s.disk.names && t.flights == s.flights
  {
    if luck.fails {
      t := Next(env, s, Act(c, LookFail));
      acts := [Act(c, LookFail)];
      OneStep(env, s, Act(c, LookFail));
    } else if Looking(x) in s.disk.names {
      acts, t := LooksAndTouches(env, s, c, x, luck.touched);
    } else {
      t := Next(env, s, Act(c, LookMiss));
      acts := [Act(c, LookMiss)];
      OneStep(env, s, Act(c, LookMiss));
    }
  }

  lemma LooksAndTouches(env: Env, s: State, c: nat, x: Caller, touched: bool) returns (acts: seq<Action>, t: State)
    requires c in s.callers && x == s.callers[c] && x.pc.Look? && Looking(x) in s.disk.names
    ensures Run(env, s, acts, t) && Alike(s, t) && Becomes(s, c, Opened(x, x.pc.role, s.disk.names[Looking(x)]), t)
    ensures t.disk.names == s.disk.names && t.flights == s.flights
  {
    hide CacheKey;
    var a, b := Act(c, LookHit), Act(c, TouchEntry(touched, s.now));
    var u := Next(env, s, a);
    t := Next(env, u, b);
    assert t.callers == s.callers[c := Opened(x, x.pc.role, s.disk.names[Looking(x)])];
    acts := [a, b];
    TwoSteps(env, s, a, u, b, t);
  }

  lemma ReturnsToLook(env: Env, s: State, c: nat, x: Caller, f: nat) returns (acts: seq<Action>, t: State)
    requires c in s.callers && x == s.callers[c] && x.pc.Returning? && x.pc.role != RawCompressed
    requires x.pc.fid == f && Succeeded(f, s.flights)
    ensures Run(env, s, acts, t) && t.disk == s.disk && t.now == s.now && t.active == s.active && t.flights == s.flights
    ensures Becomes(s, c, x.(pc := Look(if x.pc.role == Objects then Objects else RawCompressed, Again(f))), t)
  {
    t := Next(env, s, Act(c, Return));
    acts := [Act(c, Return)];
    OneStep(env, s, Act(c, Return));
  }

  lemma InstalledIsPublished(d: Disk, d': Disk, n: Name, payload: Bytes, now: int)
    requires WellFormed(d) && Installs(d, d', n, payload, now) && n.Entry?
    ensures Published(d') == Published(d)[n := payload] && StagingNames(d') == StagingNames(d) && n in d'.names
  {
  }

  // ---- the object ----

  /** The end of `Object`, as the service's contract has it, for a run of the state machine. */
  ghost predicate ObjectEnds(s: State, t: State, c: nat, x: Caller, luck: Service.ObjectLuck) {
    var n, before := Entry(Objects, KeyOf(x)), Published(s.disk);
    && Published(t.disk) == Service.ObjectPart(before, KeyOf(x), luck) && StagingNames(t.disk) == StagingNames(s.disk)
    && t.now == s.now && t.active == s.active && Extends(s.flights, t.flights)
    && if Service.Opens(before, KeyOf(x), luck) then n in t.disk.names && Becomes(s, c, Opened(x, Objects, t.disk.names[n]), t)
       else Becomes(s, c, x.(pc := AfterError(x, Objects, Service.ObjectError(before, KeyOf(x), luck))), t)
  }

  /** A download that succeeds is reopened, unless the lookup fails. */
  lemma GoodDownload(env: Env, s: State, c: nat, x: Caller, luck: Service.ObjectLuck) returns (acts: seq<Action>, t: State)
    requires Reachable(env, s) && c in s.callers && x == s.callers[c] && x.pc == Enter(Objects) && FlightId(x) !in s.active
    ensures Run(env, s, acts, t) && StagingNames(t.disk) == StagingNames(s.disk)
    ensures var n := Entry(Objects, KeyOf(x));
            && Published(t.disk) == Published(s.disk)[n := luck.download.fetched.written] && n in t.disk.names
            && Becomes(s, c, if luck.again.fails then x.(pc := AfterError(x, Objects, Fault))
                             else Opened(x, Objects, t.disk.names[n]), t)
    ensures t.now == s.now && t.active == s.active && Extends(s.flights, t.flights)
  {
    assert WellFormed(s.disk) by { InvReachable(env, s); }
    var n := Entry(Objects, KeyOf(x));
    hide Reachable, Run, CacheKey, WellFormed, Published, StagingNames, Installs, Calm, Becomes, AfterError, AfterLookup;
    var f, a1, u := Downloads(env, s, c, luck.download.fetched.written);
    InstalledIsPublished(s.disk, u.disk, n, luck.download.fetched.written, s.now);
    var y, z := x.(pc := Returning(Objects, f, true)), x.(pc := Look(Objects, Again(f)));
    DownloadBecomes(s, c, x, luck.download.fetched.written, f, u, y);
    hide Downloaded;
    BecomesIt(s, c, y, u);
    var a2, v := ReturnsToLook(env, u, c, y, f);
    BecomesThen(s, c, y, u, z, v);
    BecomesIt(s, c, z, v);
    var a3;
    a3, t := LooksUp(env, v, c, z, luck.again);
    LookedUp(x, z, v.disk, luck.again);
    BecomesThen(s, c, z, v, AfterLookup(z, v.disk, luck.again), t);
    ExtendsThen(s.flights, v.flights, t.flights);
    RunsJoin(env, s, a1, u, a2, v);
    RunsJoin(env, s, a1 + a2, v, a3, t);
    acts := a1 + a2 + a3;
  }

  lemma DownloadBecomes(s: State, c: nat, x: Caller, payload: Bytes, f: nat, u: State, y: Caller)
    requires c in s.callers && x == s.callers[c] && Downloaded(s, c, payload, f, u) && y == x.(pc := Returning(Objects, f, true))
    ensures Becomes(s, c, y, u) && Succeeded(f, u.flights) && Extends(s.flights, u.flights) && u.now == s.now && u.active == s.active
  {
    hide Calm, Installs;
  }

  /** A lookup of an object that is there leads out of `Object`, by an error or with the file. */
  lemma LookedUp(x: Caller, z: Caller, d: Disk, luck: Service.LookupLuck)
    requires z.pc.Look? && z.pc.role == Objects && z == x.(pc := z.pc) && Entry(Objects, KeyOf(x)) in d.names
    ensures AfterLookup(z, d, luck)
            == if luck.fails then x.(pc := AfterError(x, Objects, Fault)) else Opened(x, Objects, d.names[Entry(Objects, KeyOf(x))])
  {
    hide CacheKey;
  }

  /** For every course the service's `Object` can take alone, the state machine has a run with the same end. */
  lemma ObjectIsARun(env: Env, s: State, c: nat, x: Caller, luck: Service.ObjectLuck) returns (acts: seq<Action>, t: State)
    requires Reachable(env, s) && c in s.callers && x == s.callers[c] && x.pc == Look(Objects, First)
    requires FKey(Objects, KeyOf(x)) !in s.active
    ensures Run(env, s, acts, t) && ObjectEnds(s, t, c, x, luck)
  {
    hide Reachable, Run, CacheKey, Published, StagingNames;
    Service.PublishedNames(s.disk, Looking(x));
    var a1, u := LooksUp(env, s, c, x, luck.first);
    if luck.first.fails || Looking(x) in s.disk.names {
      acts, t := a1, u;
    } else {
      ReachableRun(env, s, a1, u);
      var a2;
      if Service.Arrives(luck.download) {
        a2, t := GoodDownload(env, u, c, u.callers[c], luck);
      } else {
        a2, t := FailedDownload(env, u, c, u.callers[c], luck.download, Service.ObjectError(Published(s.disk), KeyOf(x), luck));
      }
      RunsJoin(env, s, a1, u, a2, t);
      acts := a1 + a2;
      assert t.callers == s.callers[c := t.callers[c]];
    }
  }

  // ---- the compressed form ----

  /** The search for a compressed form; if it finds nothing, the caller goes on. */
  lemma SeeksCompressed(env: Env, s: State, c: nat, x: Caller, raw: Service.LookupLuck, cab: Service.LookupLuck)
    returns (acts: seq<Action>, t: State)
    requires c in s.callers && x == s.callers[c] && x.pc.Look? && x.pc.role == RawCompressed
    ensures Run(env, s, acts, t) && Alike(s, t) && t.disk.names == s.disk.names && t.flights == s.flights && c in t.callers
    ensures match Service.Seek(Published(s.disk), KeyOf(x), raw, cab)
            case Under(role) =>
              Entry(role, KeyOf(x)) in t.disk.names && t.callers[c].pc == Done(File(t.disk.names[Entry(role, KeyOf(x))]))
            case LookFails => t.callers[c].pc == Done(Failure(Fault))
            case Nowhere => Becomes(s, c, x.(pc := AfterMiss(x, CabSynth, x.pc.pos)), t)
  {
    hide Run, CacheKey, Published, StagingNames;
    Service.PublishedNames(s.disk, Entry(RawCompressed, KeyOf(x)));
    Service.PublishedNames(s.disk, Entry(CabSynth, KeyOf(x)));
    acts, t := LooksUp(env, s, c, x, raw);
    if !raw.fails && Looking(x) !in s.disk.names {
      var u := t;
      var more;
      more, t := LooksUp(env, u, c, u.callers[c], cab);
      RunsJoin(env, s, acts, u, more, t);
      acts := acts + more;
      assert t.callers == s.callers[c := t.callers[c]];
    }
  }

  lemma EntersCab(env: Env, s: State, c: nat, x: Caller) returns (f: nat, acts: seq<Action>, t: State)
    requires c in s.callers && x == s.callers[c] && x.pc == Enter(CabSynth) && FlightId(x) !in s.active
    ensures Run(env, s, acts, t) && f !in s.flights
    ensures t == s.(active := s.active[FlightId(x) := f], flights := s.flights[f := Flight(FlightId(x), c, None)],
                    callers := s.callers[c := x.(pc := Look(Objects, First), cabFlight := Some(f))])
  {
    hide CacheKey;
    f := Fresh(s.flights.Keys);
    t := Next(env, s, Act(c, EnterFlight(f)));
    acts := [Act(c, EnterFlight(f))];
    OneStep(env, s, Act(c, EnterFlight(f)));
  }

  /** Nothing comes of the object: reading it fails, for one. */
  lemma MakesNothing(env: Env, s: State, c: nat, x: Caller) returns (acts: seq<Action>, t: State)
    requires c in s.callers && x == s.callers[c] && x.pc == ReadingMagic && x.obj.Some?
    ensures Run(env, s, acts, t) && t == s.(callers := s.callers[c := x.(pc := Finishing(CabSynth, Err(Fault)))])
  {
    t := Next(env, s, Act(c, ReadMagic(true)));
    acts := [Act(c, ReadMagic(true))];
    OneStep(env, s, Act(c, ReadMagic(true)));
  }

  /** What is written for an object, and by which job. */
  function JobFor(payload: Bytes): Job {
    if IsCab(payload) then Mirror else Synthesize
  }

  function Form(env: Env, req: Request, payload: Bytes): Bytes
    requires Service.Compressible(payload, req.filename)
  {
    if IsCab(payload) then payload else Cabinet(env.codec, req.filename, payload)
  }

  lemma Reads(env: Env, s: State, c: nat, x: Caller, n: nat, ino: nat) returns (acts: seq<Action>, t: State)
    requires c in s.callers && x == s.callers[c] && x.pc == ReadingMagic && x.obj.Some?
    requires n !in s.usedTemps && ino !in s.disk.inodes
    ensures Run(env, s, acts, t)
    ensures t == s.(disk := Create(s.disk, n, ino, s.now), usedTemps := s.usedTemps + {n},
                    callers := s.callers[c := x.(pc := Writing(JobFor(BytesAt(s.disk, x.obj.value))), tmp := Some(Temp(n, ino)))])
  {
    hide CacheKey, IsCab;
    var a, b := Act(c, ReadMagic(false)), Act(c, CreateTemp(n, ino));
    var u := Next(env, s, a);
    t := Next(env, u, b);
    assert t.callers == s.callers[c := x.(pc := Writing(JobFor(BytesAt(s.disk, x.obj.value))), tmp := Some(Temp(n, ino)))];
    acts := [a, b];
    TwoSteps(env, s, a, u, b, t);
  }

  lemma WritesAndCommits(env: Env, s: State, c: nat, x: Caller, b: Bytes) returns (acts: seq<Action>, t: State)
    requires c in s.callers && x == s.callers[c] && x.pc.Writing? && x.pc.job != Download && x.tmp.Some?
    requires Staged(x.tmp.value.n) in s.disk.names && CompletePayload(env, s, x, x.pc.job, b)
    ensures Run(env, s, acts, t)
    ensures t.disk == Rename(WriteFile(s.disk, x.tmp.value.ino, b, s.now), x.tmp.value.n, Entry(TargetRole(x.pc.job), KeyOf(x)))
    ensures t.now == s.now && t.active == s.active && t.flights == s.flights
    ensures c in t.callers && t.callers[c].pc.Finishing? && t.callers[c].pc.role == CabSynth && t.callers[c].pc.outcome.Ok?
    ensures Becomes(s, c, x.(pc := t.callers[c].pc, tmp := None), t)
  {
    hide CacheKey, IsCab, Calm, CompletePayload;
    var a, d := Act(c, WriteAll(b)), Act(c, CommitOk(None));
    var u := Next(env, s, a);
    t := Next(env, u, d);
    assert t.callers == s.callers[c := x.(pc := t.callers[c].pc, tmp := None)];
    acts := [a, d];
    TwoSteps(env, s, a, u, d, t);
  }

  /** A new file, filled and renamed, is published under its entry. */
  lemma MadeIsPublished(d: Disk, n: nat, ino: nat, b: Bytes, now: int, to: Name)
    requires WellFormed(d) && Staged(n) !in d.names && ino !in d.inodes && to.Entry?
    ensures var w := Create(d, n, ino, now);
            && Staged(n) in w.names && (forall i :: i in d.inodes ==> BytesAt(w, i) == BytesAt(d, i))
            && var r := Rename(WriteFile(w, ino, b, now), n, to);
               Published(r) == Published(d)[to := b] && StagingNames(r) == StagingNames(d)
  {
  }

  /** The object's compressed form is made and committed. */
  lemma MakesForm(env: Env, s: State, c: nat, x: Caller, payload: Bytes) returns (acts: seq<Action>, t: State)
    requires Reachable(env, s) && c in s.callers && x == s.callers[c] && x.pc == ReadingMagic && x.obj.Some?
    requires payload == BytesAt(s.disk, x.obj.value) && Service.Compressible(payload, x.req.filename)
    ensures Run(env, s, acts, t) && StagingNames(t.disk) == StagingNames(s.disk)
    ensures Published(t.disk) == Published(s.disk)[Entry(TargetRole(JobFor(payload)), KeyOf(x)) := Form(env, x.req, payload)]
    ensures t.now == s.now && t.active == s.active && t.flights == s.flights
    ensures c in t.callers && t.callers[c].pc.Finishing? && t.callers[c].pc.role == CabSynth && t.callers[c].pc.outcome.Ok?
    ensures Becomes(s, c, x.(pc := t.callers[c].pc), t)
  {
    assert CanMake(s, x) by { InvReachable(env, s); ShapeCanMake(env, s, c, x); }
    hide Reachable, Run, CacheKey, Published, StagingNames, Create, WriteFile, Rename, IsCab, Cabinet, WellFormed;
    var n := Fresh(s.usedTemps);
    var ino := Fresh(s.disk.inodes.Keys);
    var b := Form(env, x.req, payload);
    MadeIsPublished(s.disk, n, ino, b, s.now, Entry(TargetRole(JobFor(payload)), KeyOf(x)));
    var a1, u := Reads(env, s, c, x, n, ino);
    var y := x.(pc := Writing(JobFor(payload)), tmp := Some(Temp(n, ino)));
    FormIsComplete(env, u, y, payload);
    hide Form, JobFor, CompletePayload;
    var a2;
    a2, t := WritesAndCommits(env, u, c, y, b);
    RunsJoin(env, s, a1, u, a2, t);
    acts := a1 + a2;
    BecomesThen(s, c, y, u, x.(pc := t.callers[c].pc), t);
  }

  ghost predicate CanMake(s: State, x: Caller) {
    && WellFormed(s.disk) && x.tmp.None? && (forall n :: Staged(n) in s.disk.names ==> n in s.usedTemps)
    && x.obj.Some? && x.obj.value in s.disk.inodes
  }

  lemma ShapeCanMake(env: Env, s: State, c: nat, x: Caller)
    requires Inv(env, s) && c in s.callers && x == s.callers[c] && x.pc == ReadingMagic && x.obj.Some?
    ensures CanMake(s, x)
  {
    assert Shapes(s.callers) && Files(s.disk, s.callers, s.usedTemps);
    hide Inv;
    assert Shape(x) && Holds(x, x.obj.value) && Frozen(s.disk, s.callers, x.obj.value);
  }

  lemma FormIsComplete(env: Env, s: State, x: Caller, payload: Bytes)
    requires x.obj.Some? && payload == BytesAt(s.disk, x.obj.value) && Service.Compressible(payload, x.req.filename)
    ensures CompletePayload(env, s, x, JobFor(payload), Form(env, x.req, payload))
  {
    hide IsCab, Cabinet;
  }

  /** The flight ends: with its error for the caller, or with a last search to come. */
  lemma CabEnds(env: Env, s: State, c: nat, x: Caller, f: nat) returns (acts: seq<Action>, t: State)
    requires c in s.callers && x == s.callers[c] && x.pc.Finishing? && x.pc.role == CabSynth
    requires x.cabFlight == Some(f) && f in s.flights
    ensures Run(env, s, acts, t) && t.disk == s.disk && t.now == s.now && c in t.callers
    ensures t.callers[c].req == x.req
    ensures t.callers[c].pc == if x.pc.outcome.Err? then Done(Failure(x.pc.outcome.error)) else Look(RawCompressed, Again(f))
  {
    hide CacheKey;
    var a, b := Act(c, Publish), Act(c, Return);
    var u := Next(env, s, a);
    t := Next(env, u, b);
    acts := [a, b];
    TwoSteps(env, s, a, u, b, t);
  }

  /** From the flight's start to its end, for a given fate of the production. */
  lemma ProducesCompressed(env: Env, s: State, c: nat, x: Caller, luck: Service.CompressedLuck,
                           mid: map<Name, Bytes>, after: map<Name, Bytes>, making: Service.Making)
    returns (f: nat, acts: seq<Action>, t: State)
    requires Reachable(env, s) && c in s.callers && x == s.callers[c] && x.pc == Enter(CabSynth) && x.compressed
    requires FlightId(x) !in s.active && FKey(Objects, KeyOf(x)) !in s.active
    requires Service.Seek(Published(s.disk), KeyOf(x), luck.raw, luck.cab) == Service.Nowhere
    requires Service.Course(env.codec, Published(s.disk), mid, after, x.req, luck, making)
    ensures Run(env, s, acts, t) && Published(t.disk) == after && c in t.callers && t.callers[c].req == x.req
    ensures t.callers[c].pc == if making.Refused? then Done(Failure(making.error)) else Look(RawCompressed, Again(f))
  {
    var key, source := KeyOf(x), luck.synthesis.source;
    hide Reachable, Run, CacheKey, Published, StagingNames, IsCab, Cabinet, Service.ObjectPart, Service.ObjectError, Service.Opens, Service.Compressible;
    var a1, u;
    f, a1, u := EntersCab(env, s, c, x);
    ReachableRun(env, s, a1, u);
    var a2, v := ObjectIsARun(env, u, c, u.callers[c], source);
    RunsJoin(env, s, a1, u, a2, v);
    ReachableRun(env, s, a1 + a2, v);
    var y := v.callers[c];
    assert f in v.flights && y.cabFlight == Some(f) && y.req == x.req;
    var a3, w := [], v;
    NoSteps(env, v);
    if Service.Opens(Published(s.disk), key, source) {
      a3, w := Makes(env, v, c, y, after, making);
    }
    RunsJoin(env, s, a1 + a2, v, a3, w);
    var a4;
    a4, t := CabEnds(env, w, c, w.callers[c], f);
    RunsJoin(env, s, a1 + a2 + a3, w, a4, t);
    acts := a1 + a2 + a3 + a4;
  }

  lemma Makes(env: Env, s: State, c: nat, x: Caller, after: map<Name, Bytes>, making: Service.Making) returns (acts: seq<Action>, t: State)
    requires Reachable(env, s) && c in s.callers && x == s.callers[c] && x.pc == ReadingMagic && x.obj.Some?
    requires Entry(Objects, KeyOf(x)) in s.disk.names && x.obj.value == s.disk.names[Entry(Objects, KeyOf(x))]
    requires making == Service.Refused(Fault) || making == Service.Made
    requires Entry(Objects, KeyOf(x)) in Published(s.disk)
    requires making == Service.Made ==>
               Service.Compressible(Published(s.disk)[Entry(Objects, KeyOf(x))], x.req.filename)
               && after == Service.WithCompressed(env.codec, Published(s.disk), x.req)
    requires making != Service.Made ==> after == Published(s.disk)
    ensures Run(env, s, acts, t) && Published(t.disk) == after && t.flights == s.flights
    ensures c in t.callers && t.callers[c].pc.Finishing? && t.callers[c].pc.role == CabSynth
    ensures t.callers[c].cabFlight == x.cabFlight && t.callers[c].req == x.req
    ensures if making.Made? then t.callers[c].pc.outcome.Ok? else t.callers[c].pc.outcome == Err(Fault)
  {
    hide Reachable, Run, CacheKey, Published, StagingNames, IsCab, Cabinet;
    if making.Made? {
      Service.PublishedNames(s.disk, Entry(Objects, KeyOf(x)));
      acts, t := MakesForm(env, s, c, x, BytesAt(s.disk, x.obj.value));
    } else {
      acts, t := MakesNothing(env, s, c, x);
    }
  }

  /** For every course the service's `FetchCompressed` can take alone, the state machine has a run with the same end. */
  lemma CompressedIsARun(env: Env, s: State, c: nat, x: Caller, luck: Service.CompressedLuck,
                         mid: map<Name, Bytes>, after: map<Name, Bytes>, making: Service.Making)
    returns (acts: seq<Action>, t: State)
    requires Reachable(env, s) && c in s.callers && x == s.callers[c] && x.pc == Look(RawCompressed, First) && x.compressed
    requires FKey(CabSynth, KeyOf(x)) !in s.active && FKey(Objects, KeyOf(x)) !in s.active
    requires Service.Course(env.codec, Published(s.disk), mid, after, x.req, luck, making)
    ensures Run(env, s, acts, t) && Published(t.disk) == after && c in t.callers && t.callers[c].pc.Done?
    ensures var r := t.callers[c].pc.result;
            if making.Refused? then r == Failure(making.error)
            else Service.FoundAs(t.disk, KeyOf(x), Service.LastSearch(Published(s.disk), after, KeyOf(x), luck, making), r)
  {
    hide Reachable, Run, CacheKey, Published, StagingNames, Service.WithCompressed, Service.ObjectPart, Service.ObjectError,
         Service.Opens, Service.Compressible;
    var a1, u := SeeksCompressed(env, s, c, x, luck.raw, luck.cab);
    if Service.Seek(Published(s.disk), KeyOf(x), luck.raw, luck.cab) != Service.Nowhere {
      acts, t := a1, u;
    } else {
      ReachableRun(env, s, a1, u);
      var f, a2, v := ProducesCompressed(env, u, c, u.callers[c], luck, mid, after, making);
      RunsJoin(env, s, a1, u, a2, v);
      acts, t := a1 + a2, v;
      if !making.Refused? {
        var a3;
        a3, t := SeeksCompressed(env, v, c, v.callers[c], luck.rawAgain, luck.cabAgain);
        RunsJoin(env, s, a1 + a2, v, a3, t);
        acts := a1 + a2 + a3;
      }
    }
  }

  // ---- side by side ----

  /** A state in which a request has just come in, with the entries of a cache and none of its flights under way. */
  ghost predicate Arrived(env: Env, s: State, c: nat, req: Request, compressed: bool, d: Disk) {
    && Reachable(env, s) && c in s.callers && s.callers[c] == NewCaller(req, compressed) && Published(s.disk) == Published(d)
    && FKey(Objects, CacheKey(req)) !in s.active && FKey(CabSynth, CacheKey(req)) !in s.active
  }

  /** The caller is done with the same result: the same error, or a file with the same bytes. */
  ghost predicate SameEnd(t: State, c: nat, d: Disk, r: Result) {
    && Published(t.disk) == Published(d) && c in t.callers && t.callers[c].pc.Done?
    && var q := t.callers[c].pc.result;
       if r.File? then q.File? && BytesAt(t.disk, q.ino) == BytesAt(d, r.ino) else q == r
  }

  /** The service and the state machine: from the same entries to the same entries and the same result. */
  method RunObject(service: Service.Service, req: Request, luck: Service.ObjectLuck, ghost env: Env, ghost s: State, ghost c: nat)
    returns (r: Result, ghost acts: seq<Action>, ghost t: State)
    requires service.cache.Valid() && Arrived(env, s, c, req, false, service.cache.disk)
    modifies service.cache
    ensures service.cache.Valid() && Run(env, s, acts, t) && SameEnd(t, c, service.cache.disk, r)
  {
    hide Reachable, Run, CacheKey, Published, StagingNames, Service.ObjectPart, Service.Opens, Service.ObjectError;
    var n := Entry(Objects, CacheKey(req));
    acts, t := ObjectIsARun(env, s, c, s.callers[c], luck);
    r := service.Object(req, luck);
    Service.PublishedNames(t.disk, n);
    Service.PublishedNames(service.cache.disk, n);
  }

  /** The same for the compressed form. */
  method RunFetchCompressed(service: Service.Service, req: Request, luck: Service.CompressedLuck, ghost env: Env, ghost s: State, ghost c: nat)
    returns (r: Result, ghost acts: seq<Action>, ghost t: State)
    requires service.cache.Valid() && service.codec == env.codec && Arrived(env, s, c, req, true, service.cache.disk)
    modifies service.cache
    ensures service.cache.Valid() && Run(env, s, acts, t) && SameEnd(t, c, service.cache.disk, r)
  {
    hide Reachable, Run, CacheKey, Published, StagingNames, Service.Course;
    ghost var mid, making;
    r, mid, making := service.FetchCompressed(req, luck);
    acts, t := CompressedIsARun(env, s, c, s.callers[c], luck, mid, Published(service.cache.disk), making);
    forall role: Role ensures SameBytes(t.disk, service.cache.disk, Entry(role, CacheKey(req))) {
      Service.PublishedNames(t.disk, Entry(role, CacheKey(req)));
      Service.PublishedNames(service.cache.disk, Entry(role, CacheKey(req)));
    }
  }

  ghost predicate SameBytes(d: Disk, d': Disk, n: Name) {
    n in d.names && n in d'.names ==> BytesAt(d, d.names[n]) == BytesAt(d', d'.names[n])
  }
}
