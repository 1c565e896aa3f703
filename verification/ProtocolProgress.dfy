/** Mutual exclusion, waiting, progress and the counting of coalesced requests. */
module ProtocolProgress {
  import opened Prelude
  import opened CabFormat
  import opened CacheKeys
  import opened Disk
  import opened Protocol
  import opened ProtocolInv
  import opened ProtocolFlights
  import opened ProtocolDates
  import opened ProtocolSteps
  import opened ProtocolRuns

  // ---- mutual exclusion ----

  /** At most one caller runs the closure of a flight key at any time. */
  lemma OneExecutorPerKey(env: Env, s: State, c: nat, e: nat, role: Role)
    requires Reachable(env, s) && c in s.callers && e in s.callers && role != RawCompressed
    requires Executing(s.callers[c], role).Some? && Executing(s.callers[e], role).Some?
    requires KeyOf(s.callers[c]) == KeyOf(s.callers[e])
    ensures c == e
  {
    InvReachable(env, s);
    OneExecutor(s, c, e, role);
  }

  /** Two productions of one name never overlap, although `raw_compressed` has no flight of its own. */
  lemma OneProducerPerName(env: Env, s: State, c: nat, e: nat, n: Name)
    requires Reachable(env, s) && c in s.callers && e in s.callers
    requires Produces(s.callers[c], n) && Produces(s.callers[e], n)
    ensures c == e
  {
    InvReachable(env, s);
    OneProducer(s, c, e, n);
  }

  // ---- waiting ----

  predicate Blocked(x: Caller, flights: map<nat, Flight>) {
    x.pc.Await? && ResultOf(x, flights).None?
  }

  /** `c` is blocked behind the closure that `e` runs. */
  predicate WaitsFor(s: State, c: nat, e: nat) {
    && c in s.callers && Blocked(s.callers[c], s.flights) && s.callers[c].pc.fid in s.flights
    && s.flights[s.callers[c].pc.fid].executor == e
  }

  /** How many nested flights a blocked caller may be away from one that runs. */
  function Depth(x: Caller): nat {
    if !x.pc.Await? then 0 else if x.pc.role == Objects then 1 else 2
  }

  /** Waiting goes strictly down from `cab_synth` to `objects` flights, so it never forms a cycle. */
  lemma WaitingDescends(env: Env, s: State, c: nat, e: nat)
    requires Reachable(env, s) && WaitsFor(s, c, e)
    ensures e in s.callers && Depth(s.callers[e]) < Depth(s.callers[c])
    ensures !s.callers[e].pc.Done?
  {
    var x := s.callers[c];
    var id := FKey(x.pc.role, KeyOf(x));
    assert Shapes(s.callers) && Flights(s.callers, s.active, s.flights) by { InvReachable(env, s); }
    hide Reachable;
    assert Names(c, x, s.active, s.flights) && Shape(x);
    assert ActiveFlight(id, s.active[id], s.callers, s.flights);
    assert Shape(s.callers[e]);
    hide Flights, Shapes;
  }

  /** Whoever is blocked is blocked, over at most two flights, behind a caller that is not. */
  lemma SomebodyRuns(env: Env, s: State, c: nat) returns (e: nat)
    requires Reachable(env, s) && c in s.callers && !s.callers[c].pc.Done?
    ensures e in s.callers && !s.callers[e].pc.Done? && !Blocked(s.callers[e], s.flights)
    ensures e == c || WaitsFor(s, c, e) || exists g :: WaitsFor(s, c, g) && WaitsFor(s, g, e)
  {
    e := c;
    if Blocked(s.callers[c], s.flights) {
      Awaited(env, s, c);
      var g := s.flights[s.callers[c].pc.fid].executor;
      WaitingDescends(env, s, c, g);
      e := g;
      if Blocked(s.callers[g], s.flights) {
        Awaited(env, s, g);
        e := s.flights[s.callers[g].pc.fid].executor;
        WaitingDescends(env, s, g, e);
        assert WaitsFor(s, c, g) && WaitsFor(s, g, e);
      }
    }
  }

  lemma Awaited(env: Env, s: State, c: nat)
    requires Reachable(env, s) && c in s.callers && s.callers[c].pc.Await?
    ensures s.callers[c].pc.fid in s.flights
  {
    InvReachable(env, s);
    assert Names(c, s.callers[c], s.active, s.flights);
  }

  // ---- progress ----

  /** How far a caller is from its end; every move but another partial write brings it closer. */
  function Distance(x: Caller): nat {
    match x.pc
    case Done(_) => 0
    case Look(role, pos) =>
      if role == Objects then Outer(x) + (if pos.First? then 12 else 2)
      else (if pos.First? then 42 else 11) + (if role == RawCompressed then 1 else 0)
    case Touching(role, pos, _, _) =>
      if role == Objects then Outer(x) + 1 else if pos.First? then 41 else 10
    case Enter(role) => if role == Objects then Outer(x) + 11 else 40
    case Await(role, _) => if role == Objects then Outer(x) + 10 else 39
    case Returning(role, _, _) => if role == Objects then Outer(x) + 3 else 13
    case Resolving => Outer(x) + 9
    case ReadingMagic => 19
    case NewTemp(job) => (if job == Download then Outer(x) else 10) + 8
    case Writing(job) => (if job == Download then Outer(x) else 10) + 7
    case Committing(job) => (if job == Download then Outer(x) else 10) + 6
    case Cleaning(role, _) => (if role == Objects then Outer(x) else 10) + 5
    case Finishing(role, _) => (if role == Objects then Outer(x) else 10) + 4
  }

  function Outer(x: Caller): nat {
    if x.compressed then 20 else 0
  }

  lemma OuterMovesApproach(env: Env, s: State, x: Caller, m: Move)
    requires CanMove(env, s, x, m) && Shape(x) && !ObjBody(x.pc) && !CabBody(x.pc)
    ensures Distance(Moved(env, s, x, m)) < Distance(x)
  {
    hide CacheKey;
  }

  lemma BodyMovesApproach(env: Env, s: State, x: Caller, m: Move)
    requires CanMove(env, s, x, m) && Shape(x) && !m.WriteSome? && (ObjBody(x.pc) || CabBody(x.pc))
    ensures Distance(Moved(env, s, x, m)) < Distance(x)
  {
    hide CacheKey, Calm, IsCab;
  }

  lemma MovesApproach(env: Env, s: State, x: Caller, m: Move)
    requires CanMove(env, s, x, m) && Shape(x) && !m.WriteSome?
    ensures Distance(Moved(env, s, x, m)) < Distance(x)
  {
    hide Moved, CanMove, Shape, Distance;
    if ObjBody(x.pc) || CabBody(x.pc) {
      BodyMovesApproach(env, s, x, m);
    } else {
      OuterMovesApproach(env, s, x, m);
    }
  }

  /** A move in which nothing fails, unless a file cannot be wrapped or has been evicted from under its owner. */
  predicate Smooth(m: Move) {
    && !m.LookFail? && !m.CreateFail? && !m.WriteSome? && !(m.TouchEntry? && !m.done) && m != ReadMagic(true)
    && (m.Resolve? ==> m.refused.None?)
  }

  /** A caller that is not blocked has such a move. */
  lemma UnblockedCanMove(env: Env, s: State, c: nat) returns (m: Move)
    requires Reachable(env, s) && c in s.callers
    requires !s.callers[c].pc.Done? && !Blocked(s.callers[c], s.flights)
    ensures CanMove(env, s, s.callers[c], m) && Smooth(m)
  {
    var x := s.callers[c];
    assert Shape(x) && Names(c, x, s.active, s.flights) && Executes(c, x, Objects, s.active, s.flights)
           && Executes(c, x, CabSynth, s.active, s.flights) && (x.pc.Touching? ==> x.pc.since <= s.now)
    by { InvReachable(env, s); }
    hide Reachable;
    if NeedsObject(x.pc) || ObjBody(x.pc) || CabBody(x.pc) {
      hide Names;
      m := ClosureCanMove(env, s, c, x);
    } else {
      hide Shape, Executes;
      match x.pc
      case Look(_, _) => m := if Looking(x) in s.disk.names then LookHit else LookMiss;
      case Touching(_, _, _, _) => m := TouchEntry(true, s.now);
      case Enter(_) =>
        var fid := Fresh(s.flights.Keys);
        m := EnterFlight(fid);
      case Await(_, _) => m := Wake;
      case Returning(_, _, _) => m := Return;
    }
  }

  lemma ClosureCanMove(env: Env, s: State, c: nat, x: Caller) returns (m: Move)
    requires NeedsObject(x.pc) || ObjBody(x.pc) || CabBody(x.pc)
    requires Shape(x) && Executes(c, x, Objects, s.active, s.flights) && Executes(c, x, CabSynth, s.active, s.flights)
    ensures CanMove(env, s, x, m) && Smooth(m)
  {
    match x.pc
    case Resolving => m := Resolve(None);
    case ReadingMagic => m := ReadMagic(false);
    case NewTemp(_) =>
      var n := Fresh(s.usedTemps);
      var ino := Fresh(s.disk.inodes.Keys);
      m := CreateTemp(n, ino);
    case Writing(job) => m := Finish(env, s, x);
    case Committing(_) => m := if Staged(x.tmp.value.n) in s.disk.names then CommitOk(SizeOf(s.disk, Target(x))) else CommitFail;
    case Cleaning(_, _) => m := Cleanup;
    case Finishing(_, _) => m := Publish;
  }

  /** Complete the transfer, unless the object cannot be wrapped. */
  lemma Finish(env: Env, s: State, x: Caller) returns (m: Move)
    requires x.pc.Writing? && Shape(x)
    ensures CanMove(env, s, x, m) && (m.WriteAll? || m.WriteFail?)
  {
    match x.pc.job
    case Download => m := WriteAll([]);
    case Mirror => m := WriteAll(BytesAt(s.disk, x.obj.value));
    case Synthesize =>
      var p := BytesAt(s.disk, x.obj.value);
      hide Cabinet;
      m := if ValidName(x.req.filename) && |p| <= MAX_FOLDER then WriteAll(Cabinet(env.codec, x.req.filename, p)) else WriteFail(Fault);
  }

  function Distances(callers: map<nat, Caller>): map<nat, nat> {
    map c | c in callers :: Distance(callers[c])
  }

  lemma DistancesFall(callers: map<nat, Caller>, e: nat, y: Caller)
    requires e in callers && Distance(y) < Distance(callers[e])
    ensures Sum(Distances(callers[e := y])) < Sum(Distances(callers))
  {
    assert Distances(callers[e := y]) == Distances(callers)[e := Distance(y)];
    SumUpdate(Distances(callers), e, Distance(y));
  }

  /** Only callers that are already there move. */
  predicate OnlyMoves(acts: seq<Action>) {
    forall a :: a in acts ==> a.Act?
  }

  /**
    From every reachable state every caller can be brought to its end by moves of the callers
    that are there: no interleaving, failure or crash leads into a deadlock.
  */
  lemma {:induction false} EveryCallerCanFinish(env: Env, s: State, c: nat) returns (acts: seq<Action>, t: State)
    requires Reachable(env, s) && c in s.callers
    ensures OnlyMoves(acts) && Run(env, s, acts, t) && c in t.callers && t.callers[c].pc.Done?
    decreases Sum(Distances(s.callers))
  {
    if s.callers[c].pc.Done? {
      acts, t := [], s;
    } else {
      var e := SomebodyRuns(env, s, c);
      var m := UnblockedCanMove(env, s, e);
      var a := Act(e, m);
      var u := Next(env, s, a);
      assert Shape(s.callers[e]) by { InvReachable(env, s); }
      MovesApproach(env, s, s.callers[e], m);
      DistancesFall(s.callers, e, Moved(env, s, s.callers[e], m));
      ReachableStep(env, s, a);
      hide Reachable, Moved, Effect, CanMove, Shape, Distances;
      var rest: seq<Action>;
      rest, t := EveryCallerCanFinish(env, u, c);
      acts := [a] + rest;
      assert acts[0] == a && acts[1..] == rest;
    }
  }

  // ---- outcomes and counting ----

  /** A flight's result, once there, stays until the process restarts: all its members get the same one. */
  lemma ResultStep(env: Env, s: State, a: Action, f: nat)
    requires Flights(s.callers, s.active, s.flights) && Enabled(env, s, a) && !a.Restart?
    requires f in s.flights && s.flights[f].result.Some?
    ensures f in Next(env, s, a).flights && Next(env, s, a).flights[f] == s.flights[f]
  {
    hide Moved, Effect, CanMove, Flights;
    if a.Act? {
      ResultMove(env, s, a.c, s.callers[a.c], a.m, f);
    }
  }

  lemma ResultMove(env: Env, s: State, c: nat, x: Caller, m: Move, f: nat)
    requires Flights(s.callers, s.active, s.flights) && c in s.callers && x == s.callers[c] && CanMove(env, s, x, m)
    requires f in s.flights && s.flights[f].result.Some?
    ensures f in Effect(env, s, c, x, m).flights && Effect(env, s, c, x, m).flights[f] == s.flights[f]
  {
    assert Executes(c, x, Objects, s.active, s.flights) && Executes(c, x, CabSynth, s.active, s.flights);
    hide Flights;
    if Steady(m) {
      SteadyEffect(env, s, c, x, m);
      hide Effect, CanMove;
    }
  }

  lemma {:induction false} MembersGetOneOutcome(env: Env, s: State, acts: seq<Action>, t: State, f: nat)
    requires Shapes(s.callers) && Flights(s.callers, s.active, s.flights) && Run(env, s, acts, t)
    requires f in s.flights && s.flights[f].result.Some?
    requires forall a :: a in acts ==> !a.Restart?
    ensures f in t.flights && t.flights[f] == s.flights[f]
    decreases |acts|
  {
    if acts != [] {
      assert acts[0] in acts && forall a :: a in acts[1..] ==> a in acts;
      ResultStep(env, s, acts[0], f);
      ShapeKept(env, s, acts[0]);
      FlightsKept(env, s, acts[0]);
      hide Shapes, Flights, Next, Enabled;
      MembersGetOneOutcome(env, Next(env, s, acts[0]), acts[1..], t, f);
    }
  }

  /** The successful flights, and those among them whose executor has yet to return. */
  ghost function Successes(flights: map<nat, Flight>): set<nat> {
    set f | f in flights && Succeeded(f, flights)
  }

  ghost function Unreturned(s: State): set<nat> {
    set f | f in s.flights && Succeeded(f, s.flights) && (s.flights[f].executor, f) !in s.okReturns
  }

  /**
    Conservation: nil returns of `produceOnce`, nested calls included, are the successful
    executions that have returned plus the coalesced counter. Failed flights add nothing, and
    an execution that has not returned yet is one whose caller is just about to.
  */
  lemma ReturnsAreConserved(env: Env, s: State)
    requires Reachable(env, s)
    ensures |s.okReturns| + |Unreturned(s)| == |Successes(s.flights)| + s.coalesced
    ensures forall f :: f in Unreturned(s) ==>
              var e := s.flights[f].executor;
              e in s.callers && s.callers[e].pc.Returning? && s.callers[e].pc.fid == f
    ensures forall p :: p in s.okReturns ==> Succeeded(p.1, s.flights)
  {
    assert Counts(s.callers, s.flights, s.coalesced, s.okReturns) by { InvReachable(env, s); }
    hide Reachable;
    SettledOrOpen(s.flights, s.okReturns, Unreturned(s));
    forall f | f in Unreturned(s) ensures Accounted(f, s.callers, s.flights, s.okReturns) {}
  }

  lemma SettledOrOpen(flights: map<nat, Flight>, okReturns: set<(nat, nat)>, open: set<nat>)
    requires forall p :: p in okReturns ==> Succeeded(p.1, flights)
    requires open == set f | f in flights && Succeeded(f, flights) && (flights[f].executor, f) !in okReturns
    ensures |Settled(flights, okReturns)| + |open| == |Successes(flights)|
  {
    var settled := Settled(flights, okReturns);
    forall f | f in settled ensures Succeeded(f, flights) {
      assert (flights[f].executor, f) in okReturns;
    }
    hide Succeeded;
    assert Successes(flights) == settled + open && settled !! open;
  }

  /** When no caller is between a flight and its own return, the books balance exactly. */
  lemma BooksBalance(env: Env, s: State)
    requires Reachable(env, s) && forall c :: c in s.callers ==> !s.callers[c].pc.Returning?
    ensures |s.okReturns| == |Successes(s.flights)| + s.coalesced
  {
    ReturnsAreConserved(env, s);
    assert Unreturned(s) == {};
  }
}
