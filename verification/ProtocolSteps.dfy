/** Every step keeps the gauges, the eviction log, the staging files and the times; all groups together are invariant. */
module ProtocolSteps {
  import opened Prelude
  import opened CacheKeys
  import opened Disk
  import opened Protocol
  import opened ProtocolInv
  import opened ProtocolFlights
  import opened ProtocolFiles
  import opened ProtocolDates

  // ---- gauges ----

  /** A move that neither commits nor changes what is committed. */
  lemma SizesOfMove(env: Env, s: State, c: nat, x: Caller, m: Move)
    requires Files(s.disk, s.callers, s.usedTemps) && c in s.callers && x == s.callers[c] && Shape(x)
    requires CanMove(env, s, x, m) && !m.CommitOk?
    ensures var t := Effect(env, s, c, x, m);
            && Sizes(t.disk) == Sizes(s.disk) && t.sizeGauge == s.sizeGauge && t.entryGauge == s.entryGauge
            && t.sweep == s.sweep && t.lostBytes == s.lostBytes && t.lostEntries == s.lostEntries
  {
    hide Sizes, Shape;
    assert OwnsTemp(x, s.disk, s.usedTemps);
    match m
    case CreateTemp(n, i) => SizesIgnoreCreate(s.disk, n, i, s.now);
    case WriteSome(b) => SizesIgnoreWrite(s.disk, x.tmp.value.ino, b, s.now);
    case WriteAll(b) => SizesIgnoreWrite(s.disk, x.tmp.value.ino, b, s.now);
    case TouchEntry(_, stamp) => SizesIgnoreTouch(s.disk, Looking(x), stamp);
    case Cleanup => SizesRemoveTemp(s.disk, x.tmp.value.n);
    case _ =>
  }

  lemma SizesRemoveTemp(d: Disk, n: nat)
    ensures Sizes(Remove(d, Staged(n))) == Sizes(d)
  {
  }

  lemma GaugesCommitted(s: State, n: nat, to: Name, seen: Option<nat>)
    requires Gauges(s) && Staged(n) in s.disk.names && to.Entry?
    ensures Gauges(Committed(s, n, to, seen))
  {
    SizesOfRename(s.disk, n, to);
    hide TotalBytes, TotalEntries, Sizes;
  }

  lemma GaugesActed(env: Env, s: State, c: nat, x: Caller, m: Move)
    requires Files(s.disk, s.callers, s.usedTemps) && Gauges(s)
    requires c in s.callers && x == s.callers[c] && Shape(x) && CanMove(env, s, x, m)
    ensures Gauges(Effect(env, s, c, x, m))
  {
    if m.CommitOk? {
      hide Files, Shape;
      GaugesCommitted(s, x.tmp.value.n, Target(x), m.seen);
    } else {
      SizesOfMove(env, s, c, x, m);
      hide Effect, CanMove;
    }
  }

  lemma GaugesKept(env: Env, s: State, a: Action)
    requires Shapes(s.callers) && Files(s.disk, s.callers, s.usedTemps) && Gauges(s) && Enabled(env, s, a)
    ensures Gauges(Next(env, s, a))
  {
    hide Files, Moved, Effect, CanMove, Shape, Sizes, TotalBytes, TotalEntries;
    match a
    case Act(c, m) =>
      GaugesActed(env, s, c, s.callers[c], m);
      var t := Effect(env, s, c, s.callers[c], m);
      assert Gauges(t);
    case SweepUnlink =>
      GaugesUnlink(s);
    case _ =>
  }

  lemma GaugesUnlink(s: State)
    requires Gauges(s) && s.sweep.Some? && s.sweep.value.doomed.Some?
    ensures Gauges(UnlinkNext(s))
  {
    if s.sweep.value.doomed.value.name in s.disk.names {
      TotalsOfRemove(s.disk, s.sweep.value.doomed.value.name);
    }
    hide TotalBytes, TotalEntries;
  }

  // ---- evictions ----

  lemma OutcomeKept(o: Outcome, id: FKey, d: Disk, d': Disk, ev: seq<Eviction>, ev': seq<Eviction>)
    requires OutcomeHolds(o, id, d, ev) && ev <= ev'
    requires forall n :: n in d.names && n.Entry? ==> n in d'.names || EvictedSince(ev', |ev|, n)
    ensures OutcomeHolds(o, id, d', ev')
  {
    if o.Ok? && EvictedSince(ev, o.since, o.entry) {
      var j :| o.since <= j < |ev| && ev[j].name == o.entry;
      assert ev'[j].name == o.entry;
    }
  }

  /** Names of entries go only through the log. */
  lemma OutcomesKeep(d: Disk, d': Disk, callers: map<nat, Caller>, flights: map<nat, Flight>, ev: seq<Eviction>, ev': seq<Eviction>)
    requires Outcomes(d, callers, flights, ev) && ev <= ev'
    requires forall n :: n in d.names && n.Entry? ==> n in d'.names || EvictedSince(ev', |ev|, n)
    ensures Outcomes(d', callers, flights, ev')
  {
    hide OutcomeHolds;
    forall f | f in flights && flights[f].result.Some?
      ensures OutcomeHolds(flights[f].result.value, flights[f].id, d', ev')
    {
      OutcomeKept(flights[f].result.value, flights[f].id, d, d', ev, ev');
    }
    forall c | c in callers && callers[c].pc.Finishing?
      ensures OutcomeHolds(callers[c].pc.outcome, FKey(callers[c].pc.role, KeyOf(callers[c])), d', ev')
    {
      OutcomeKept(callers[c].pc.outcome, FKey(callers[c].pc.role, KeyOf(callers[c])), d, d', ev, ev');
    }
  }

  lemma OutcomesStep(env: Env, s: State, c: nat, x: Caller, m: Move)
    requires CanMove(env, s, x, m)
    ensures var t := Effect(env, s, c, x, m);
            && t.evictions == s.evictions
            && (forall n :: n in s.disk.names && n.Entry? ==> n in t.disk.names)
  {
  }

  /** A closure that has returned names its own entry. */
  lemma FinishingHolds(env: Env, s: State, c: nat, x: Caller, m: Move)
    requires CanMove(env, s, x, m) && Shape(x)
    requires x.pc.Finishing? ==> OutcomeHolds(x.pc.outcome, FKey(x.pc.role, KeyOf(x)), s.disk, s.evictions)
    ensures var y, t := Moved(env, s, x, m), Effect(env, s, c, x, m);
            y.pc.Finishing? ==> OutcomeHolds(y.pc.outcome, FKey(y.pc.role, KeyOf(y)), t.disk, t.evictions)
  {
  }

  /** Flights with a result after a move had it before, or got the outcome of the caller's closure. */
  lemma ResultsOfMove(env: Env, s: State, c: nat, x: Caller, m: Move)
    requires Flights(s.callers, s.active, s.flights) && c in s.callers && x == s.callers[c] && Shape(x) && CanMove(env, s, x, m)
    ensures var t := Effect(env, s, c, x, m);
            forall f :: f in t.flights && t.flights[f].result.Some? ==>
              || (f in s.flights && s.flights[f] == t.flights[f])
              || (x.pc.Finishing? && t.flights[f].id == FlightId(x) && t.flights[f].result == Some(x.pc.outcome))
  {
    if m.Publish? {
      var f := PublishMoves(env, s, c, x, m);
    }
    if Steady(m) {
      SteadyEffect(env, s, c, x, m);
    }
    hide Flights, Shape, Moved;
  }

  lemma OutcomesGathered(d: Disk, callers: map<nat, Caller>, flights: map<nat, Flight>, ev: seq<Eviction>, c: nat, x: Caller, y: Caller, flights': map<nat, Flight>)
    requires Outcomes(d, callers, flights, ev) && c in callers && x == callers[c]
    requires forall f :: f in flights' && flights'[f].result.Some? ==>
               || (f in flights && flights[f] == flights'[f])
               || (x.pc.Finishing? && flights'[f].id == FlightId(x) && flights'[f].result == Some(x.pc.outcome))
    requires y.pc.Finishing? ==> OutcomeHolds(y.pc.outcome, FKey(y.pc.role, KeyOf(y)), d, ev)
    ensures Outcomes(d, callers[c := y], flights', ev)
  {
    hide OutcomeHolds;
  }

  lemma OutcomesActed(env: Env, s: State, c: nat, x: Caller, m: Move)
    requires Flights(s.callers, s.active, s.flights) && Outcomes(s.disk, s.callers, s.flights, s.evictions)
    requires c in s.callers && x == s.callers[c] && Shape(x) && CanMove(env, s, x, m)
    ensures var t := Effect(env, s, c, x, m);
            Outcomes(t.disk, s.callers[c := Moved(env, s, x, m)], t.flights, t.evictions)
  {
    assert x.pc.Finishing? ==> OutcomeHolds(x.pc.outcome, FKey(x.pc.role, KeyOf(x)), s.disk, s.evictions);
    hide Flights, OutcomeHolds, Shape, Outcomes, Effect, Moved, CanMove;
    var t := Effect(env, s, c, x, m);
    OutcomesStep(env, s, c, x, m);
    OutcomesKeep(s.disk, t.disk, s.callers, s.flights, s.evictions, t.evictions);
    FinishingHolds(env, s, c, x, m);
    ResultsOfMove(env, s, c, x, m);
    OutcomesGathered(t.disk, s.callers, s.flights, t.evictions, c, x, Moved(env, s, x, m), t.flights);
  }

  lemma OutcomesUnlink(s: State)
    requires Outcomes(s.disk, s.callers, s.flights, s.evictions) && s.sweep.Some? && s.sweep.value.doomed.Some?
    ensures var t := UnlinkNext(s); Outcomes(t.disk, s.callers, s.flights, t.evictions)
  {
    var t, n := UnlinkNext(s), s.sweep.value.doomed.value.name;
    if n in s.disk.names {
      var j := |s.evictions|;
      assert t.evictions[j].name == n;
      assert EvictedSince(t.evictions, j, n);
    }
    OutcomesKeep(s.disk, t.disk, s.callers, s.flights, s.evictions, t.evictions);
  }

  lemma OutcomesKept(env: Env, s: State, a: Action)
    requires Shapes(s.callers) && Flights(s.callers, s.active, s.flights)
    requires Outcomes(s.disk, s.callers, s.flights, s.evictions) && Enabled(env, s, a)
    ensures var t := Next(env, s, a); Outcomes(t.disk, t.callers, t.flights, t.evictions)
  {
    hide Flights, Moved, Effect, CanMove, OutcomeHolds;
    match a
    case Act(c, m) => OutcomesActed(env, s, c, s.callers[c], m);
    case SweepUnlink => OutcomesUnlink(s);
    case _ =>
  }

  /** The log only grows. */
  lemma LogGrows(env: Env, s: State, a: Action)
    requires Enabled(env, s, a)
    ensures s.evictions <= Next(env, s, a).evictions
  {
    hide Moved, CanMove;
    if a.Act? {
      assert Effect(env, s, a.c, s.callers[a.c], a.m).evictions == s.evictions;
    }
  }

  // ---- misses after a flight ----

  lemma MissedGrows(x: Caller, flights: map<nat, Flight>, ev: seq<Eviction>, ev': seq<Eviction>)
    requires Missed(x, flights, ev) && ev <= ev'
    ensures Missed(x, flights, ev')
  {
  }

  lemma MissedMove(env: Env, s: State, c: nat, x: Caller, m: Move)
    requires CanMove(env, s, x, m) && Steady(m) && Missed(x, s.flights, s.evictions)
    requires Names(c, x, s.active, s.flights) && Outcomes(s.disk, s.callers, s.flights, s.evictions)
    ensures Missed(Moved(env, s, x, m), s.flights, s.evictions)
  {
    if x.pc.Look? && x.pc.pos.Again? {
      var f := x.pc.pos.fid;
      assert OutcomeHolds(s.flights[f].result.value, s.flights[f].id, s.disk, s.evictions);
    }
    hide Outcomes, EvictedSince;
  }

  /** Flights in progress are nobody's past. */
  lemma MissedElsewhere(c: nat, x: Caller, active: map<FKey, nat>, flights: map<nat, Flight>, ev: seq<Eviction>, f: nat, v: Flight)
    requires Missed(x, flights, ev) && Names(c, x, active, flights)
    requires f !in flights || flights[f].result.None?
    ensures Missed(x, flights[f := v], ev)
  {
    hide EvictedSince;
  }

  lemma MissesActed(env: Env, s: State, c: nat, x: Caller, m: Move)
    requires Flights(s.callers, s.active, s.flights) && Outcomes(s.disk, s.callers, s.flights, s.evictions)
    requires Misses(s.callers, s.flights, s.evictions)
    requires c in s.callers && x == s.callers[c] && Shape(x) && CanMove(env, s, x, m)
    ensures var t := Effect(env, s, c, x, m); Misses(s.callers[c := Moved(env, s, x, m)], t.flights, t.evictions)
  {
    var t := Effect(env, s, c, x, m);
    assert Names(c, x, s.active, s.flights) && Missed(x, s.flights, s.evictions);
    OutcomesStep(env, s, c, x, m);
    if Steady(m) {
      MissedMove(env, s, c, x, m);
      SteadyEffect(env, s, c, x, m);
      hide Flights, Outcomes, Missed, Effect, Moved, CanMove;
    } else {
      assert Executes(c, x, Objects, s.active, s.flights) && Executes(c, x, CabSynth, s.active, s.flights);
      assert Missed(Moved(env, s, x, m), t.flights, t.evictions);
      forall e | e in s.callers ensures Missed(s.callers[e], t.flights, t.evictions) {
        assert Names(e, s.callers[e], s.active, s.flights) && Missed(s.callers[e], s.flights, s.evictions);
        if m.Publish? {
          var f := Executing(x, x.pc.role).value;
          MissedElsewhere(e, s.callers[e], s.active, s.flights, s.evictions, f, s.flights[f].(result := Some(x.pc.outcome)));
        } else {
          MissedElsewhere(e, s.callers[e], s.active, s.flights, s.evictions, m.fid, Flight(FlightId(x), c, None));
        }
      }
      hide Flights, Outcomes, Missed, Effect, Moved, CanMove;
    }
  }

  lemma MissesKept(env: Env, s: State, a: Action)
    requires Shapes(s.callers) && Flights(s.callers, s.active, s.flights)
    requires Outcomes(s.disk, s.callers, s.flights, s.evictions)
    requires Misses(s.callers, s.flights, s.evictions) && Enabled(env, s, a)
    ensures var t := Next(env, s, a); Misses(t.callers, t.flights, t.evictions)
  {
    hide Flights, Moved, Effect, CanMove, Outcomes;
    match a
    case Act(c, m) =>
      MissesActed(env, s, c, s.callers[c], m);
    case Arrive(c, req, compressed) =>
      assert Missed(NewCaller(req, compressed), s.flights, s.evictions);
      hide Missed;
    case SweepUnlink =>
      forall c | c in s.callers ensures Missed(s.callers[c], s.flights, UnlinkNext(s).evictions) {
        MissedGrows(s.callers[c], s.flights, s.evictions, UnlinkNext(s).evictions);
      }
      hide Missed;
    case _ =>
      hide Missed;
  }

  // ---- staging files ----

  lemma StagingActed(env: Env, s: State, c: nat, x: Caller, m: Move)
    requires Files(s.disk, s.callers, s.usedTemps) && Staging(s.disk, s.callers, s.orphans, s.usedTemps)
    requires c in s.callers && x == s.callers[c] && Shape(x) && CanMove(env, s, x, m)
    ensures var t := Effect(env, s, c, x, m);
            Staging(t.disk, s.callers[c := Moved(env, s, x, m)], t.orphans, t.usedTemps)
  {
    var y, t, next := Moved(env, s, x, m), Effect(env, s, c, x, m), s.callers[c := Moved(env, s, x, m)];
    StagedNames(env, s, c, x, m);
    hide Files, Shape, Moved, Effect, CanMove;
    forall n | Staged(n) in t.disk.names && n !in t.orphans
      ensures exists e :: e in next && next[e].tmp.Some? && next[e].tmp.value.n == n
    {
      if y.tmp.Some? && y.tmp.value.n == n {
        assert next[c].tmp.Some?;
      } else {
        var e :| e in s.callers && s.callers[e].tmp.Some? && s.callers[e].tmp.value.n == n;
        assert next[e].tmp.Some?;
      }
    }
  }

  lemma StagedBefore(env: Env, s: State, c: nat, x: Caller, m: Move)
    requires CanMove(env, s, x, m)
    ensures var t := Effect(env, s, c, x, m);
            && t.orphans == s.orphans && t.usedTemps == (if m.CreateTemp? then s.usedTemps + {m.n} else s.usedTemps)
            && (forall n :: Staged(n) in t.disk.names ==> Staged(n) in s.disk.names || (m.CreateTemp? && m.n == n))
            && (m.CommitOk? || m.Cleanup? ==> x.tmp.Some? && Staged(x.tmp.value.n) !in t.disk.names)
            && (m.CreateTemp? ==> m.n !in s.usedTemps)
  {
  }

  lemma TempAfter(env: Env, s: State, x: Caller, m: Move)
    requires CanMove(env, s, x, m)
    ensures var y := Moved(env, s, x, m);
            if m.CreateTemp? then x.pc.NewTemp? && y.tmp == Some(Temp(m.n, m.ino))
            else if m.CommitOk? || m.Cleanup? then y.tmp.None?
            else y.tmp == x.tmp
  {
  }

  /** What a move does to staging names: they appear with their owner, and go with it. */
  lemma StagedNames(env: Env, s: State, c: nat, x: Caller, m: Move)
    requires c in s.callers && x == s.callers[c] && Shape(x) && CanMove(env, s, x, m)
    ensures var y, t := Moved(env, s, x, m), Effect(env, s, c, x, m);
            && t.orphans == s.orphans && s.usedTemps <= t.usedTemps
            && (y.tmp.Some? && y.tmp != x.tmp ==> y.tmp.value.n !in s.usedTemps && y.tmp.value.n in t.usedTemps)
            && (forall n :: Staged(n) in t.disk.names ==> Staged(n) in s.disk.names || (y.tmp.Some? && y.tmp.value.n == n))
            && (forall n :: x.tmp.Some? && x.tmp.value.n == n && Staged(n) in t.disk.names ==> y.tmp == x.tmp)
  {
    StagedBefore(env, s, c, x, m);
    TempAfter(env, s, x, m);
    hide Moved, Effect, CanMove;
  }

  lemma StagingKept(env: Env, s: State, a: Action)
    requires Shapes(s.callers) && Files(s.disk, s.callers, s.usedTemps) && Enabled(env, s, a)
    requires Staging(s.disk, s.callers, s.orphans, s.usedTemps)
    ensures var t := Next(env, s, a); Staging(t.disk, t.callers, t.orphans, t.usedTemps)
  {
    match a
    case Act(c, m) =>
      hide Files, Moved, Effect, CanMove, Staging;
      StagingActed(env, s, c, s.callers[c], m);
    case Arrive(c, req, compressed) =>
      hide Files;
      StagingArrive(s.disk, s.callers, s.orphans, s.usedTemps, c, NewCaller(req, compressed));
    case Leave(c) =>
      assert Shape(s.callers[c]);
      hide Files, Shapes;
      StagingLeave(s.disk, s.callers, s.orphans, s.usedTemps, c);
    case _ =>
      hide Shape, OwnsTemp, Holds;
  }

  lemma StagingArrive(d: Disk, callers: map<nat, Caller>, orphans: set<nat>, used: set<nat>, c: nat, y: Caller)
    requires Staging(d, callers, orphans, used) && c !in callers && y.tmp.None?
    ensures Staging(d, callers[c := y], orphans, used)
  {
    var next := callers[c := y];
    forall n | Staged(n) in d.names && n !in orphans
      ensures exists e :: e in next && next[e].tmp.Some? && next[e].tmp.value.n == n
    {
      var e :| e in callers && callers[e].tmp.Some? && callers[e].tmp.value.n == n;
      assert next[e].tmp.Some?;
    }
  }

  lemma StagingLeave(d: Disk, callers: map<nat, Caller>, orphans: set<nat>, used: set<nat>, c: nat)
    requires Staging(d, callers, orphans, used) && c in callers && callers[c].tmp.None?
    ensures Staging(d, callers - {c}, orphans, used)
  {
    var next := callers - {c};
    forall n | Staged(n) in d.names && n !in orphans
      ensures exists e :: e in next && next[e].tmp.Some? && next[e].tmp.value.n == n
    {
      var e :| e in callers && callers[e].tmp.Some? && callers[e].tmp.value.n == n;
      assert next[e].tmp.Some?;
    }
  }

  // ---- what a sweep still has to find ----

  lemma SweepFindsActed(env: Env, s: State, c: nat, x: Caller, m: Move)
    requires Files(s.disk, s.callers, s.usedTemps) && Times(env, s) && SweepFinds(s.disk, s.sweep, s.orphans)
    requires Staging(s.disk, s.callers, s.orphans, s.usedTemps)
    requires c in s.callers && x == s.callers[c] && Shape(x) && CanMove(env, s, x, m)
    ensures var t := Effect(env, s, c, x, m); SweepFinds(t.disk, t.sweep, t.orphans)
  {
    var t := Effect(env, s, c, x, m);
    TimesOfMove(env, s, c, x, m);
    assert OwnsTemp(x, s.disk, s.usedTemps);
    assert m.TouchEntry? ==> Looking(x).Entry?;
    forall n | n in t.orphans && Staged(n) in t.disk.names
      ensures Staged(n) in s.disk.names && t.disk.names[Staged(n)] == s.disk.names[Staged(n)]
      ensures t.disk.names[Staged(n)] in t.disk.inodes
    {
    }
    hide Effect, CanMove, Shape, Staging, OwnsTemp, Frozen, Holds;
  }

  lemma SweepFindsKept(env: Env, s: State, a: Action)
    requires Shapes(s.callers) && Files(s.disk, s.callers, s.usedTemps) && Times(env, s)
    requires Staging(s.disk, s.callers, s.orphans, s.usedTemps)
    requires SweepFinds(s.disk, s.sweep, s.orphans) && Enabled(env, s, a)
    ensures var t := Next(env, s, a); SweepFinds(t.disk, t.sweep, t.orphans)
  {
    hide Files, Moved, Effect, CanMove, Staging;
    match a
    case Act(c, m) =>
      hide SweepFinds;
      SweepFindsActed(env, s, c, s.callers[c], m);
    case _ =>
  }

  // ---- all together ----

  lemma InvInitial(env: Env, s: State)
    requires Initial(s)
    ensures Inv(env, s)
  {
    assert Sizes(s.disk) == map[];
    assert Settled(s.flights, s.okReturns) == {};
  }

  lemma InvStep(env: Env, s: State, a: Action)
    requires Inv(env, s) && Enabled(env, s, a)
    ensures Inv(env, Next(env, s, a))
  {
    hide Next, Enabled, Shapes, Flights, Files, Contents, Gauges, Outcomes, Misses, Staging, SweepFinds, Times, Dates, Counts;
    ShapeKept(env, s, a);
    FlightsKept(env, s, a);
    FilesKept(env, s, a);
    ContentsKept(env, s, a);
    GaugesKept(env, s, a);
    OutcomesKept(env, s, a);
    MissesKept(env, s, a);
    StagingKept(env, s, a);
    SweepFindsKept(env, s, a);
    TimesKept(env, s, a);
    DatesKept(env, s, a);
    CountsKept(env, s, a);
  }

  lemma {:induction false} InvRun(env: Env, s: State, acts: seq<Action>, t: State)
    requires Inv(env, s) && Run(env, s, acts, t)
    ensures Inv(env, t)
    decreases |acts|
  {
    hide Inv, Next, Enabled;
    if acts != [] {
      InvStep(env, s, acts[0]);
      InvRun(env, Next(env, s, acts[0]), acts[1..], t);
    }
  }

  /** The invariant holds in every reachable state, for every interleaving. */
  lemma InvReachable(env: Env, s: State)
    requires Reachable(env, s)
    ensures Inv(env, s)
  {
    var s0: State, acts: seq<Action> :| Initial(s0) && Run(env, s0, acts, s);
    InvInitial(env, s0);
    hide Inv, Run, Next, Enabled;
    InvRun(env, s0, acts, s);
  }

  // ---- putting runs together ----

  lemma RunStarts(env: Env, s: State, a: Action, acts: seq<Action>, t: State)
    requires Enabled(env, s, a) && Run(env, Next(env, s, a), acts, t)
    ensures Run(env, s, [a] + acts, t)
  {
    hide Enabled, Next;
    assert ([a] + acts)[1..] == acts;
  }

  lemma {:induction false} RunExtends(env: Env, s: State, acts: seq<Action>, t: State, a: Action)
    requires Run(env, s, acts, t) && Enabled(env, t, a)
    ensures Run(env, s, acts + [a], Next(env, t, a))
    decreases |acts|
  {
    hide Enabled, Next;
    if acts == [] {
      assert Run(env, Next(env, t, a), [], Next(env, t, a));
      assert ([a])[1..] == [];
    } else {
      RunExtends(env, Next(env, s, acts[0]), acts[1..], t, a);
      assert (acts + [a])[0] == acts[0] && (acts + [a])[1..] == acts[1..] + [a];
    }
  }

  lemma ReachableStep(env: Env, s: State, a: Action)
    requires Reachable(env, s) && Enabled(env, s, a)
    ensures Reachable(env, Next(env, s, a))
  {
    hide Enabled, Next, Run, Initial;
    var s0: State, acts: seq<Action> :| Initial(s0) && Run(env, s0, acts, s);
    RunExtends(env, s0, acts, s, a);
  }

  lemma {:induction false} RunsJoin(env: Env, s: State, acts: seq<Action>, t: State, more: seq<Action>, u: State)
    requires Run(env, s, acts, t) && Run(env, t, more, u)
    ensures Run(env, s, acts + more, u)
    decreases |acts|
  {
    hide Enabled, Next;
    if acts == [] {
      assert acts + more == more;
    } else {
      RunsJoin(env, Next(env, s, acts[0]), acts[1..], t, more, u);
      assert (acts + more)[0] == acts[0] && (acts + more)[1..] == acts[1..] + more;
    }
  }

  lemma ReachableRun(env: Env, s: State, acts: seq<Action>, t: State)
    requires Reachable(env, s) && Run(env, s, acts, t)
    ensures Reachable(env, t)
  {
    var s0: State, before: seq<Action> :| Initial(s0) && Run(env, s0, before, s);
    hide Run, Initial;
    RunsJoin(env, s0, before, s, acts, t);
  }
}
