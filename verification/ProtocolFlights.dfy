/** Every step keeps the shapes of callers, the flights and the counting of returns. */
module ProtocolFlights {
  import opened Prelude
  import opened CacheKeys
  import opened Protocol
  import opened ProtocolInv

  // ---- shapes ----

  lemma MovedShape(env: Env, s: State, x: Caller, m: Move)
    requires Shape(x) && CanMove(env, s, x, m)
    ensures Shape(Moved(env, s, x, m))
    ensures Moved(env, s, x, m).req == x.req && Moved(env, s, x, m).compressed == x.compressed
  {
    var y := Moved(env, s, x, m);
    match m
    case Publish => assert Shape(y);
    case EnterFlight(_) => assert Shape(y);
    case Return => assert Shape(y);
    case LookMiss => assert Shape(y);
    case LookHit => assert Shape(y);
    case _ => assert Shape(y);
  }

  lemma ShapeKept(env: Env, s: State, a: Action)
    requires Shapes(s.callers) && Enabled(env, s, a)
    ensures Shapes(Next(env, s, a).callers)
  {
    if a.Act? {
      MovedShape(env, s, s.callers[a.c], a.m);
      hide Moved, Effect, CanMove, Shape;
    }
  }

  // ---- flights ----

  /** A move that neither starts nor ends a flight. */
  predicate Steady(m: Move) {
    !m.EnterFlight? && !m.Publish?
  }

  lemma SteadyMove(env: Env, s: State, c: nat, x: Caller, m: Move)
    requires CanMove(env, s, x, m) && Shape(x) && Steady(m) && Names(c, x, s.active, s.flights)
    ensures var y := Moved(env, s, x, m);
            y.objFlight == x.objFlight && y.cabFlight == x.cabFlight && Names(c, y, s.active, s.flights)
  {
  }

  lemma SteadyEffect(env: Env, s: State, c: nat, x: Caller, m: Move)
    requires CanMove(env, s, x, m) && Steady(m)
    ensures var t := Effect(env, s, c, x, m); t.active == s.active && t.flights == s.flights
  {
  }

  lemma FlightsSteady(callers: map<nat, Caller>, active: map<FKey, nat>, flights: map<nat, Flight>, c: nat, y: Caller)
    requires Flights(callers, active, flights) && c in callers
    requires y.req == callers[c].req && y.objFlight == callers[c].objFlight && y.cabFlight == callers[c].cabFlight
    requires Names(c, y, active, flights)
    ensures Flights(callers[c := y], active, flights)
  {
    hide Names;
  }

  lemma FlightsJoin(s: State, c: nat, x: Caller, y: Caller)
    requires Flights(s.callers, s.active, s.flights) && c in s.callers && x == s.callers[c]
    requires Shape(x) && x.pc.Enter? && FlightId(x) in s.active
    requires y == x.(pc := Await(x.pc.role, s.active[FlightId(x)]))
    ensures Flights(s.callers[c := y], s.active, s.flights)
  {
    assert ActiveFlight(FlightId(x), s.active[FlightId(x)], s.callers, s.flights);
    FlightsSteady(s.callers, s.active, s.flights, c, y);
  }

  lemma NamesGrow(c: nat, x: Caller, active: map<FKey, nat>, flights: map<nat, Flight>, id: FKey, fid: nat, f: Flight)
    requires Names(c, x, active, flights) && fid !in flights && id !in active
    ensures Names(c, x, active[id := fid], flights[fid := f])
  {
  }

  lemma FlightsStart(s: State, c: nat, x: Caller, fid: nat, y: Caller)
    requires Flights(s.callers, s.active, s.flights) && c in s.callers && x == s.callers[c] && fid !in s.flights
    requires Shape(x) && x.pc.Enter? && FlightId(x) !in s.active
    requires y == SetExecuting(x, x.pc.role, Some(fid)).(pc := if x.pc.role == Objects then Resolving else Look(Objects, First))
    ensures Flights(s.callers[c := y], s.active[FlightId(x) := fid], s.flights[fid := Flight(FlightId(x), c, None)])
  {
    var id := FlightId(x);
    var callers, active, flights := s.callers[c := y], s.active[id := fid], s.flights[fid := Flight(id, c, None)];
    forall e | e in callers
      ensures Executes(e, callers[e], Objects, active, flights) && Executes(e, callers[e], CabSynth, active, flights)
              && Names(e, callers[e], active, flights)
    {
      assert Executes(e, s.callers[e], Objects, s.active, s.flights);
      assert Executes(e, s.callers[e], CabSynth, s.active, s.flights);
      NamesGrow(e, s.callers[e], s.active, s.flights, id, fid, Flight(id, c, None));
    }
    forall k | k in active ensures ActiveFlight(k, active[k], callers, flights) {
      if k != id {
        assert ActiveFlight(k, s.active[k], s.callers, s.flights);
      }
    }
  }

  lemma FlightsPublish(s: State, c: nat, x: Caller, f: nat, y: Caller)
    requires Flights(s.callers, s.active, s.flights) && c in s.callers && x == s.callers[c] && f in s.flights
    requires Shape(x) && x.pc.Finishing? && Executing(x, x.pc.role) == Some(f)
    requires y.req == x.req && y.pc == Returning(x.pc.role, f, true)
    requires y.objFlight == SetExecuting(x, x.pc.role, None).objFlight
    requires y.cabFlight == SetExecuting(x, x.pc.role, None).cabFlight
    ensures Flights(s.callers[c := y], s.active - {FlightId(x)}, s.flights[f := s.flights[f].(result := Some(x.pc.outcome))])
  {
    var id := FlightId(x);
    var callers, active, flights :=
      s.callers[c := y], s.active - {id}, s.flights[f := s.flights[f].(result := Some(x.pc.outcome))];
    assert Executes(c, x, Objects, s.active, s.flights) && Executes(c, x, CabSynth, s.active, s.flights);
    assert s.flights[f] == Flight(id, c, None) && s.active[id] == f;
    forall e | e in callers
      ensures Executes(e, callers[e], Objects, active, flights) && Executes(e, callers[e], CabSynth, active, flights)
              && Names(e, callers[e], active, flights)
    {
      assert Executes(e, s.callers[e], Objects, s.active, s.flights);
      assert Executes(e, s.callers[e], CabSynth, s.active, s.flights);
      NamesPublished(e, s.callers[e], s.active, s.flights, id, f, x.pc.outcome);
    }
    forall k | k in active ensures ActiveFlight(k, active[k], callers, flights) {
      assert ActiveFlight(k, s.active[k], s.callers, s.flights);
    }
  }

  lemma NamesPublished(c: nat, x: Caller, active: map<FKey, nat>, flights: map<nat, Flight>, id: FKey, f: nat, o: Outcome)
    requires Names(c, x, active, flights) && f in flights && flights[f].result.None? && id in active && active[id] == f
    ensures Names(c, x, active - {id}, flights[f := flights[f].(result := Some(o))])
  {
  }

  lemma FlightsActed(env: Env, s: State, c: nat, x: Caller, m: Move)
    requires Shapes(s.callers) && Flights(s.callers, s.active, s.flights)
    requires c in s.callers && x == s.callers[c] && CanMove(env, s, x, m)
    ensures var t := Effect(env, s, c, x, m);
            Flights(s.callers[c := Moved(env, s, x, m)], t.active, t.flights)
  {
    var y := Moved(env, s, x, m);
    if m.EnterFlight? {
      if FlightId(x) in s.active {
        FlightsJoin(s, c, x, y);
      } else {
        FlightsStart(s, c, x, m.fid, y);
      }
    } else if m.Publish? {
      FlightsPublish(s, c, x, Executing(x, x.pc.role).value, y);
    } else {
      SteadyMove(env, s, c, x, m);
      SteadyEffect(env, s, c, x, m);
      MovedShape(env, s, x, m);
      hide Moved, Effect, CanMove, Shape, Names;
      FlightsSteady(s.callers, s.active, s.flights, c, y);
    }
  }

  lemma FlightsKept(env: Env, s: State, a: Action)
    requires Shapes(s.callers) && Flights(s.callers, s.active, s.flights) && Enabled(env, s, a)
    ensures Flights(Next(env, s, a).callers, Next(env, s, a).active, Next(env, s, a).flights)
  {
    hide Flights, Moved, Effect, CanMove;
    match a
    case Act(c, m) =>
      FlightsActed(env, s, c, s.callers[c], m);
    case Arrive(c, req, compressed) =>
      FlightsArrive(s.callers, s.active, s.flights, c, NewCaller(req, compressed));
    case Leave(c) =>
      assert Shape(s.callers[c]);
      FlightsLeave(s.callers, s.active, s.flights, c);
    case Restart(_) =>
      assert Flights(map[], map[], map[]) by { NoFlights(); }
    case _ =>
  }

  lemma NoFlights()
    ensures Flights(map[], map[], map[])
  {
  }

  lemma FlightsArrive(callers: map<nat, Caller>, active: map<FKey, nat>, flights: map<nat, Flight>, c: nat, y: Caller)
    requires Flights(callers, active, flights) && c !in callers
    requires y.objFlight.None? && y.cabFlight.None? && y.pc.Look? && y.pc.pos.First?
    ensures Flights(callers[c := y], active, flights)
  {
    assert Names(c, y, active, flights);
    hide Names;
  }

  lemma FlightsLeave(callers: map<nat, Caller>, active: map<FKey, nat>, flights: map<nat, Flight>, c: nat)
    requires Flights(callers, active, flights) && c in callers
    requires callers[c].objFlight.None? && callers[c].cabFlight.None?
    ensures Flights(callers - {c}, active, flights)
  {
    hide Names;
  }

  // ---- counting ----

  /** A caller that does not leave `Returning` keeps every flight accounted for. */
  lemma CountsQuiet(callers: map<nat, Caller>, flights: map<nat, Flight>, co: nat, ok: set<(nat, nat)>, c: nat, y: Caller)
    requires Counts(callers, flights, co, ok) && Past(c, y, ok)
    requires c in callers ==> !callers[c].pc.Returning? || !Succeeded(callers[c].pc.fid, flights)
    ensures Counts(callers[c := y], flights, co, ok)
  {
    hide Past;
  }

  lemma CountsLeave(callers: map<nat, Caller>, flights: map<nat, Flight>, co: nat, ok: set<(nat, nat)>, c: nat)
    requires Counts(callers, flights, co, ok) && c in callers && callers[c].pc.Done?
    ensures Counts(callers - {c}, flights, co, ok)
  {
    hide Past;
  }

  lemma CountsStart(callers: map<nat, Caller>, flights: map<nat, Flight>, co: nat, ok: set<(nat, nat)>,
                    c: nat, y: Caller, fid: nat, f: Flight)
    requires Counts(callers, flights, co, ok) && c in callers && callers[c].pc.Enter? && fid !in flights && f.result.None?
    requires !y.pc.Await? && !y.pc.Returning?
    ensures Counts(callers[c := y], flights[fid := f], co, ok)
  {
    assert Settled(flights[fid := f], ok) == Settled(flights, ok);
  }

  lemma CountsPublish(callers: map<nat, Caller>, flights: map<nat, Flight>, co: nat, ok: set<(nat, nat)>,
                      c: nat, y: Caller, f: nat, o: Outcome)
    requires Counts(callers, flights, co, ok) && c in callers && callers[c].pc.Finishing?
    requires f in flights && flights[f].result.None? && flights[f].executor == c && y.pc.Returning? && y.pc.fid == f
    ensures Counts(callers[c := y], flights[f := flights[f].(result := Some(o))], co, ok)
  {
    assert (c, f) !in ok;
    assert Settled(flights[f := flights[f].(result := Some(o))], ok) == Settled(flights, ok);
  }

  /** A nil return: the executor's settles its flight, a follower's is coalesced. */
  lemma CountsReturn(callers: map<nat, Caller>, flights: map<nat, Flight>, co: nat, ok: set<(nat, nat)>,
                     c: nat, y: Caller, f: nat, executed: bool)
    requires Counts(callers, flights, co, ok) && c in callers
    requires callers[c].pc.Returning? && callers[c].pc.fid == f && callers[c].pc.executed == executed
    requires Succeeded(f, flights) && (executed <==> flights[f].executor == c) && !y.pc.Await? && !y.pc.Returning?
    ensures Counts(callers[c := y], flights, co + (if executed then 0 else 1), ok + {(c, f)})
  {
    assert Past(c, callers[c], ok);
    var all, next := ok + {(c, f)}, callers[c := y];
    assert Settled(flights, all) == Settled(flights, ok) + if executed then {f} else {};
    forall e | e in next ensures Past(e, next[e], all) {
      if e != c { assert Past(e, callers[e], ok); }
    }
    forall g | g in flights ensures Accounted(g, next, flights, all) {
      assert Accounted(g, callers, flights, ok);
    }
  }

  lemma SteadyPast(env: Env, s: State, c: nat, x: Caller, m: Move)
    requires CanMove(env, s, x, m) && Steady(m) && Past(c, x, s.okReturns)
    ensures Past(c, Moved(env, s, x, m), s.okReturns)
  {
  }

  lemma SteadyCounts(env: Env, s: State, c: nat, x: Caller, m: Move)
    requires CanMove(env, s, x, m) && !m.Return?
    ensures var t := Effect(env, s, c, x, m); t.coalesced == s.coalesced && t.okReturns == s.okReturns
  {
  }

  /** Nobody has returned from a flight without a result. */
  lemma CountsUnresolved(callers: map<nat, Caller>, flights: map<nat, Flight>, co: nat, ok: set<(nat, nat)>, c: nat, f: nat)
    requires Counts(callers, flights, co, ok) && f in flights && flights[f].result.None?
    ensures (c, f) !in ok
  {
    assert (c, f) in ok ==> Succeeded((c, f).1, flights);
  }

  lemma CountsEntered(env: Env, s: State, c: nat, x: Caller, m: Move)
    requires Flights(s.callers, s.active, s.flights) && Counts(s.callers, s.flights, s.coalesced, s.okReturns)
    requires c in s.callers && x == s.callers[c] && CanMove(env, s, x, m) && m.EnterFlight?
    ensures Counts(s.callers[c := Moved(env, s, x, m)], Effect(env, s, c, x, m).flights, s.coalesced, s.okReturns)
  {
    var y := Moved(env, s, x, m);
    hide Counts;
    if FlightId(x) in s.active {
      var f := s.active[FlightId(x)];
      assert ActiveFlight(FlightId(x), f, s.callers, s.flights);
      hide Flights, ActiveFlight;
      CountsUnresolved(s.callers, s.flights, s.coalesced, s.okReturns, c, f);
      CountsQuiet(s.callers, s.flights, s.coalesced, s.okReturns, c, y);
    } else {
      CountsStart(s.callers, s.flights, s.coalesced, s.okReturns, c, y, m.fid, Flight(FlightId(x), c, None));
    }
  }

  lemma PublishMoves(env: Env, s: State, c: nat, x: Caller, m: Move) returns (f: nat)
    requires Flights(s.callers, s.active, s.flights)
    requires c in s.callers && x == s.callers[c] && Shape(x) && CanMove(env, s, x, m) && m.Publish?
    ensures x.pc.Finishing? && f in s.flights && s.flights[f] == Flight(FlightId(x), c, None)
    ensures Moved(env, s, x, m).pc == Returning(x.pc.role, f, true)
    ensures Effect(env, s, c, x, m).flights == s.flights[f := s.flights[f].(result := Some(x.pc.outcome))]
  {
    f := Executing(x, x.pc.role).value;
    assert Executes(c, x, Objects, s.active, s.flights) && Executes(c, x, CabSynth, s.active, s.flights);
    hide Flights;
  }

  lemma CountsPublished(env: Env, s: State, c: nat, x: Caller, m: Move)
    requires Flights(s.callers, s.active, s.flights) && Counts(s.callers, s.flights, s.coalesced, s.okReturns)
    requires c in s.callers && x == s.callers[c] && Shape(x) && CanMove(env, s, x, m) && m.Publish?
    ensures Counts(s.callers[c := Moved(env, s, x, m)], Effect(env, s, c, x, m).flights, s.coalesced, s.okReturns)
  {
    hide Counts, Flights, Shape, Moved, Effect, CanMove;
    var f := PublishMoves(env, s, c, x, m);
    CountsPublish(s.callers, s.flights, s.coalesced, s.okReturns, c, Moved(env, s, x, m), f, x.pc.outcome);
  }

  lemma CountsReturned(env: Env, s: State, c: nat, x: Caller, m: Move)
    requires Names(c, x, s.active, s.flights) && Counts(s.callers, s.flights, s.coalesced, s.okReturns)
    requires c in s.callers && x == s.callers[c] && Shape(x) && CanMove(env, s, x, m) && m.Return?
    ensures var t := Effect(env, s, c, x, m);
            Counts(s.callers[c := Moved(env, s, x, m)], s.flights, t.coalesced, t.okReturns)
  {
    var y := Moved(env, s, x, m);
    assert Past(c, x, s.okReturns);
    hide Counts;
    if ResultOf(x, s.flights).value.Ok? {
      CountsReturn(s.callers, s.flights, s.coalesced, s.okReturns, c, y, x.pc.fid, x.pc.executed);
    } else {
      SteadyPast(env, s, c, x, m);
      CountsQuiet(s.callers, s.flights, s.coalesced, s.okReturns, c, y);
    }
  }

  lemma CountsActed(env: Env, s: State, c: nat, x: Caller, m: Move)
    requires Shapes(s.callers) && Flights(s.callers, s.active, s.flights) && Counts(s.callers, s.flights, s.coalesced, s.okReturns)
    requires c in s.callers && x == s.callers[c] && CanMove(env, s, x, m)
    ensures var t := Effect(env, s, c, x, m);
            Counts(s.callers[c := Moved(env, s, x, m)], t.flights, t.coalesced, t.okReturns)
  {
    assert Shape(x) && Names(c, x, s.active, s.flights);
    if !m.Return? { SteadyCounts(env, s, c, x, m); }
    if Steady(m) { SteadyEffect(env, s, c, x, m); }
    if m.EnterFlight? {
      CountsEntered(env, s, c, x, m);
    } else if m.Publish? {
      CountsPublished(env, s, c, x, m);
    } else if m.Return? {
      CountsReturned(env, s, c, x, m);
    } else {
      assert Past(c, x, s.okReturns);
      SteadyPast(env, s, c, x, m);
      CountsQuiet(s.callers, s.flights, s.coalesced, s.okReturns, c, Moved(env, s, x, m));
    }
  }

  lemma CountsKept(env: Env, s: State, a: Action)
    requires Shapes(s.callers) && Flights(s.callers, s.active, s.flights) && Counts(s.callers, s.flights, s.coalesced, s.okReturns)
    requires Enabled(env, s, a)
    ensures var t := Next(env, s, a); Counts(t.callers, t.flights, t.coalesced, t.okReturns)
  {
    hide Counts, Flights, Shapes, Moved, Effect, CanMove;
    match a
    case Act(c, m) =>
      CountsActed(env, s, c, s.callers[c], m);
    case Arrive(c, req, compressed) =>
      CountsQuiet(s.callers, s.flights, s.coalesced, s.okReturns, c, NewCaller(req, compressed));
    case Leave(c) =>
      CountsLeave(s.callers, s.flights, s.coalesced, s.okReturns, c);
    case Restart(_) =>
      assert Counts(map[], map[], 0, {}) by { NoCounts(); }
    case _ =>
  }

  lemma NoCounts()
    ensures Counts(map[], map[], 0, {})
  {
    assert Settled(map[], {}) == {};
  }
}
