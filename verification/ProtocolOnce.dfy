/** When an object is downloaded again although it is there. */
module ProtocolOnce {
  import opened Symstore
  import opened CacheKeys
  import opened Disk
  import opened Protocol
  import opened ProtocolInv
  import opened ProtocolSteps
  import opened ProtocolRuns
  import opened ProtocolProgress

  /** The caller has looked for the object in vain and will download it, or is doing so. */
  predicate HasMissed(x: Caller) {
    x.pc == Enter(Objects) || x.objFlight.Some?
  }

  /** The caller is at, in or behind an `objects` flight. */
  predicate AtFlight(x: Caller) {
    HasMissed(x) || (x.pc.Await? && x.pc.role == Objects)
  }

  ghost predicate Arrives(acts: seq<Action>, c: nat) {
    exists i :: 0 <= i < |acts| && acts[i].Arrive? && acts[i].c == c
  }

  /** The run from `s` to `t` evicts no file of that name. */
  ghost predicate Keeps(s: State, t: State, n: Name) {
    s.evictions <= t.evictions && forall j :: |s.evictions| <= j < |t.evictions| ==> t.evictions[j].name != n
  }

  // ---- with the entry in place nobody starts to miss ----

  lemma NoNewMiss(env: Env, s: State, x: Caller, m: Move)
    requires CanMove(env, s, x, m) && Entry(Objects, KeyOf(x)) in s.disk.names
    ensures HasMissed(Moved(env, s, x, m)) ==> HasMissed(x)
    ensures AtFlight(Moved(env, s, x, m)) ==> AtFlight(x)
    ensures Moved(env, s, x, m).req == x.req
  {
  }

  lemma KeptByMove(env: Env, s: State, c: nat, x: Caller, m: Move, n: Name)
    requires CanMove(env, s, x, m) && n.Entry?
    ensures n in s.disk.names ==> n in Effect(env, s, c, x, m).disk.names
    ensures Effect(env, s, c, x, m).evictions == s.evictions
  {
  }

  lemma KeptByStep(env: Env, s: State, a: Action, n: Name)
    requires Enabled(env, s, a) && n.Entry? && n in s.disk.names
    ensures s.evictions <= Next(env, s, a).evictions
    ensures Keeps(s, Next(env, s, a), n) ==> n in Next(env, s, a).disk.names
  {
    hide Moved, Effect, CanMove;
    if a.Act? {
      KeptByMove(env, s, a.c, s.callers[a.c], a.m, n);
    } else if a.SweepUnlink? {
      var t := Next(env, s, a);
      assert t.evictions != s.evictions ==> t.evictions[|s.evictions|].name == s.sweep.value.doomed.value.name;
    }
  }

  lemma CallerBefore(env: Env, s: State, a: Action, c: nat)
    requires Enabled(env, s, a) && c in Next(env, s, a).callers
    ensures var y := Next(env, s, a).callers[c];
            || (a.Arrive? && a.c == c && !AtFlight(y))
            || (c in s.callers && y == s.callers[c])
            || (a.Act? && a.c == c && c in s.callers && y == Moved(env, s, s.callers[c], a.m))
  {
    hide Moved, Effect, CanMove;
  }

  lemma {:induction false} KeepsAlong(env: Env, s: State, acts: seq<Action>, t: State)
    requires Run(env, s, acts, t)
    ensures s.evictions <= t.evictions
    decreases |acts|
  {
    hide Enabled, Next;
    if acts != [] {
      LogGrows(env, s, acts[0]);
      KeepsAlong(env, Next(env, s, acts[0]), acts[1..], t);
    }
  }

  lemma KeepsSplit(s: State, u: State, t: State, n: Name)
    requires Keeps(s, t, n) && s.evictions <= u.evictions <= t.evictions
    ensures Keeps(s, u, n) && Keeps(u, t, n)
  {
    forall j | |s.evictions| <= j < |u.evictions| ensures u.evictions[j].name != n {
      assert u.evictions[j] == t.evictions[j];
    }
  }

  /**
    From a state in which the object is committed, over any run that does not evict it: whoever
    downloads it has missed before that state, and is still the same caller.
  */
  lemma {:induction false} DownloadersMissedBefore(env: Env, s: State, acts: seq<Action>, t: State, c: nat, key: Key)
    requires Run(env, s, acts, t) && Entry(Objects, key) in s.disk.names && Keeps(s, t, Entry(Objects, key))
    requires c in t.callers && KeyOf(t.callers[c]) == key && HasMissed(t.callers[c])
    ensures !Arrives(acts, c) && c in s.callers && KeyOf(s.callers[c]) == key && HasMissed(s.callers[c])
    decreases |acts|
  {
    hide Enabled, Next, CacheKey;
    if acts != [] {
      var a, u, n := acts[0], Next(env, s, acts[0]), Entry(Objects, key);
      LogGrows(env, s, a);
      KeepsAlong(env, u, acts[1..], t);
      KeepsSplit(s, u, t, n);
      KeptByStep(env, s, a, n);
      DownloadersMissedBefore(env, u, acts[1..], t, c, key);
      MissedBeforeStep(env, s, a, c, key);
      forall i | 0 <= i < |acts| && acts[i].Arrive? ensures acts[i].c != c {
        assert i > 0 ==> acts[i] == acts[1..][i - 1];
      }
    }
  }

  lemma MissedBeforeStep(env: Env, s: State, a: Action, c: nat, key: Key)
    requires Enabled(env, s, a) && Entry(Objects, key) in s.disk.names
    requires c in Next(env, s, a).callers && KeyOf(Next(env, s, a).callers[c]) == key && HasMissed(Next(env, s, a).callers[c])
    ensures !(a.Arrive? && a.c == c) && c in s.callers && KeyOf(s.callers[c]) == key && HasMissed(s.callers[c])
  {
    CallerBefore(env, s, a, c);
    if a.Act? && a.c == c {
      MoveKeepsRequest(env, s, s.callers[c], a.m);
      NoNewMiss(env, s, s.callers[c], a.m);
    }
    hide Moved, Effect, CanMove, CacheKey;
  }

  lemma MoveKeepsRequest(env: Env, s: State, x: Caller, m: Move)
    requires CanMove(env, s, x, m)
    ensures Moved(env, s, x, m).req == x.req
  {
  }

  lemma AtFlightBeforeStep(env: Env, s: State, a: Action, c: nat, key: Key)
    requires Enabled(env, s, a) && Entry(Objects, key) in s.disk.names
    requires c in Next(env, s, a).callers && KeyOf(Next(env, s, a).callers[c]) == key && AtFlight(Next(env, s, a).callers[c])
    ensures !(a.Arrive? && a.c == c) && c in s.callers && KeyOf(s.callers[c]) == key && AtFlight(s.callers[c])
  {
    CallerBefore(env, s, a, c);
    if a.Act? && a.c == c {
      MoveKeepsRequest(env, s, s.callers[c], a.m);
      NoNewMiss(env, s, s.callers[c], a.m);
    }
    hide Moved, Effect, CanMove, CacheKey;
  }

  /** Callers that arrive after the commit neither enter nor join nor execute a flight for the object. */
  lemma LateArrivalsNeverEnter(env: Env, s: State, acts: seq<Action>, t: State, c: nat, key: Key)
    requires Run(env, s, acts, t) && Entry(Objects, key) in s.disk.names && Keeps(s, t, Entry(Objects, key))
    requires c in t.callers && KeyOf(t.callers[c]) == key && (Arrives(acts, c) || c !in s.callers)
    ensures !AtFlight(t.callers[c])
  {
    if AtFlight(t.callers[c]) {
      AtFlightBefore(env, s, acts, t, c, key);
    }
  }

  lemma {:induction false} AtFlightBefore(env: Env, s: State, acts: seq<Action>, t: State, c: nat, key: Key)
    requires Run(env, s, acts, t) && Entry(Objects, key) in s.disk.names && Keeps(s, t, Entry(Objects, key))
    requires c in t.callers && KeyOf(t.callers[c]) == key && AtFlight(t.callers[c])
    ensures !Arrives(acts, c) && c in s.callers && KeyOf(s.callers[c]) == key && AtFlight(s.callers[c])
    decreases |acts|
  {
    hide Enabled, Next, CacheKey;
    if acts != [] {
      var a, u, n := acts[0], Next(env, s, acts[0]), Entry(Objects, key);
      LogGrows(env, s, a);
      KeepsAlong(env, u, acts[1..], t);
      KeepsSplit(s, u, t, n);
      KeptByStep(env, s, a, n);
      AtFlightBefore(env, u, acts[1..], t, c, key);
      AtFlightBeforeStep(env, s, a, c, key);
      forall i | 0 <= i < |acts| && acts[i].Arrive? ensures acts[i].c != c {
        assert i > 0 ==> acts[i] == acts[1..][i - 1];
      }
    }
  }

  // ---- who has missed can download again ----

  /** The executor of an `objects` flight moves on alone until its flight has ended. */
  lemma {:induction false} ExecutorEnds(env: Env, s: State, e: nat) returns (acts: seq<Action>, t: State)
    requires Reachable(env, s) && e in s.callers && s.callers[e].objFlight.Some?
    ensures Run(env, s, acts, t) && Reachable(env, t) && OnlyMoves(acts)
    ensures t.evictions == s.evictions && e in t.callers && t.callers == s.callers[e := t.callers[e]]
    ensures FKey(Objects, KeyOf(s.callers[e])) !in t.active
    decreases Distance(s.callers[e])
  {
    var x := s.callers[e];
    assert Shape(x) && Executes(e, x, Objects, s.active, s.flights) by { InvReachable(env, s); }
    assert ObjBody(x.pc) && !x.pc.Done? && !Blocked(x, s.flights);
    var m := UnblockedCanMove(env, s, e);
    var a := Act(e, m);
    var u := Next(env, s, a);
    ReachableStep(env, s, a);
    BodyMove(env, s, e, x, m);
    MovesApproach(env, s, x, m);
    OneStep(env, s, a);
    hide Reachable, Run, Moved, Effect, CanMove, Shape, CacheKey, Enabled;
    if u.callers[e].objFlight.Some? {
      var rest;
      rest, t := ExecutorEnds(env, u, e);
      hide Next;
      RunsJoin(env, s, [a], u, rest, t);
      acts := [a] + rest;
    } else {
      acts, t := [a], u;
    }
  }

  lemma BodyMove(env: Env, s: State, e: nat, x: Caller, m: Move)
    requires CanMove(env, s, x, m) && Shape(x) && ObjBody(x.pc)
    ensures var y, t := Moved(env, s, x, m), Effect(env, s, e, x, m);
            && t.evictions == s.evictions && KeyOf(y) == KeyOf(x)
            && (y.objFlight.None? ==> FKey(Objects, KeyOf(x)) !in t.active)
  {
  }

  /** Some run without evictions, in which `c` stays the same caller, makes it execute an `objects` flight. */
  ghost predicate CanDownload(env: Env, s: State, c: nat) {
    exists acts: seq<Action>, t: State :: DownloadsIn(env, s, c, acts, t)
  }

  ghost predicate DownloadsIn(env: Env, s: State, c: nat, acts: seq<Action>, t: State) {
    Run(env, s, acts, t) && !Arrives(acts, c) && t.evictions == s.evictions && c in t.callers && t.callers[c].objFlight.Some?
  }

  /** With nobody else in the flight, the caller starts one. */
  lemma StartsFlight(env: Env, s: State, c: nat) returns (a: Action, t: State)
    requires c in s.callers && s.callers[c].pc == Enter(Objects) && FlightId(s.callers[c]) !in s.active
    ensures Run(env, s, [a], t) && a.Act? && t.evictions == s.evictions
    ensures c in t.callers && t.callers[c].objFlight.Some?
  {
    hide CacheKey;
    var fid := Fresh(s.flights.Keys);
    a := Act(c, EnterFlight(fid));
    t := Next(env, s, a);
    OneStep(env, s, a);
  }

  lemma MissedCanDownload(env: Env, s: State, c: nat)
    requires Reachable(env, s) && c in s.callers && HasMissed(s.callers[c])
    ensures CanDownload(env, s, c)
  {
    var x := s.callers[c];
    hide Reachable, Run, CacheKey;
    NoSteps(env, s);
    if x.objFlight.Some? {
      assert DownloadsIn(env, s, c, [], s);
    } else {
      var id := FlightId(x);
      var before, u := [], s;
      if id in s.active {
        Executor(env, s, id);
        before, u := ExecutorEnds(env, s, s.flights[s.active[id]].executor);
      }
      assert u.callers[c] == x && id !in u.active && OnlyMoves(before);
      var a, t := StartsFlight(env, u, c);
      RunsJoin(env, s, before, u, [a], t);
      MovesBringNobody(before, a, c);
      assert DownloadsIn(env, s, c, before + [a], t);
    }
  }

  lemma MovesBringNobody(before: seq<Action>, a: Action, c: nat)
    requires OnlyMoves(before) && a.Act?
    ensures !Arrives(before + [a], c)
  {
    var all := before + [a];
    forall i | 0 <= i < |all| ensures !all[i].Arrive? {
      assert i < |before| ==> all[i] in before;
    }
  }

  lemma Executor(env: Env, s: State, id: FKey)
    requires Reachable(env, s) && id in s.active && id.role == Objects
    ensures s.active[id] in s.flights
    ensures var e := s.flights[s.active[id]].executor;
            e in s.callers && s.callers[e].objFlight.Some? && KeyOf(s.callers[e]) == id.key
  {
    assert ActiveFlight(id, s.active[id], s.callers, s.flights) by { InvReachable(env, s); }
  }

  lemma {:induction false} SameRequest(env: Env, s: State, acts: seq<Action>, t: State, c: nat)
    requires Run(env, s, acts, t) && !Arrives(acts, c) && c in t.callers
    ensures c in s.callers && s.callers[c].req == t.callers[c].req
    decreases |acts|
  {
    hide Enabled, Next;
    if acts != [] {
      var a, u := acts[0], Next(env, s, acts[0]);
      forall i | 0 <= i < |acts[1..]| && acts[1..][i].Arrive? ensures acts[1..][i].c != c {
        assert acts[1..][i] == acts[i + 1];
      }
      SameRequest(env, u, acts[1..], t, c);
      CallerBefore(env, s, a, c);
      if a.Act? && a.c == c {
        assert CanMove(env, s, s.callers[c], a.m) by { ActCanMove(env, s, a); }
        MoveKeepsRequest(env, s, s.callers[c], a.m);
      }
      hide Moved;
    }
  }

  lemma ActCanMove(env: Env, s: State, a: Action)
    requires Enabled(env, s, a) && a.Act?
    ensures CanMove(env, s, s.callers[a.c], a.m)
  {
    hide CanMove;
  }

  /** With the object committed and not evicted, a caller can come to download it again exactly if it has missed before. */
  lemma DownloadsAgainExactly(env: Env, s: State, c: nat)
    requires Reachable(env, s) && c in s.callers && Entry(Objects, KeyOf(s.callers[c])) in s.disk.names
    ensures CanDownload(env, s, c) <==> HasMissed(s.callers[c])
  {
    if CanDownload(env, s, c) {
      var acts: seq<Action>, t: State :| DownloadsIn(env, s, c, acts, t);
      hide Reachable, Run, CacheKey;
      SameRequest(env, s, acts, t, c);
      DownloadersMissedBefore(env, s, acts, t, c, KeyOf(s.callers[c]));
    }
    if HasMissed(s.callers[c]) {
      MissedCanDownload(env, s, c);
    }
  }

  /** Such callers exist: a second download of a key runs although the first is committed and nothing was evicted. */
  lemma LateCallersDownloadAgain(env: Env, req: Request) returns (s: State, c: nat)
    ensures Reachable(env, s) && s.evictions == [] && c in s.callers && s.callers[c].req == req
    ensures Entry(Objects, CacheKey(req)) in s.disk.names && s.callers[c].objFlight.Some?
  {
    var s0 := BothMiss(env, req);
    hide Reachable, Run, CacheKey;
    var f, acts, t := Downloads(env, s0, 0, []);
    c := 1;
    var fid := Fresh(t.flights.Keys);
    s := Next(env, t, Act(1, EnterFlight(fid)));
    ReachableStep(env, t, Act(1, EnterFlight(fid)));
  }
}
