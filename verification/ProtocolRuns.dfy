/** Runs put together from moves: a download from its flight to its publication, a sweep that evicts one entry. */
module ProtocolRuns {
  import opened Prelude
  import opened Symstore
  import opened CacheKeys
  import opened Disk
  import opened Protocol
  import opened ProtocolInv
  import opened ProtocolSteps

  lemma Fresh(used: set<nat>) returns (n: nat)
    ensures n !in used
  {
    n := 0;
    var rest := used;
    while rest != {}
      invariant rest <= used && forall k :: k in used && k !in rest ==> k < n
    {
      var k :| k in rest;
      rest := rest - {k};
      n := if k < n then n else k + 1;
    }
  }

  // ---- a download ----

  /** The caller starts a flight and the resolver finds the object. */
  lemma StartsDownload(env: Env, s: State, c: nat, x: Caller, fid: nat) returns (acts: seq<Action>, t: State)
    requires c in s.callers && x == s.callers[c] && x.pc == Enter(Objects)
    requires FlightId(x) !in s.active && fid !in s.flights
    ensures Run(env, s, acts, t)
    ensures t == s.(active := s.active[FlightId(x) := fid], flights := s.flights[fid := Flight(FlightId(x), c, None)],
                    callers := s.callers[c := x.(pc := NewTemp(Download), objFlight := Some(fid))])
  {
    hide CacheKey;
    var a, b := Act(c, EnterFlight(fid)), Act(c, Resolve(None));
    var u := Next(env, s, a);
    t := Next(env, u, b);
    assert t.callers == s.callers[c := x.(pc := NewTemp(Download), objFlight := Some(fid))];
    acts := [a, b];
    TwoSteps(env, s, a, u, b, t);
  }

  lemma TwoSteps(env: Env, s: State, a: Action, u: State, b: Action, t: State)
    requires Enabled(env, s, a) && u == Next(env, s, a) && Enabled(env, u, b) && t == Next(env, u, b)
    ensures Run(env, s, [a, b], t)
  {
    hide Enabled, Next;
    assert Run(env, t, [], t);
    assert [b][1..] == [] && [a, b][1..] == [b];
    assert Run(env, u, [b], t);
  }

  /** It writes the whole payload into a new staging file. */
  lemma TransfersAll(env: Env, s: State, c: nat, x: Caller, n: nat, ino: nat, payload: Bytes) returns (acts: seq<Action>, t: State)
    requires c in s.callers && x == s.callers[c] && x.pc == NewTemp(Download)
    requires n !in s.usedTemps && ino !in s.disk.inodes
    ensures Run(env, s, acts, t)
    ensures t == s.(disk := WriteFile(Create(s.disk, n, ino, s.now), ino, payload, s.now), usedTemps := s.usedTemps + {n},
                    fetched := s.fetched + {Transfer(KeyOf(x), payload)},
                    callers := s.callers[c := x.(pc := Committing(Download), tmp := Some(Temp(n, ino)))])
  {
    hide CacheKey;
    var a, b := Act(c, CreateTemp(n, ino)), Act(c, WriteAll(payload));
    var u := Next(env, s, a);
    t := Next(env, u, b);
    assert t.callers == s.callers[c := x.(pc := Committing(Download), tmp := Some(Temp(n, ino)))];
    acts := [a, b];
    TwoSteps(env, s, a, u, b, t);
  }

  ghost predicate SameLosses(s: State, t: State) {
    t.lostBytes == s.lostBytes && t.lostEntries == s.lostEntries
  }

  /** It commits the file, and its flight ends. */
  lemma CommitsAndPublishes(env: Env, s: State, c: nat, x: Caller, f: nat) returns (acts: seq<Action>, t: State)
    requires c in s.callers && x == s.callers[c] && x.pc == Committing(Download) && x.objFlight == Some(f) && f in s.flights
    requires x.tmp.Some? && Staged(x.tmp.value.n) in s.disk.names
    ensures Run(env, s, acts, t)
    ensures var n, at := Entry(Objects, KeyOf(x)), MtimeAt(s.disk, x.tmp.value.ino);
            var o := Ok(n, |s.evictions|, at, Calm(s, n, at));
            && t.now == s.now && t.sweep == s.sweep && t.evictions == s.evictions && SameLosses(s, t)
            && t.active == s.active - {FKey(Objects, KeyOf(x))}
            && t.flights == s.flights[f := s.flights[f].(result := Some(o))]
            && t.callers == s.callers[c := x.(pc := Returning(Objects, f, true), objFlight := None, tmp := None)]
            && t.disk == Rename(s.disk, x.tmp.value.n, n)
  {
    hide CacheKey, Calm;
    var a, b := Act(c, CommitOk(SizeOf(s.disk, Entry(Objects, KeyOf(x))))), Act(c, Publish);
    var u := Next(env, s, a);
    t := Next(env, u, b);
    assert t.callers == s.callers[c := x.(pc := Returning(Objects, f, true), objFlight := None, tmp := None)];
    acts := [a, b];
    TwoSteps(env, s, a, u, b, t);
  }

  /** The entry leads to a new file with this payload and time, and nothing else changes. */
  ghost predicate Installs(d: Disk, d': Disk, n: Name, payload: Bytes, now: int) {
    && n in d'.names && d'.names[n] !in d.inodes
    && d'.names.Keys == d.names.Keys + {n}
    && (forall m :: m in d.names && m != n ==> d'.names[m] == d.names[m])
    && d'.inodes == d.inodes[d'.names[n] := Inode(payload, now)]
  }

  /** What a download of `payload` by caller `c` has changed. */
  ghost predicate Downloaded(s: State, c: nat, payload: Bytes, fid: nat, t: State) {
    && c in s.callers && c in t.callers && fid !in s.flights && fid in t.flights
    && t.now == s.now && t.sweep == s.sweep && t.evictions == s.evictions && SameLosses(s, t) && t.active == s.active
    && t.callers == s.callers[c := s.callers[c].(pc := Returning(Objects, fid, true))]
    && (var n := Entry(Objects, KeyOf(s.callers[c]));
        && t.flights == s.flights[fid := Flight(FKey(Objects, KeyOf(s.callers[c])), c,
                                                Some(Ok(n, |s.evictions|, s.now, Calm(s, n, s.now))))]
        && Installs(s.disk, t.disk, n, payload, s.now))
  }

  lemma StillUndisturbed(callers: map<nat, Caller>, c: nat, y: Caller, n: Name, t0: int)
    requires c in callers && !callers[c].pc.Touching? && !y.pc.Touching?
    ensures Undisturbed(callers[c := y], n, t0) == Undisturbed(callers, n, t0)
  {
    hide Looking;
    var next := callers[c := y];
    if Undisturbed(next, n, t0) {
      forall e | e in callers && callers[e].pc.Touching? && Looking(callers[e]) == n ensures callers[e].pc.since >= t0 {
        assert next[e] == callers[e];
      }
    }
  }

  lemma RenamedNew(d: Disk, n: nat, ino: nat, payload: Bytes, now: int, e: Name)
    requires e.Entry? && Staged(n) !in d.names && ino !in d.inodes
    ensures var w := WriteFile(Create(d, n, ino, now), ino, payload, now);
            var r := Rename(w, n, e);
            && MtimeAt(w, ino) == now && w.names[Staged(n)] == ino
            && Installs(d, r, e, payload, now)
  {
  }

  /** Everything up to the complete staging file. */
  lemma PreparesDownload(env: Env, s: State, c: nat, x: Caller, fid: nat, n: nat, ino: nat, payload: Bytes)
    returns (acts: seq<Action>, t: State)
    requires c in s.callers && x == s.callers[c] && x.pc == Enter(Objects)
    requires FlightId(x) !in s.active && fid !in s.flights && n !in s.usedTemps && ino !in s.disk.inodes
    ensures Run(env, s, acts, t)
    ensures t == s.(active := s.active[FlightId(x) := fid], flights := s.flights[fid := Flight(FlightId(x), c, None)],
                    disk := WriteFile(Create(s.disk, n, ino, s.now), ino, payload, s.now), usedTemps := s.usedTemps + {n},
                    fetched := s.fetched + {Transfer(KeyOf(x), payload)},
                    callers := s.callers[c := x.(pc := Committing(Download), objFlight := Some(fid), tmp := Some(Temp(n, ino)))])
  {
    hide CacheKey, Run, WriteFile, Create;
    var a1, s1 := StartsDownload(env, s, c, x, fid);
    var a2;
    a2, t := TransfersAll(env, s1, c, s1.callers[c], n, ino, payload);
    assert t.callers == s.callers[c := t.callers[c]];
    RunsJoin(env, s, a1, s1, a2, t);
    acts := a1 + a2;
  }

  lemma StillCalm(s: State, u: State, c: nat, n: Name, t0: int)
    requires c in s.callers && !s.callers[c].pc.Touching? && c in u.callers && !u.callers[c].pc.Touching?
    requires u.callers == s.callers[c := u.callers[c]] && u.sweep == s.sweep
    ensures Calm(u, n, t0) == Calm(s, n, t0)
  {
    StillUndisturbed(s.callers, c, u.callers[c], n, t0);
    hide Undisturbed, Undoomed;
  }

  lemma PublishedSo(s: State, c: nat, x: Caller, fid: nat, n: nat, ino: nat, payload: Bytes, u: State, t: State)
    requires c in s.callers && x == s.callers[c] && x.pc == Enter(Objects) && x.objFlight.None? && x.tmp.None?
    requires fid !in s.flights && Staged(n) !in s.disk.names && ino !in s.disk.inodes
    requires FKey(Objects, KeyOf(x)) !in s.active
    requires u.now == s.now && u.sweep == s.sweep && u.evictions == s.evictions && SameLosses(s, u)
    requires u.active == s.active[FKey(Objects, KeyOf(x)) := fid]
    requires u.flights == s.flights[fid := Flight(FKey(Objects, KeyOf(x)), c, None)]
    requires u.disk == WriteFile(Create(s.disk, n, ino, s.now), ino, payload, s.now)
    requires u.callers == s.callers[c := x.(pc := Committing(Download), objFlight := Some(fid), tmp := Some(Temp(n, ino)))]
    requires Staged(n) in u.disk.names
    requires var e, at := Entry(Objects, KeyOf(x)), MtimeAt(u.disk, ino);
             && t.now == u.now && t.sweep == u.sweep && t.evictions == u.evictions && SameLosses(u, t)
             && t.active == u.active - {FKey(Objects, KeyOf(x))}
             && t.flights == u.flights[fid := u.flights[fid].(result := Some(Ok(e, |u.evictions|, at, Calm(u, e, at))))]
             && t.callers == u.callers[c := x.(pc := Returning(Objects, fid, true))]
             && t.disk == Rename(u.disk, n, e)
    ensures Downloaded(s, c, payload, fid, t)
  {
    var e := Entry(Objects, KeyOf(x));
    hide CacheKey, Calm, Rename, WriteFile, Create, MtimeAt, Installs;
    RenamedNew(s.disk, n, ino, payload, s.now, e);
    StillCalm(s, u, c, e, s.now);
    assert t.callers == s.callers[c := x.(pc := Returning(Objects, fid, true))];
    assert t.active == s.active;
  }

  /** A caller about to enter, with nobody else in its flight, can download any payload. */
  lemma Downloads(env: Env, s: State, c: nat, payload: Bytes) returns (fid: nat, acts: seq<Action>, t: State)
    requires Reachable(env, s) && c in s.callers && s.callers[c].pc == Enter(Objects) && FlightId(s.callers[c]) !in s.active
    ensures Run(env, s, acts, t) && Reachable(env, t) && Downloaded(s, c, payload, fid, t)
  {
    var x := s.callers[c];
    assert x.objFlight.None? && x.tmp.None? && forall n :: Staged(n) in s.disk.names ==> n in s.usedTemps by {
      InvReachable(env, s);
      assert Shape(x);
    }
    hide Reachable, Run, CacheKey, Calm, Rename, MtimeAt, Downloaded;
    fid := Fresh(s.flights.Keys);
    var n := Fresh(s.usedTemps);
    var ino := Fresh(s.disk.inodes.Keys);
    var a1, u := PreparesDownload(env, s, c, x, fid, n, ino, payload);
    var a2;
    a2, t := CommitsAndPublishes(env, u, c, u.callers[c], fid);
    PublishedSo(s, c, x, fid, n, ino, payload, u, t);
    RunsJoin(env, s, a1, u, a2, t);
    acts := a1 + a2;
    ReachableRun(env, s, acts, t);
  }

  // ---- a sweep ----

  /** A sweep begins and removes one old file; it has neither ended nor failed yet. */
  lemma SweepsAway(env: Env, s: State, n: Name) returns (acts: seq<Action>, t: State)
    requires Reachable(env, s) && s.sweep.None? && n in s.disk.names
    requires MtimeAt(s.disk, s.disk.names[n]) < s.now - env.maxUnused
    ensures Run(env, s, acts, t) && Reachable(env, t)
    ensures var i := s.disk.names[n];
            && t.evictions == s.evictions + [Eviction(n, i, MtimeAt(s.disk, i), s.now - env.maxUnused)]
            && t.disk == Remove(s.disk, n) && t.callers == s.callers && t.flights == s.flights && t.active == s.active
            && t.now == s.now && t.sweep.Some? && t.sweep.value.doomed.None? && SameLosses(s, t)
            && (n.Entry? ==> t.sweep.value.removedBytes == |BytesAt(s.disk, i)| && t.sweep.value.removedEntries == 1)
  {
    hide Reachable, Run;
    var a, b := SweepBegin, SweepVisit(n);
    var u := Next(env, s, a);
    var v := Next(env, u, b);
    TwoSteps(env, s, a, u, b, v);
    t := Next(env, v, SweepUnlink);
    OneStep(env, v, SweepUnlink);
    RunsJoin(env, s, [a, b], v, [SweepUnlink], t);
    acts := [a, b] + [SweepUnlink];
    ReachableRun(env, s, acts, t);
  }

  /** A sweep that has removed something may still fail. */
  lemma SweepsFail(env: Env, s: State) returns (t: State)
    requires Reachable(env, s) && s.sweep.Some? && s.sweep.value.doomed.None?
    ensures Run(env, s, [SweepFail], t) && Reachable(env, t) && t.sweep.None?
    ensures t.evictions == s.evictions && t.disk == s.disk && t.callers == s.callers && t.flights == s.flights
            && t.active == s.active && t.now == s.now
  {
    t := Next(env, s, SweepFail);
    hide Next, Reachable;
    OneStep(env, s, SweepFail);
    ReachableStep(env, s, SweepFail);
  }

  lemma NoSteps(env: Env, s: State)
    ensures Run(env, s, [], s)
  {
  }

  lemma OneStep(env: Env, s: State, a: Action)
    requires Enabled(env, s, a)
    ensures Run(env, s, [a], Next(env, s, a))
  {
    hide Enabled, Next;
    assert Run(env, Next(env, s, a), [], Next(env, s, a));
    assert [a][1..] == [];
  }

  // ---- single steps ----

  lemma Waits(env: Env, s: State, d: nat) returns (t: State)
    requires Reachable(env, s)
    ensures Reachable(env, t) && t == s.(now := s.now + d)
  {
    t := Next(env, s, Tick(d));
    hide Reachable;
    ReachableStep(env, s, Tick(d));
  }

  /** A caller returns from a successful flight and is about to reopen the entry. */
  lemma Returns(env: Env, s: State, c: nat, f: nat) returns (t: State)
    requires Reachable(env, s) && c in s.callers && s.callers[c].pc.Returning? && s.callers[c].pc.role == Objects
    requires s.callers[c].pc.fid == f && Succeeded(f, s.flights)
    ensures Reachable(env, t)
    ensures t.callers == s.callers[c := s.callers[c].(pc := Look(Objects, Again(f)))]
    ensures t.evictions == s.evictions && t.disk == s.disk && t.flights == s.flights && t.active == s.active
            && t.now == s.now && t.sweep == s.sweep
  {
    t := Next(env, s, Act(c, Return));
    hide Reachable;
    ReachableStep(env, s, Act(c, Return));
  }

  lemma Hits(env: Env, s: State, c: nat) returns (t: State)
    requires Reachable(env, s) && c in s.callers && s.callers[c].pc.Look? && Looking(s.callers[c]) in s.disk.names
    ensures Reachable(env, t)
    ensures var pc := s.callers[c].pc;
            t == s.(callers := s.callers[c := s.callers[c].(pc := Touching(pc.role, pc.pos, s.disk.names[Looking(s.callers[c])], s.now))])
  {
    t := Next(env, s, Act(c, LookHit));
    hide Reachable;
    ReachableStep(env, s, Act(c, LookHit));
  }

  /** A touch with the earliest time it may carry. */
  lemma TouchesLate(env: Env, s: State, c: nat) returns (t: State)
    requires Reachable(env, s) && c in s.callers && s.callers[c].pc.Touching?
    ensures Enabled(env, s, Act(c, TouchEntry(true, s.callers[c].pc.since)))
    ensures Reachable(env, t) && t == Next(env, s, Act(c, TouchEntry(true, s.callers[c].pc.since)))
    ensures t.disk == Touch(s.disk, Looking(s.callers[c]), s.callers[c].pc.since)
    ensures c in t.callers && t.callers == s.callers[c := t.callers[c]] && !t.callers[c].pc.Touching?
    ensures t.evictions == s.evictions && t.flights == s.flights && t.active == s.active && t.now == s.now && t.sweep == s.sweep
  {
    assert s.callers[c].pc.since <= s.now by { InvReachable(env, s); }
    var a := Act(c, TouchEntry(true, s.callers[c].pc.since));
    t := Next(env, s, a);
    hide Reachable;
    ReachableStep(env, s, a);
  }

  // ---- first states ----

  /** Two callers have looked in vain, and neither has entered a flight yet. */
  lemma BothMiss(env: Env, req: Request) returns (s: State)
    ensures Reachable(env, s) && s.evictions == [] && s.now == 0 && s.sweep.None? && s.disk == Disk(map[], map[])
    ensures s.active == map[] && s.flights == map[] && s.lostBytes == 0 && s.lostEntries == 0
    ensures s.callers == map[0 := NewCaller(req, false).(pc := Enter(Objects)), 1 := NewCaller(req, false).(pc := Enter(Objects))]
  {
    var s0 := State(0, Disk(map[], map[]), map[], map[], map[], 0, 0, 0, None, {}, [], 0, 0, {}, {}, {});
    assert Run(env, s0, [], s0);
    assert Initial(s0);
    assert Reachable(env, s0);
    hide Reachable, Run, Initial;
    ReachableStep(env, s0, Arrive(0, req, false));
    var s1 := Next(env, s0, Arrive(0, req, false));
    ReachableStep(env, s1, Arrive(1, req, false));
    var s2 := Next(env, s1, Arrive(1, req, false));
    ReachableStep(env, s2, Act(0, LookMiss));
    var s3 := Next(env, s2, Act(0, LookMiss));
    ReachableStep(env, s3, Act(1, LookMiss));
    s := Next(env, s3, Act(1, LookMiss));
    assert s.callers == map[0 := NewCaller(req, false).(pc := Enter(Objects)), 1 := NewCaller(req, false).(pc := Enter(Objects))];
  }
}
