/** How long entries last: touched entries, and entries that a flight has just committed. */
module ProtocolAges {
  import opened Prelude
  import opened Symstore
  import opened CacheKeys
  import opened Disk
  import opened Protocol
  import opened ProtocolInv
  import opened ProtocolFlights
  import opened ProtocolFiles
  import opened ProtocolDates
  import opened ProtocolSteps
  import opened ProtocolSafety
  import opened ProtocolRuns

  // ---- a file under one name ----

  /** The file is no older than `t0`, can only be reached under one name, and is not taken for older there. */
  ghost predicate Recent(s: State, i: nat, n: Name, t0: int) {
    && n.Entry? && Frozen(s.disk, s.callers, i) && MtimeAt(s.disk, i) >= t0
    && (forall m :: m in s.disk.names && s.disk.names[m] == i ==> m == n)
    && Undisturbed(s.callers, n, t0)
    && (n in s.disk.names && s.disk.names[n] == i ==> Undoomed(s.sweep, n, t0))
  }

  /** The evictions of the file that `t` has logged and `s` has not are due to cutoffs after `t0`. */
  ghost predicate FileEvictedLate(s: State, t: State, i: nat, t0: int) {
    s.evictions <= t.evictions
    && forall j :: |s.evictions| <= j < |t.evictions| && t.evictions[j].ino == i ==> t.evictions[j].cutoff > t0
  }

  lemma RecentActed(env: Env, s: State, c: nat, x: Caller, m: Move, i: nat, n: Name, t0: int)
    requires Files(s.disk, s.callers, s.usedTemps) && c in s.callers && x == s.callers[c] && CanMove(env, s, x, m)
    requires Recent(s, i, n, t0) && t0 <= s.now
    ensures Recent(Acted(env, s, c, x, m), i, n, t0)
  {
    var t := Effect(env, s, c, x, m);
    FrozenActed(env, s, c, x, m, i);
    TimesOfMove(env, s, c, x, m);
    YoungCallers(env, s, c, x, m, n, t0);
    FilesOfMove(env, s, c, x, m);
    NewNames(env, s, c, x, m);
    assert OwnsTemp(x, s.disk, s.usedTemps);
    assert m.TouchEntry? && Looking(x) == n ==> x.pc.since >= t0;
    assert !Writes(x, i);
    hide Moved, Effect, CanMove, Files, Undisturbed, Undoomed, Looking, Target;
  }

  /** Names that a move makes: a staging file under a new inode, or the entry that is committed. */
  lemma NewNames(env: Env, s: State, c: nat, x: Caller, m: Move)
    requires CanMove(env, s, x, m)
    ensures var t := Effect(env, s, c, x, m);
            forall k :: k in t.disk.names && k.Staged? && !(k in s.disk.names && s.disk.names[k] == t.disk.names[k]) ==>
              t.disk.names[k] !in s.disk.inodes
  {
  }

  /** The sweeper unlinks the file only if it has read a time before its cutoff under its name. */
  lemma RecentSweep(env: Env, s: State, a: Action, i: nat, n: Name, t0: int)
    requires Times(env, s) && Enabled(env, s, a) && (a.SweepVisit? || a.SweepUnlink?) && Recent(s, i, n, t0)
    ensures Recent(Next(env, s, a), i, n, t0) && FileEvictedLate(s, Next(env, s, a), i, t0)
  {
    hide Undisturbed;
  }

  lemma RecentStep(env: Env, s: State, a: Action, i: nat, n: Name, t0: int)
    requires Files(s.disk, s.callers, s.usedTemps) && Times(env, s) && Enabled(env, s, a) && Recent(s, i, n, t0) && t0 <= s.now
    ensures Recent(Next(env, s, a), i, n, t0) && FileEvictedLate(s, Next(env, s, a), i, t0)
  {
    hide Moved, Effect, CanMove, Files, Times;
    match a
    case Act(c, m) =>
      hide Recent;
      RecentActed(env, s, c, s.callers[c], m, i, n, t0);
      TimesOfMove(env, s, c, s.callers[c], m);
    case SweepVisit(_) => RecentSweep(env, s, a, i, n, t0);
    case SweepUnlink => RecentSweep(env, s, a, i, n, t0);
    case _ =>
  }

  lemma {:induction false} RecentRun(env: Env, s: State, acts: seq<Action>, t: State, i: nat, n: Name, t0: int)
    requires Shapes(s.callers) && Files(s.disk, s.callers, s.usedTemps) && Times(env, s) && Run(env, s, acts, t)
    requires Recent(s, i, n, t0) && t0 <= s.now
    ensures FileEvictedLate(s, t, i, t0)
    decreases |acts|
  {
    hide Shapes, Files, Times, Recent, Next, Enabled;
    if acts != [] {
      var u := Next(env, s, acts[0]);
      RecentStep(env, s, acts[0], i, n, t0);
      ShapeKept(env, s, acts[0]);
      FilesKept(env, s, acts[0]);
      TimesKept(env, s, acts[0]);
      NowGrows(env, s, acts[0]);
      RecentRun(env, u, acts[1..], t, i, n, t0);
      forall j | |s.evictions| <= j < |t.evictions| && t.evictions[j].ino == i ensures t.evictions[j].cutoff > t0 {
        assert j < |u.evictions| ==> t.evictions[j] == u.evictions[j];
      }
    }
  }

  // ---- an entry, whatever file it leads to ----

  /** The evictions of the entry that `t` has logged and `s` has not are due to cutoffs after `t0`. */
  ghost predicate EvictedLate(s: State, t: State, n: Name, t0: int) {
    s.evictions <= t.evictions
    && forall j :: |s.evictions| <= j < |t.evictions| && t.evictions[j].name == n ==> t.evictions[j].cutoff > t0
  }

  /** In no run is the entry evicted with a cutoff at or before `t0`, whatever file it leads to by then. */
  ghost predicate SafeFrom(env: Env, s: State, n: Name, t0: int) {
    forall acts: seq<Action>, t: State :: Run(env, s, acts, t) ==> EvictedLate(s, t, n, t0)
  }

  lemma {:induction false} YoungRun(env: Env, s: State, acts: seq<Action>, t: State, n: Name, t0: int, from: nat)
    requires Shapes(s.callers) && Files(s.disk, s.callers, s.usedTemps) && Run(env, s, acts, t)
    requires n.Entry? && t0 <= s.now && Young(s, n, t0, from)
    ensures Young(t, n, t0, from) && s.evictions <= t.evictions
    decreases |acts|
  {
    hide Shapes, Files, Young, Next, Enabled;
    if acts != [] {
      YoungKept(env, s, acts[0], n, t0, from);
      ShapeKept(env, s, acts[0]);
      FilesKept(env, s, acts[0]);
      NowGrows(env, s, acts[0]);
      LogGrows(env, s, acts[0]);
      YoungRun(env, Next(env, s, acts[0]), acts[1..], t, n, t0, from);
    }
  }

  /** A secure entry is safe. */
  lemma SecureIsSafe(env: Env, s: State, n: Name, t0: int, acts: seq<Action>, t: State)
    requires Reachable(env, s) && n.Entry? && t0 <= s.now && Run(env, s, acts, t)
    requires n in s.disk.names ==> t0 <= MtimeAt(s.disk, s.disk.names[n])
    requires Secure(s, n, t0)
    ensures EvictedLate(s, t, n, t0)
  {
    assert Shapes(s.callers) && Files(s.disk, s.callers, s.usedTemps) by { InvReachable(env, s); }
    ReachableRun(env, s, acts, t);
    assert Times(env, t) by { InvReachable(env, t); }
    hide Reachable, Run, Shapes, Files, Secure;
    YoungRun(env, s, acts, t, n, t0, |s.evictions|);
  }

  // ---- three ways to lose an entry early ----

  /** A sweep in progress, if there is one, gives up without having touched the entry. */
  lemma SweepGivesUp(env: Env, s: State, n: Name) returns (acts: seq<Action>, t: State)
    requires Reachable(env, s) && n in s.disk.names
    requires s.sweep.Some? && s.sweep.value.doomed.Some? ==> s.sweep.value.doomed.value.name != n
    ensures Run(env, s, acts, t) && Reachable(env, t) && t.sweep.None? && t.now == s.now && t.callers == s.callers
    ensures n in t.disk.names && t.disk.names[n] == s.disk.names[n] && t.disk.inodes == s.disk.inodes
    ensures s.evictions <= t.evictions
  {
    hide Reachable, Run;
    var before, u := [], s;
    NoSteps(env, s);
    if s.sweep.Some? && s.sweep.value.doomed.Some? {
      before, u := [SweepUnlink], Next(env, s, SweepUnlink);
      OneStep(env, s, SweepUnlink);
      ReachableStep(env, s, SweepUnlink);
    }
    if u.sweep.Some? {
      t := SweepsFail(env, u);
      RunsJoin(env, s, before, u, [SweepFail], t);
      acts := before + [SweepFail];
    } else {
      acts, t := before, u;
    }
  }

  /** With a sweep whose cutoff is exactly `t0`, a file from before `t0` is evicted. */
  lemma OldFileGoes(env: Env, s: State, n: Name, t0: int) returns (acts: seq<Action>, t: State)
    requires Reachable(env, s) && s.sweep.None? && n in s.disk.names && MtimeAt(s.disk, s.disk.names[n]) < t0
    requires s.now == t0 + env.maxUnused
    ensures Run(env, s, acts, t) && !EvictedLate(s, t, n, t0) && s.evictions <= t.evictions
  {
    hide Reachable, Run;
    acts, t := SweepsAway(env, s, n);
    assert t.evictions[|s.evictions|].name == n && t.evictions[|s.evictions|].cutoff == t0;
  }

  lemma LaterEviction(s: State, u: State, t: State, n: Name, t0: int)
    requires s.evictions <= u.evictions <= t.evictions && !EvictedLate(u, t, n, t0)
    ensures !EvictedLate(s, t, n, t0)
  {
    var j :| |u.evictions| <= j < |t.evictions| && t.evictions[j].name == n && t.evictions[j].cutoff <= t0;
    assert |s.evictions| <= j;
  }

  lemma TicksTo(env: Env, s: State, t0: int) returns (acts: seq<Action>, t: State)
    requires Reachable(env, s) && s.now <= t0
    ensures Run(env, s, acts, t) && Reachable(env, t) && t == s.(now := t0)
  {
    var a := Tick(t0 - s.now);
    t := Next(env, s, a);
    acts := [a];
    OneStep(env, s, a);
    hide Reachable;
    ReachableStep(env, s, a);
  }

  /** A lookup of the entry from before `t0` touches it with the time it has read. */
  lemma LateTouch(env: Env, s: State, n: Name, t0: int, c: nat) returns (acts: seq<Action>, t: State)
    requires Reachable(env, s) && n in s.disk.names && n.Entry? && s.now <= t0 + env.maxUnused
    requires s.sweep.Some? && s.sweep.value.doomed.Some? ==> s.sweep.value.doomed.value.name != n
    requires c in s.callers && s.callers[c].pc.Touching? && Looking(s.callers[c]) == n && s.callers[c].pc.since < t0
    ensures Run(env, s, acts, t) && !EvictedLate(s, t, n, t0)
  {
    var i, since := s.disk.names[n], s.callers[c].pc.since;
    assert i in s.disk.inodes by { InvReachable(env, s); }
    hide Reachable, Run;
    var a1, u1 := SweepGivesUp(env, s, n);
    var a2, u2 := TicksTo(env, u1, t0 + env.maxUnused);
    var touch := Act(c, TouchEntry(true, since));
    var u3 := TouchesLate(env, u2, c);
    OneStep(env, u2, touch);
    assert MtimeAt(u3.disk, i) == since && u3.disk.names[n] == i;
    hide Next, Enabled, EvictedLate;
    var a4;
    a4, t := OldFileGoes(env, u3, n, t0);
    RunsJoin(env, s, a1, u1, a2, u2);
    RunsJoin(env, s, a1 + a2, u2, [touch], u3);
    RunsJoin(env, s, a1 + a2 + [touch], u3, a4, t);
    acts := a1 + a2 + [touch] + a4;
    LaterEviction(s, u3, t, n, t0);
  }

  /** A complete staging file from before `t0` is renamed to the entry. */
  lemma LateCommit(env: Env, s: State, n: Name, t0: int, c: nat) returns (acts: seq<Action>, t: State)
    requires Reachable(env, s) && n in s.disk.names && n.Entry? && s.now <= t0 + env.maxUnused
    requires s.sweep.Some? && s.sweep.value.doomed.Some? ==> s.sweep.value.doomed.value.name != n
    requires c in s.callers && Commits(s.callers[c], s.disk, n) && MtimeAt(s.disk, s.callers[c].tmp.value.ino) < t0
    ensures Run(env, s, acts, t) && !EvictedLate(s, t, n, t0)
  {
    var x := s.callers[c];
    assert OwnsTemp(x, s.disk, s.usedTemps) by { InvReachable(env, s); }
    var commit := Act(c, CommitOk(SizeOf(s.disk, n)));
    var u0 := Next(env, s, commit);
    CommitMoves(env, s, c, x, CommitOk(SizeOf(s.disk, n)));
    assert n in u0.disk.names && u0.disk.names[n] == x.tmp.value.ino && u0.disk.inodes == s.disk.inodes
           && u0.sweep == s.sweep && u0.evictions == s.evictions && u0.now == s.now;
    OneStep(env, s, commit);
    hide Reachable, Run, Moved, Effect, CanMove, EvictedLate;
    ReachableStep(env, s, commit);
    var a1, u1 := SweepGivesUp(env, u0, n);
    var a2, u2 := TicksTo(env, u1, t0 + env.maxUnused);
    var a3;
    a3, t := OldFileGoes(env, u2, n, t0);
    RunsJoin(env, s, [commit], u0, a1, u1);
    RunsJoin(env, s, [commit] + a1, u1, a2, u2);
    RunsJoin(env, s, [commit] + a1 + a2, u2, a3, t);
    acts := [commit] + a1 + a2 + a3;
    LaterEviction(s, u2, t, n, t0);
  }

  /** The sweeper unlinks what it has found too old before. */
  lemma LateUnlink(env: Env, s: State, n: Name, t0: int) returns (acts: seq<Action>, t: State)
    requires Reachable(env, s) && n in s.disk.names && s.now <= t0 + env.maxUnused
    requires s.sweep.Some? && s.sweep.value.doomed.Some? && s.sweep.value.doomed.value.name == n
    ensures Run(env, s, acts, t) && !EvictedLate(s, t, n, t0)
  {
    assert Times(env, s) by { InvReachable(env, s); }
    hide Reachable;
    t := Next(env, s, SweepUnlink);
    acts := [SweepUnlink];
    OneStep(env, s, SweepUnlink);
    assert t.evictions[|s.evictions|].name == n && t.evictions[|s.evictions|].cutoff <= t0;
  }

  // ---- exactly when an entry survives ----

  /** While the promise lasts, a sweeper that is about to unlink the entry has read an older time. */
  lemma DoomedIsOlder(env: Env, s: State, n: Name, t0: int)
    requires Times(env, s) && s.now <= t0 + env.maxUnused
    ensures Undoomed(s.sweep, n, t0) <==> !(s.sweep.Some? && s.sweep.value.doomed.Some? && s.sweep.value.doomed.value.name == n)
  {
  }

  lemma InsecureIsLost(env: Env, s: State, n: Name, t0: int) returns (acts: seq<Action>, t: State)
    requires Reachable(env, s) && n in s.disk.names && n.Entry? && s.now <= t0 + env.maxUnused && !Secure(s, n, t0)
    ensures Run(env, s, acts, t) && !EvictedLate(s, t, n, t0)
  {
    assert Times(env, s) by { InvReachable(env, s); }
    DoomedIsOlder(env, s, n, t0);
    hide Reachable, Run, Times, EvictedLate, Undoomed, Looking, Commits;
    if !Undoomed(s.sweep, n, t0) {
      acts, t := LateUnlink(env, s, n, t0);
    } else if !Undisturbed(s.callers, n, t0) {
      var c :| c in s.callers && s.callers[c].pc.Touching? && Looking(s.callers[c]) == n && s.callers[c].pc.since < t0;
      acts, t := LateTouch(env, s, n, t0, c);
    } else {
      var c := Replacer(s, n, t0);
      acts, t := LateCommit(env, s, n, t0, c);
    }
  }

  lemma Replacer(s: State, n: Name, t0: int) returns (c: nat)
    requires !Unreplaced(s.disk, s.callers, n, t0)
    ensures c in s.callers && Commits(s.callers[c], s.disk, n) && MtimeAt(s.disk, s.callers[c].tmp.value.ino) < t0
  {
    c :| c in s.callers && Commits(s.callers[c], s.disk, n) && MtimeAt(s.disk, s.callers[c].tmp.value.ino) < t0;
  }

  /**
    An entry with time `t0` or later is kept, in every run, by all sweeps that start at or before
    `t0 + maxUnused`, whatever file it leads to by then, if and only if nothing is under way from
    before `t0`: no lookup that is still to touch it, no complete staging file that is still to
    replace it, and no sweeper that is still to unlink it.
  */
  lemma EntriesSurviveExactly(env: Env, s: State, n: Name, t0: int)
    requires Reachable(env, s) && n in s.disk.names && n.Entry? && t0 <= MtimeAt(s.disk, s.disk.names[n])
    requires s.now <= t0 + env.maxUnused
    ensures SafeFrom(env, s, n, t0) <==> Secure(s, n, t0)
  {
    assert t0 <= s.now by {
      InvReachable(env, s);
      FileTime(env, s, s.disk.names[n]);
    }
    hide Reachable, Run, Secure, EvictedLate;
    if Secure(s, n, t0) {
      forall acts: seq<Action>, t: State | Run(env, s, acts, t) ensures EvictedLate(s, t, n, t0) {
        SecureIsSafe(env, s, n, t0, acts, t);
      }
    } else {
      var acts, t := InsecureIsLost(env, s, n, t0);
      assert !SafeFrom(env, s, n, t0);
    }
  }

  /** The touch of a lookup protects the entry for `maxUnused` from its stamp on, if nothing older is under way. */
  lemma TouchedEntriesSurvive(env: Env, s: State, c: nat, stamp: int)
    requires Reachable(env, s) && Enabled(env, s, Act(c, TouchEntry(true, stamp))) && s.now <= stamp + env.maxUnused
    requires Looking(s.callers[c]) in s.disk.names
    ensures var t, n := Next(env, s, Act(c, TouchEntry(true, stamp))), Looking(s.callers[c]);
            SafeFrom(env, t, n, stamp) <==> Secure(t, n, stamp)
  {
    var a, n := Act(c, TouchEntry(true, stamp)), Looking(s.callers[c]);
    var t := Next(env, s, a);
    assert t.disk.names == s.disk.names && t.now == s.now && MtimeAt(t.disk, t.disk.names[n]) == stamp;
    hide Reachable, Next, Enabled, SafeFrom, Secure;
    ReachableStep(env, s, a);
    EntriesSurviveExactly(env, t, n, stamp);
  }

  // ---- reopening after a flight ----

  /** The lookups of a request are over without a file. */
  predicate GivesUp(x: Caller) {
    x.pc.Look? && (x.pc.role != RawCompressed)
  }

  /** Reopening after flight `f` has found nothing under the last name there is to try. */
  ghost predicate ReopenMisses(s: State, c: nat, f: nat) {
    && c in s.callers && GivesUp(s.callers[c]) && s.callers[c].pc.pos == Again(f)
    && Looking(s.callers[c]) !in s.disk.names
  }

  /** Whoever misses for good after a flight comes from a success whose entry has been evicted since. */
  lemma MissedWasEvicted(env: Env, s: State, c: nat, f: nat) returns (j: nat)
    requires Reachable(env, s) && ReopenMisses(s, c, f)
    ensures Succeeded(f, s.flights) && s.flights[f].result.value.entry.Entry?
    ensures s.flights[f].result.value.entry.key == KeyOf(s.callers[c])
    ensures s.flights[f].result.value.since <= j < |s.evictions|
    ensures s.evictions[j].name == s.flights[f].result.value.entry
  {
    var x := s.callers[c];
    assert Shapes(s.callers) && Flights(s.callers, s.active, s.flights) && Misses(s.callers, s.flights, s.evictions)
           && Outcomes(s.disk, s.callers, s.flights, s.evictions)
    by { InvReachable(env, s); }
    hide Reachable;
    assert Names(c, x, s.active, s.flights) && Shape(x) && Missed(x, s.flights, s.evictions);
    var o := s.flights[f].result.value;
    assert OutcomeHolds(o, s.flights[f].id, s.disk, s.evictions);
    hide Flights, Shapes, Misses;
    assert EvictedSince(s.evictions, o.since, o.entry);
    j :| o.since <= j < |s.evictions| && s.evictions[j].name == o.entry;
  }

  /**
    After a successful flight its executor and its followers find the entry again for at least
    `maxUnused` from the time of the file, unless a lookup from before that time was still to
    touch the entry when it was committed.
  */
  lemma ReopeningHits(env: Env, s: State, c: nat, f: nat)
    requires Reachable(env, s) && c in s.callers && GivesUp(s.callers[c]) && s.callers[c].pc.pos == Again(f)
    ensures Succeeded(f, s.flights)
    ensures var o := s.flights[f].result.value;
            o.calm && s.now <= o.at + env.maxUnused ==> Looking(s.callers[c]) in s.disk.names
  {
    AgainSucceeded(env, s, c, f);
    var o := s.flights[f].result.value;
    if o.calm && Looking(s.callers[c]) !in s.disk.names {
      var j := MissedWasEvicted(env, s, c, f);
      EvictionsOf(env, s, f, j);
    }
  }

  lemma AgainSucceeded(env: Env, s: State, c: nat, f: nat)
    requires Reachable(env, s) && c in s.callers && s.callers[c].pc.Look? && s.callers[c].pc.pos == Again(f)
    ensures Succeeded(f, s.flights)
  {
    assert Names(c, s.callers[c], s.active, s.flights) by { InvReachable(env, s); }
  }

  /** A sweep that evicts what a flight committed undisturbed began more than `maxUnused` after the time of its file. */
  lemma EvictionsOf(env: Env, s: State, f: nat, j: nat)
    requires Reachable(env, s) && Succeeded(f, s.flights) && s.flights[f].result.value.calm
    requires s.flights[f].result.value.since <= j < |s.evictions| && s.evictions[j].name == s.flights[f].result.value.entry
    ensures s.flights[f].result.value.at <= s.evictions[j].mtime < s.evictions[j].cutoff <= s.now - env.maxUnused
  {
    assert Dates(s) && Times(env, s) && Outcomes(s.disk, s.callers, s.flights, s.evictions) by { InvReachable(env, s); }
    hide Reachable;
    assert Dated(s.flights[f].result.value, s);
  }

  // ---- and when it does not ----

  /** Some run makes a request miss when its flight's file is `age` old; `calm` is as recorded at the commit. */
  ghost predicate CanMiss(env: Env, req: Request, age: nat, calm: bool) {
    exists s: State, c: nat, f: nat :: MissesAt(env, s, c, f, req, age, calm)
  }

  ghost predicate MissesAt(env: Env, s: State, c: nat, f: nat, req: Request, age: nat, calm: bool) {
    && Reachable(env, s) && ReopenMisses(s, c, f) && s.callers[c].req == req && Succeeded(f, s.flights)
    && s.flights[f].result.value.calm == calm && s.now == s.flights[f].result.value.at + age
  }

  /** A caller has downloaded and is about to reopen; the other one has not entered yet. */
  lemma AboutToReopen(env: Env, s: State, c: nat, payload: Bytes) returns (f: nat, t: State)
    requires Reachable(env, s) && c in s.callers && s.callers[c].pc == Enter(Objects) && FlightId(s.callers[c]) !in s.active
    ensures Reachable(env, t) && t.now == s.now && t.evictions == s.evictions && t.active == s.active && t.sweep == s.sweep
    ensures t.callers == s.callers[c := s.callers[c].(pc := Look(Objects, Again(f)))]
    ensures var n := Entry(Objects, KeyOf(s.callers[c]));
            && n in t.disk.names && t.disk.names[n] in t.disk.inodes
            && t.disk.inodes[t.disk.names[n]] == Inode(payload, s.now)
            && f !in s.flights
            && t.flights == s.flights[f := Flight(FKey(Objects, KeyOf(s.callers[c])), c,
                                                  Some(Ok(n, |s.evictions|, s.now, Calm(s, n, s.now))))]
  {
    hide Reachable, Run, CacheKey, Calm;
    var acts, u;
    f, acts, u := Downloads(env, s, c, payload);
    t := Returns(env, u, c, f);
    assert t.callers == s.callers[c := s.callers[c].(pc := Look(Objects, Again(f)))];
  }

  /** Once the file is more than `maxUnused` old, a sweep before the reopening makes it miss. */
  lemma OldMiss(env: Env, req: Request, age: nat)
    requires age > env.maxUnused
    ensures CanMiss(env, req, age, true)
  {
    var s := BothMiss(env, req);
    var n := Entry(Objects, CacheKey(req));
    assert Calm(s, n, 0);
    hide Reachable, CacheKey, Calm;
    var f, t := AboutToReopen(env, s, 0, []);
    var u := Waits(env, t, age);
    var acts, v := SweepsAway(env, u, n);
    assert MissesAt(env, v, 0, f, req, age, true);
  }

  /** A caller has the first entry open, still to be touched with time 0, when it is evicted and the other caller replaces it. */
  lemma StaleTouchPending(env: Env, req: Request) returns (s: State, f: nat)
    ensures Reachable(env, s) && s.sweep.None? && s.now == env.maxUnused + 1 && CacheKey(req) == KeyOf(NewCaller(req, false))
    ensures 0 in s.callers && s.callers[0].pc.Touching? && s.callers[0].req == req && s.callers[0].pc.role == Objects
    ensures s.callers[0].pc.since == 0
    ensures 1 in s.callers && s.callers[1].req == req && s.callers[1].pc == Look(Objects, Again(f))
    ensures Succeeded(f, s.flights) && s.flights[f].result.value.at == s.now && !s.flights[f].result.value.calm
    ensures Entry(Objects, CacheKey(req)) in s.disk.names
  {
    var n := Entry(Objects, CacheKey(req));
    var s0 := BothMiss(env, req);
    hide Reachable, CacheKey, Calm, Run;
    var f0, s1 := AboutToReopen(env, s0, 0, []);
    var s2 := Hits(env, s1, 0);
    var s3 := Waits(env, s2, env.maxUnused + 1);
    var acts, s4 := SweepsAway(env, s3, n);
    var s5 := SweepsFail(env, s4);
    assert !Calm(s5, n, s5.now) by { OldLookup(s5, 0, n, s5.now); }
    f, s := AboutToReopen(env, s5, 1, []);
  }

  lemma OldLookup(s: State, c: nat, n: Name, t0: int)
    requires c in s.callers && s.callers[c].pc.Touching? && Looking(s.callers[c]) == n && s.callers[c].pc.since < t0
    ensures !Calm(s, n, t0)
  {
  }

  /** With an older touch outstanding, it can miss at any age. */
  lemma StaleMiss(env: Env, req: Request, age: nat)
    ensures CanMiss(env, req, age, false)
  {
    var n := Entry(Objects, CacheKey(req));
    var s, f := StaleTouchPending(env, req);
    hide Reachable, CacheKey, Run, Next, Enabled;
    var t := TouchesLate(env, s, 0);
    var u := Waits(env, t, age);
    assert s.disk.names[n] in u.disk.inodes && MtimeAt(u.disk, u.disk.names[n]) == 0;
    var acts, v := SweepsAway(env, u, n);
    assert MissesAt(env, v, 1, f, req, age, false);
  }

  /** Exactly when a reopening can miss: when the file is too old, or an older touch was outstanding at its commit. */
  lemma ReopeningMissesExactly(env: Env, req: Request, age: nat, calm: bool)
    ensures CanMiss(env, req, age, calm) <==> !calm || age > env.maxUnused
  {
    hide Reachable, Succeeded;
    if CanMiss(env, req, age, calm) && calm {
      var s: State, c: nat, f: nat :| MissesAt(env, s, c, f, req, age, calm);
      ReopeningHits(env, s, c, f);
    }
    if !calm {
      StaleMiss(env, req, age);
    } else if age > env.maxUnused {
      OldMiss(env, req, age);
    }
  }

  // ---- without evictions ----

  ghost predicate NobodyMissed(s: State) {
    s.evictions == [] ==> forall c :: c in s.callers ==> s.callers[c].pc != Done(Missing)
  }

  lemma MissedStep(env: Env, s: State, a: Action)
    requires Reachable(env, s) && Enabled(env, s, a) && NobodyMissed(s)
    ensures NobodyMissed(Next(env, s, a))
  {
    hide Reachable;
    if a.Act? {
      var c, x, m := a.c, s.callers[a.c], a.m;
      InodesSame(env, s, c, x, m);
      if Moved(env, s, x, m).pc == Done(Missing) {
        MissingOnlyAgain(env, s, x, m);
        var j := MissedWasEvicted(env, s, c, x.pc.pos.fid);
      }
      hide Moved, Effect, CanMove;
    }
  }

  lemma InodesSame(env: Env, s: State, c: nat, x: Caller, m: Move)
    requires CanMove(env, s, x, m)
    ensures Effect(env, s, c, x, m).evictions == s.evictions
  {
  }

  lemma MissingOnlyAgain(env: Env, s: State, x: Caller, m: Move)
    requires CanMove(env, s, x, m) && Moved(env, s, x, m).pc == Done(Missing)
    ensures m.LookMiss? && GivesUp(x) && x.pc.pos.Again?
  {
  }

  lemma {:induction false} MissedRun(env: Env, s: State, acts: seq<Action>, t: State)
    requires Reachable(env, s) && NobodyMissed(s) && Run(env, s, acts, t)
    ensures NobodyMissed(t)
    decreases |acts|
  {
    hide Reachable, NobodyMissed, Enabled, Next;
    if acts != [] {
      MissedStep(env, s, acts[0]);
      ReachableStep(env, s, acts[0]);
      MissedRun(env, Next(env, s, acts[0]), acts[1..], t);
    }
  }

  /** As long as nothing has been evicted, no caller ends up without a file and without an error. */
  lemma NoEvictionNoMiss(env: Env, s: State)
    requires Reachable(env, s) && s.evictions == []
    ensures forall c :: c in s.callers ==> s.callers[c].pc != Done(Missing)
  {
    var s0: State, acts: seq<Action> :| Initial(s0) && Run(env, s0, acts, s);
    assert Run(env, s0, [], s0);
    assert Reachable(env, s0);
    assert NobodyMissed(s0);
    hide Run, Initial, Reachable;
    MissedRun(env, s0, acts, s);
  }
}
