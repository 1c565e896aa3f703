/**
  The sweep as a loop and the sweep as steps agree: what `Evict` computes in one go on an
  undisturbed cache is what a run of the state machine's sweeper reaches.
*/
module SweepRuns {
  import opened Disk
  import opened DiskCache
  import opened Protocol
  import opened ProtocolInv
  import opened ProtocolSteps
  import opened ProtocolRuns

  /** The state after the visits of `done`, the rest of the listing being still there to visit. */
  ghost predicate HalfSwept(env: Env, s: State, done: seq<Name>, t: State) {
    && t.disk == AfterSweep(s.disk, done, s.now - env.maxUnused, {}) && SameLosses(s, t)
    && t.sweep.Some? && t.sweep.value.cutoff == s.now - env.maxUnused && t.sweep.value.doomed.None?
    && (forall n :: n in t.sweep.value.todo ==> n in s.disk.names && n !in done)
  }

  lemma {:induction false} VisitAll(env: Env, s: State, done: seq<Name>, rest: seq<Name>, t: State) returns (acts: seq<Action>, u: State)
    requires HalfSwept(env, s, done, t) && Lists(Walk(done + rest, |done + rest|), s.disk)
    requires forall n :: n in done + rest ==> n in s.disk.names
    ensures Run(env, t, acts, u) && HalfSwept(env, s, done + rest, u) && SweepsOnly(acts)
    decreases |rest|
  {
    hide HalfSwept, Run;
    if rest == [] {
      acts, u := [], t;
      assert done + rest == done;
      NoSteps(env, t);
    } else {
      var n := rest[0];
      assert (done + rest)[|done|] == n && n in done + rest;
      assert n !in done by { DistinctFrom(done, rest); }
      var a1, v := VisitOne(env, s, done, n, t);
      assert done + [n] + rest[1..] == done + rest;
      hide Lists;
      var a2;
      a2, u := VisitAll(env, s, done + [n], rest[1..], v);
      RunsJoin(env, t, a1, v, a2, u);
      acts := a1 + a2;
    }
  }

  /** Nothing but looks and unlinks of the sweeper. */
  predicate SweepsOnly(acts: seq<Action>) {
    forall a :: a in acts ==> a.SweepVisit? || a.SweepUnlink?
  }

  lemma DistinctFrom(done: seq<Name>, rest: seq<Name>)
    requires rest != [] && forall i, j :: 0 <= i < j < |done + rest| ==> (done + rest)[i] != (done + rest)[j]
    ensures rest[0] !in done
  {
    forall i | 0 <= i < |done| ensures done[i] != rest[0] {
      assert (done + rest)[i] != (done + rest)[|done|];
    }
  }

  /** A look, and an unlink at once if the file is old. */
  lemma VisitOnce(env: Env, t: State, n: Name) returns (acts: seq<Action>, u: State)
    requires t.sweep.Some? && t.sweep.value.doomed.None? && n in t.disk.names
    ensures Run(env, t, acts, u) && SweepsOnly(acts) && SameLosses(t, u)
    ensures var w := t.sweep.value;
            && u.disk == (if Swept(t.disk, n, w.cutoff, {}) then Remove(t.disk, n) else t.disk)
            && u.sweep.Some? && u.sweep.value.cutoff == w.cutoff && u.sweep.value.doomed.None?
            && u.sweep.value.todo == w.todo - {n}
  {
    var v := Next(env, t, SweepVisit(n));
    if v.sweep.value.doomed.Some? {
      u := Next(env, v, SweepUnlink);
      acts := [SweepVisit(n), SweepUnlink];
      TwoSteps(env, t, SweepVisit(n), v, SweepUnlink, u);
    } else {
      u := v;
      acts := [SweepVisit(n)];
      OneStep(env, t, SweepVisit(n));
    }
  }

  lemma VisitOne(env: Env, s: State, done: seq<Name>, n: Name, t: State) returns (acts: seq<Action>, u: State)
    requires HalfSwept(env, s, done, t) && n in s.disk.names && n !in done
    ensures Run(env, t, acts, u) && SweepsOnly(acts) && HalfSwept(env, s, done + [n], u)
  {
    AfterSweepNext(s.disk, done, n, s.now - env.maxUnused, {});
    assert n in t.disk.names;
    hide AfterSweep, Swept, Remove, Run;
    acts, u := VisitOnce(env, t, n);
  }

  lemma SweepStarts(env: Env, s: State)
    requires s.sweep.None?
    ensures Enabled(env, s, SweepBegin) && HalfSwept(env, s, [], Next(env, s, SweepBegin))
  {
    AfterSweepNext(s.disk, [], Staged(0), s.now - env.maxUnused, {});
  }

  lemma SweepStops(env: Env, s: State, listing: seq<Name>, u: State)
    requires HalfSwept(env, s, listing, u) && forall n :: n in s.disk.names ==> n in listing
    ensures Enabled(env, u, SweepEnd) && SameLosses(s, Next(env, u, SweepEnd))
    ensures Next(env, u, SweepEnd).disk == AfterSweep(s.disk, listing, s.now - env.maxUnused, {})
    ensures Next(env, u, SweepEnd).sweep.None?
  {
  }

  /** An undisturbed sweep is a run, and the gauges end as far from the truth as they began. */
  lemma SweepIsARun(env: Env, s: State, listing: seq<Name>) returns (looks: seq<Action>, t: State)
    requires Reachable(env, s) && s.sweep.None? && Lists(Walk(listing, |listing|), s.disk)
    requires forall n :: n in listing ==> n in s.disk.names
    ensures SweepsOnly(looks) && Run(env, s, [SweepBegin] + looks + [SweepEnd], t)
    ensures t.disk == AfterSweep(s.disk, listing, s.now - env.maxUnused, {}) && t.sweep.None?
    ensures t.sizeGauge - TotalBytes(t.disk) == s.sizeGauge - TotalBytes(s.disk)
    ensures t.entryGauge - TotalEntries(t.disk) == s.entryGauge - TotalEntries(s.disk)
  {
    assert [] + listing == listing;
    assert forall n :: n in s.disk.names ==> n in listing;
    SweepStarts(env, s);
    hide Lists, TotalBytes, TotalEntries, Enabled, Next, Reachable, Run, HalfSwept, AfterSweep;
    var u;
    looks, u := VisitAll(env, s, [], listing, Next(env, s, SweepBegin));
    SweepStops(env, s, listing, u);
    t := Next(env, u, SweepEnd);
    RunStarts(env, s, SweepBegin, looks, u);
    RunExtends(env, s, [SweepBegin] + looks, u, SweepEnd);
    ReachableRun(env, s, [SweepBegin] + looks + [SweepEnd], t);
    SameBooks(env, s, t);
  }

  lemma SameBooks(env: Env, s: State, t: State)
    requires Reachable(env, s) && Reachable(env, t) && s.sweep.None? && t.sweep.None? && SameLosses(s, t)
    ensures t.sizeGauge - TotalBytes(t.disk) == s.sizeGauge - TotalBytes(s.disk)
    ensures t.entryGauge - TotalEntries(t.disk) == s.entryGauge - TotalEntries(s.disk)
  {
    hide TotalBytes, TotalEntries, Reachable;
    assert Gauges(s) && Gauges(t) by {
      InvReachable(env, s);
      InvReachable(env, t);
    }
  }
}
