/** Every step keeps the times, and what is known about the age of entries that flights have committed. */
module ProtocolDates {
  import opened Prelude
  import opened CacheKeys
  import opened Disk
  import opened Protocol
  import opened ProtocolInv
  import opened ProtocolFiles

  // ---- times ----

  /** A move leaves a file's time alone, or writes the file now, or touches the entry with its stamp. */
  lemma TimesOfMove(env: Env, s: State, c: nat, x: Caller, m: Move)
    requires CanMove(env, s, x, m)
    ensures var t := Effect(env, s, c, x, m);
            && t.now == s.now && t.sweep == s.sweep && t.orphans == s.orphans && t.evictions == s.evictions
            && forall i :: i in t.disk.inodes ==>
                 || t.disk.inodes[i].mtime == s.now
                 || (i in s.disk.inodes && t.disk.inodes[i].mtime == s.disk.inodes[i].mtime)
                 || (m.TouchEntry? && Looking(x) in s.disk.names && s.disk.names[Looking(x)] == i
                     && t.disk.inodes[i].mtime == m.stamp)
  {
  }

  lemma TouchingSince(env: Env, s: State, x: Caller, m: Move)
    requires CanMove(env, s, x, m)
    ensures Moved(env, s, x, m).pc.Touching? ==> Moved(env, s, x, m).pc.since == s.now
  {
  }

  lemma TimesActed(env: Env, s: State, c: nat, x: Caller, m: Move)
    requires Times(env, s) && CanMove(env, s, x, m)
    ensures Times(env, Effect(env, s, c, x, m).(callers := s.callers[c := Moved(env, s, x, m)]))
  {
    TimesOfMove(env, s, c, x, m);
    TouchingSince(env, s, x, m);
    assert m.TouchEntry? ==> m.stamp <= s.now;
    hide Effect, CanMove, Moved, Looking;
  }

  lemma TimesKept(env: Env, s: State, a: Action)
    requires Times(env, s) && Enabled(env, s, a)
    ensures Times(env, Next(env, s, a))
  {
    match a
    case Act(c, m) =>
      hide Times, Effect, CanMove, Moved;
      TimesActed(env, s, c, s.callers[c], m);
    case _ =>
      hide Effect, CanMove, Moved;
  }

  // ---- young entries stay young ----

  /** The state after a move. */
  function Acted(env: Env, s: State, c: nat, x: Caller, m: Move): State
    requires CanMove(env, s, x, m)
  {
    Effect(env, s, c, x, m).(callers := s.callers[c := Moved(env, s, x, m)])
  }

  /** The file an entry leads to after a move is the one it led to before, or what has just been renamed. */
  lemma YoungFile(env: Env, s: State, c: nat, x: Caller, m: Move, n: Name, t0: int)
    requires Files(s.disk, s.callers, s.usedTemps) && c in s.callers && x == s.callers[c]
    requires CanMove(env, s, x, m) && n.Entry? && t0 <= s.now
    requires n in s.disk.names ==> MtimeAt(s.disk, s.disk.names[n]) >= t0
    requires Undisturbed(s.callers, n, t0) && Unreplaced(s.disk, s.callers, n, t0)
    ensures var d := Effect(env, s, c, x, m).disk; n in d.names ==> MtimeAt(d, d.names[n]) >= t0
  {
    TimesOfMove(env, s, c, x, m);
    FilesOfMove(env, s, c, x, m);
    if m.CommitOk? { CommitLeavesTimes(env, s, c, x, m); }
    var d := Effect(env, s, c, x, m).disk;
    if n in d.names && !(n in s.disk.names && s.disk.names[n] == d.names[n]) {
      assert Commits(x, s.disk, n);
    } else if m.TouchEntry? && n in d.names && Looking(x) in s.disk.names && s.disk.names[n] == s.disk.names[Looking(x)] {
      assert Looking(x) == n && x.pc.since >= t0;
    }
    hide Effect, CanMove, Files, Looking;
  }

  lemma CommitLeavesTimes(env: Env, s: State, c: nat, x: Caller, m: Move)
    requires CanMove(env, s, x, m) && m.CommitOk?
    ensures Effect(env, s, c, x, m).disk.inodes == s.disk.inodes
  {
  }

  lemma YoungCallers(env: Env, s: State, c: nat, x: Caller, m: Move, n: Name, t0: int)
    requires Undisturbed(s.callers, n, t0) && c in s.callers && x == s.callers[c] && CanMove(env, s, x, m) && t0 <= s.now
    ensures Undisturbed(s.callers[c := Moved(env, s, x, m)], n, t0)
  {
    TouchingSince(env, s, x, m);
    hide Moved, CanMove, Looking;
  }

  /** Who is about to commit was so before the move, with the same file, or has just completed it. */
  lemma CommitsAfter(env: Env, s: State, c: nat, x: Caller, m: Move, n: Name)
    requires CanMove(env, s, x, m)
    ensures var y, t := Moved(env, s, x, m), Effect(env, s, c, x, m);
            Commits(y, t.disk, n) ==>
              (y == x && Commits(x, s.disk, n) && t.disk == s.disk) || MtimeAt(t.disk, y.tmp.value.ino) == s.now
  {
  }

  /** The staging files of the others stay what they are, or go. */
  lemma OthersCommit(env: Env, s: State, c: nat, x: Caller, m: Move, e: nat, n: Name)
    requires Files(s.disk, s.callers, s.usedTemps) && c in s.callers && x == s.callers[c] && Shape(x) && CanMove(env, s, x, m)
    requires e in s.callers && e != c
    ensures var d, z := Effect(env, s, c, x, m).disk, s.callers[e];
            Commits(z, d, n) ==> Commits(z, s.disk, n) && MtimeAt(d, z.tmp.value.ino) == MtimeAt(s.disk, z.tmp.value.ino)
  {
    var z := s.callers[e];
    if z.tmp.Some? {
      assert OwnsTemp(z, s.disk, s.usedTemps) && OwnsTemp(x, s.disk, s.usedTemps);
      assert m.TouchEntry? ==> Looking(x).Entry?;
      hide Files, Shape;
    }
  }

  lemma YoungProducers(env: Env, s: State, c: nat, x: Caller, m: Move, n: Name, t0: int)
    requires Files(s.disk, s.callers, s.usedTemps) && c in s.callers && x == s.callers[c] && Shape(x)
    requires CanMove(env, s, x, m) && t0 <= s.now && Unreplaced(s.disk, s.callers, n, t0)
    ensures Unreplaced(Effect(env, s, c, x, m).disk, s.callers[c := Moved(env, s, x, m)], n, t0)
  {
    hide Files, Moved, Effect, CanMove, Shape, Commits;
    var d, next := Effect(env, s, c, x, m).disk, s.callers[c := Moved(env, s, x, m)];
    CommitsAfter(env, s, c, x, m, n);
    forall e | e in next && Commits(next[e], d, n) ensures next[e].tmp.Some? && MtimeAt(d, next[e].tmp.value.ino) >= t0 {
      CommitsHasFile(next[e], d, n);
      if e != c {
        OthersCommit(env, s, c, x, m, e, n);
      }
    }
  }

  lemma CommitsHasFile(x: Caller, d: Disk, n: Name)
    requires Commits(x, d, n)
    ensures x.tmp.Some?
  {
  }

  lemma YoungActed(env: Env, s: State, c: nat, x: Caller, m: Move, n: Name, t0: int, from: nat)
    requires Files(s.disk, s.callers, s.usedTemps) && c in s.callers && x == s.callers[c] && Shape(x)
    requires CanMove(env, s, x, m) && n.Entry? && t0 <= s.now && Young(s, n, t0, from)
    ensures Young(Acted(env, s, c, x, m), n, t0, from)
  {
    YoungFile(env, s, c, x, m, n, t0);
    YoungCallers(env, s, c, x, m, n, t0);
    YoungProducers(env, s, c, x, m, n, t0);
    TimesOfMove(env, s, c, x, m);
    hide Moved, Effect, CanMove, Shape, Undisturbed, Unreplaced, Files;
  }

  /** The sweeper reads the time of a young entry, and then finds it under that name. */
  lemma YoungSweep(env: Env, s: State, a: Action, n: Name, t0: int, from: nat)
    requires Enabled(env, s, a) && (a.SweepVisit? || a.SweepUnlink?) && Young(s, n, t0, from)
    ensures Young(Next(env, s, a), n, t0, from)
  {
    hide Undisturbed, Target;
    FewerCommit(s, Next(env, s, a), n, t0);
  }

  lemma FewerCommit(s: State, t: State, n: Name, t0: int)
    requires Unreplaced(s.disk, s.callers, n, t0) && t.callers == s.callers && t.disk.inodes == s.disk.inodes
    requires t.disk.names.Keys <= s.disk.names.Keys
    ensures Unreplaced(t.disk, t.callers, n, t0)
  {
    hide Target;
    forall c | c in t.callers && Commits(t.callers[c], t.disk, n) ensures Commits(s.callers[c], s.disk, n) {}
  }

  /** Callers come without touches and files, and go without them. */
  lemma YoungOther(env: Env, s: State, a: Action, n: Name, t0: int, from: nat)
    requires Shapes(s.callers) && Enabled(env, s, a) && !a.Act? && !a.SweepVisit? && !a.SweepUnlink? && Young(s, n, t0, from)
    ensures Young(Next(env, s, a), n, t0, from)
  {
    hide Shape, Target;
  }

  /** Whatever happens, a young entry stays young. */
  lemma YoungKept(env: Env, s: State, a: Action, n: Name, t0: int, from: nat)
    requires Shapes(s.callers) && Files(s.disk, s.callers, s.usedTemps) && Enabled(env, s, a) && n.Entry? && t0 <= s.now
    requires Young(s, n, t0, from)
    ensures Young(Next(env, s, a), n, t0, from)
  {
    hide Moved, Effect, CanMove, Shape, Files, Young;
    match a
    case Act(c, m) =>
      assert Shape(s.callers[c]);
      YoungActed(env, s, c, s.callers[c], m, n, t0, from);
    case SweepVisit(_) => YoungSweep(env, s, a, n, t0, from);
    case SweepUnlink => YoungSweep(env, s, a, n, t0, from);
    case _ => YoungOther(env, s, a, n, t0, from);
  }

  // ---- outcomes ----

  lemma CommitMoves(env: Env, s: State, c: nat, x: Caller, m: Move)
    requires CanMove(env, s, x, m) && m.CommitOk? && OwnsTemp(x, s.disk, s.usedTemps)
    ensures var y, t, at := Moved(env, s, x, m), Effect(env, s, c, x, m), MtimeAt(s.disk, x.tmp.value.ino);
            && y.pc.Finishing? && y.tmp.None? && Produces(x, Target(x))
            && y.pc.outcome == Ok(Target(x), |s.evictions|, at, Calm(s, Target(x), at))
            && t.evictions == s.evictions && t.now == s.now && t.disk.inodes == s.disk.inodes && t.sweep == s.sweep
            && Target(x) in t.disk.names && t.disk.names[Target(x)] == x.tmp.value.ino && x.tmp.value.ino in s.disk.inodes
  {
    hide Calm;
  }

  /** The entry a flight has just committed is as young as its file, if nobody is about to disturb it. */
  lemma YoungAtCommit(env: Env, s: State, c: nat, x: Caller, m: Move)
    requires Shapes(s.callers) && Flights(s.callers, s.active, s.flights) && Files(s.disk, s.callers, s.usedTemps) && Times(env, s)
    requires c in s.callers && x == s.callers[c] && CanMove(env, s, x, m) && m.CommitOk?
    ensures var y := Moved(env, s, x, m); y.pc.Finishing? && Dated(y.pc.outcome, Acted(env, s, c, x, m))
  {
    assert x.pc.Committing? && x.tmp.Some?;
    hide Moved, Effect, CanMove, Shapes, Flights, Files, Produces, Undisturbed, OwnsTemp, Target, Times, Dated;
    Owner(s.disk, s.callers, s.usedTemps, c);
    CommitMoves(env, s, c, x, m);
    NoOtherProducer(s, c, Target(x));
    FileTime(env, s, x.tmp.value.ino);
    var at := MtimeAt(s.disk, x.tmp.value.ino);
    if Undisturbed(s.callers, Target(x), at) {
      YoungCallers(env, s, c, x, m, Target(x), at);
    }
    DatedSo(s, c, x, Moved(env, s, x, m), Effect(env, s, c, x, m), Target(x), at);
  }

  lemma Owner(d: Disk, callers: map<nat, Caller>, used: set<nat>, c: nat)
    requires Files(d, callers, used) && c in callers
    ensures OwnsTemp(callers[c], d, used)
  {
  }

  lemma FileTime(env: Env, s: State, i: nat)
    requires Times(env, s) && i in s.disk.inodes
    ensures MtimeAt(s.disk, i) <= s.now
  {
  }

  lemma DatedSo(s: State, c: nat, x: Caller, y: Caller, t: State, n: Name, at: int)
    requires c in s.callers && x == s.callers[c] && x.tmp.Some? && at == MtimeAt(s.disk, x.tmp.value.ino) <= s.now
    requires y.pc.Finishing? && y.tmp.None?
    requires y.pc.outcome == Ok(n, |s.evictions|, at, Calm(s, n, at))
    requires Undisturbed(s.callers, n, at) ==> Undisturbed(s.callers[c := y], n, at)
    requires t.evictions == s.evictions && t.now == s.now && t.disk.inodes == s.disk.inodes && t.sweep == s.sweep
    requires n in t.disk.names && t.disk.names[n] == x.tmp.value.ino
    requires forall e :: e in s.callers && e != c ==> !Produces(s.callers[e], n)
    ensures Dated(y.pc.outcome, t.(callers := s.callers[c := y]))
  {
    var next := s.callers[c := y];
    forall e | e in next ensures !Commits(next[e], t.disk, n) {
      CommitsProduces(next[e], t.disk, n);
    }
    hide Undisturbed, Produces, Commits;
  }

  lemma CommitsProduces(x: Caller, d: Disk, n: Name)
    ensures Commits(x, d, n) ==> Produces(x, n) && x.tmp.Some?
  {
  }

  lemma OneExecutor(s: State, c: nat, e: nat, role: Role)
    requires Flights(s.callers, s.active, s.flights) && c in s.callers && e in s.callers && role != RawCompressed
    requires Executing(s.callers[c], role).Some? && Executing(s.callers[e], role).Some?
    requires KeyOf(s.callers[c]) == KeyOf(s.callers[e])
    ensures c == e
  {
    assert Executes(c, s.callers[c], Objects, s.active, s.flights) && Executes(e, s.callers[e], Objects, s.active, s.flights);
    assert Executes(c, s.callers[c], CabSynth, s.active, s.flights) && Executes(e, s.callers[e], CabSynth, s.active, s.flights);
  }

  lemma OneProducer(s: State, c: nat, e: nat, n: Name)
    requires Shapes(s.callers) && Flights(s.callers, s.active, s.flights) && c in s.callers && e in s.callers
    requires Produces(s.callers[c], n) && Produces(s.callers[e], n)
    ensures c == e
  {
    assert Shape(s.callers[c]) && Shape(s.callers[e]);
    hide Flights;
    OneExecutor(s, c, e, FlightRole(s.callers[c].pc.job));
  }

  lemma NoOtherProducer(s: State, c: nat, n: Name)
    requires Shapes(s.callers) && Flights(s.callers, s.active, s.flights) && c in s.callers && Produces(s.callers[c], n)
    ensures forall e :: e in s.callers && e != c ==> !Produces(s.callers[e], n)
  {
    hide Shapes, Flights, Produces;
    forall e | e in s.callers && Produces(s.callers[e], n) ensures e == c {
      OneProducer(s, c, e, n);
    }
  }

  /** An outcome keeps its date. */
  lemma DatedKept(env: Env, s: State, a: Action, o: Outcome)
    requires Shapes(s.callers) && Files(s.disk, s.callers, s.usedTemps) && Enabled(env, s, a)
    requires Dated(o, s) && (o.Ok? ==> o.entry.Entry?)
    ensures Dated(o, Next(env, s, a))
  {
    if o.Ok? && o.calm {
      YoungKept(env, s, a, o.entry, o.at, o.since);
    }
    NowGrows(env, s, a);
    hide Young, Next, Enabled, Shapes, Files;
  }

  lemma NowGrows(env: Env, s: State, a: Action)
    requires Enabled(env, s, a)
    ensures Next(env, s, a).now >= s.now
  {
  }

  /** Where the outcomes after a step come from. */
  lemma OutcomesOfMove(env: Env, s: State, c: nat, x: Caller, m: Move)
    requires Flights(s.callers, s.active, s.flights) && c in s.callers && x == s.callers[c] && Shape(x) && CanMove(env, s, x, m)
    ensures var y, t := Moved(env, s, x, m), Effect(env, s, c, x, m);
            && (forall f :: f in t.flights && t.flights[f].result.Some? ==>
                  || (f in s.flights && s.flights[f].result == t.flights[f].result)
                  || (x.pc.Finishing? && t.flights[f].result == Some(x.pc.outcome)))
            && (y.pc.Finishing? ==> m.CommitOk? || y.pc.outcome.Err?)
  {
  }

  /** Outcomes that were dated before a step and are dated after it, and nothing else but dated new ones. */
  lemma DatesGathered(s: State, t: State, c: nat, x: Caller)
    requires Dates(s) && Outcomes(s.disk, s.callers, s.flights, s.evictions) && c in s.callers && x == s.callers[c]
    requires forall o :: Dated(o, s) && (o.Ok? ==> o.entry.Entry?) ==> Dated(o, t)
    requires forall f :: f in t.flights && t.flights[f].result.Some? ==>
               || (f in s.flights && s.flights[f].result == t.flights[f].result)
               || (x.pc.Finishing? && t.flights[f].result == Some(x.pc.outcome))
    requires forall e :: e in t.callers && t.callers[e].pc.Finishing? ==>
               (e in s.callers && s.callers[e] == t.callers[e]) || Dated(t.callers[e].pc.outcome, t)
    ensures Dates(t)
  {
    OutcomesName(s);
    hide Dated, Outcomes;
  }

  lemma DatedActed(env: Env, s: State, c: nat, x: Caller, m: Move, o: Outcome)
    requires Files(s.disk, s.callers, s.usedTemps) && c in s.callers && x == s.callers[c] && Shape(x) && CanMove(env, s, x, m)
    requires Dated(o, s) && (o.Ok? ==> o.entry.Entry?)
    ensures Dated(o, Acted(env, s, c, x, m))
  {
    if o.Ok? && o.calm {
      YoungActed(env, s, c, x, m, o.entry, o.at, o.since);
    }
    TimesOfMove(env, s, c, x, m);
    hide Young, Moved, Effect, CanMove, Shape, Files;
  }

  lemma DatedAll(env: Env, s: State, c: nat, x: Caller, m: Move)
    requires Files(s.disk, s.callers, s.usedTemps) && c in s.callers && x == s.callers[c] && Shape(x) && CanMove(env, s, x, m)
    ensures forall o :: Dated(o, s) && (o.Ok? ==> o.entry.Entry?) ==> Dated(o, Acted(env, s, c, x, m))
  {
    hide Moved, Effect, CanMove, Shape, Files, Dated, Acted;
    forall o | Dated(o, s) && (o.Ok? ==> o.entry.Entry?) ensures Dated(o, Acted(env, s, c, x, m)) {
      DatedActed(env, s, c, x, m, o);
    }
  }

  lemma NewIsDated(env: Env, s: State, c: nat, x: Caller, m: Move)
    requires Shapes(s.callers) && Flights(s.callers, s.active, s.flights) && Files(s.disk, s.callers, s.usedTemps) && Times(env, s)
    requires c in s.callers && x == s.callers[c] && CanMove(env, s, x, m)
    requires Moved(env, s, x, m).pc.Finishing? ==> m.CommitOk? || Moved(env, s, x, m).pc.outcome.Err?
    ensures Moved(env, s, x, m).pc.Finishing? ==> Dated(Moved(env, s, x, m).pc.outcome, Acted(env, s, c, x, m))
  {
    hide Moved, Effect, CanMove, Shapes, Flights, Files, Times, Dated, Acted;
    if m.CommitOk? {
      YoungAtCommit(env, s, c, x, m);
    } else {
      ErrIsDated(Acted(env, s, c, x, m));
    }
  }

  lemma ShapeOf(callers: map<nat, Caller>, c: nat)
    requires Shapes(callers) && c in callers
    ensures Shape(callers[c])
  {
  }

  lemma DatesActed(env: Env, s: State, c: nat, x: Caller, m: Move)
    requires Shapes(s.callers) && Flights(s.callers, s.active, s.flights) && Files(s.disk, s.callers, s.usedTemps) && Times(env, s)
    requires Outcomes(s.disk, s.callers, s.flights, s.evictions) && Dates(s)
    requires c in s.callers && x == s.callers[c] && CanMove(env, s, x, m)
    ensures Dates(Acted(env, s, c, x, m))
  {
    hide Moved, Effect, CanMove, Shapes, Flights, Files, Times, Shape, Outcomes, Dates, Dated;
    ShapeOf(s.callers, c);
    OutcomesOfMove(env, s, c, x, m);
    NewIsDated(env, s, c, x, m);
    DatedAll(env, s, c, x, m);
    DatesGathered(s, Acted(env, s, c, x, m), c, x);
  }

  lemma ErrIsDated(t: State)
    ensures forall o: Outcome :: o.Err? ==> Dated(o, t)
  {
  }

  lemma OutcomesName(s: State)
    requires Outcomes(s.disk, s.callers, s.flights, s.evictions)
    ensures forall f :: f in s.flights && s.flights[f].result.Some? && s.flights[f].result.value.Ok? ==>
              s.flights[f].result.value.entry.Entry?
    ensures forall c :: c in s.callers && s.callers[c].pc.Finishing? && s.callers[c].pc.outcome.Ok? ==>
              s.callers[c].pc.outcome.entry.Entry?
  {
    forall f | f in s.flights && s.flights[f].result.Some?
      ensures OutcomeHolds(s.flights[f].result.value, s.flights[f].id, s.disk, s.evictions) {}
    forall c | c in s.callers && s.callers[c].pc.Finishing?
      ensures OutcomeHolds(s.callers[c].pc.outcome, FKey(s.callers[c].pc.role, KeyOf(s.callers[c])), s.disk, s.evictions) {}
  }

  lemma DatesKept(env: Env, s: State, a: Action)
    requires Shapes(s.callers) && Flights(s.callers, s.active, s.flights) && Files(s.disk, s.callers, s.usedTemps) && Times(env, s)
    requires Outcomes(s.disk, s.callers, s.flights, s.evictions) && Dates(s) && Enabled(env, s, a)
    ensures Dates(Next(env, s, a))
  {
    hide Moved, Effect, CanMove, Flights, Files, Shapes, Times, Outcomes;
    match a
    case Act(c, m) =>
      hide Dates;
      DatesActed(env, s, c, s.callers[c], m);
    case _ =>
      var t := Next(env, s, a);
      OutcomesName(s);
      forall o | Dated(o, s) && (o.Ok? ==> o.entry.Entry?) ensures Dated(o, t) {
        DatedKept(env, s, a, o);
      }
      hide Dated;
  }
}
