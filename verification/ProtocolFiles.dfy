/** Every step keeps what is known about files, handles and their contents. */
module ProtocolFiles {
  import opened Prelude
  import opened CabFormat
  import opened CacheKeys
  import opened Disk
  import opened Protocol
  import opened ProtocolInv

  // ---- files ----

  /** Only names and the set of inodes matter, and what the moving caller holds. */
  lemma FilesQuiet(d: Disk, d': Disk, callers: map<nat, Caller>, used: set<nat>, c: nat, y: Caller)
    requires Files(d, callers, used) && c in callers
    requires d'.names == d.names && d'.inodes.Keys == d.inodes.Keys && y.tmp == callers[c].tmp
    requires forall i :: Holds(y, i) ==> Frozen(d, callers, i)
    ensures Files(d', callers[c := y], used)
  {
    hide Holds;
    var next := callers[c := y];
    forall e | e in next ensures OwnsTemp(next[e], d', used) {
      assert OwnsTemp(callers[e], d, used);
    }
    forall e, j | e in next && Holds(next[e], j) ensures Frozen(d', next, j) {
      assert e != c ==> Holds(callers[e], j);
      assert Frozen(d, callers, j);
    }
  }

  /** A move that leaves the names alone. */
  predicate InPlace(m: Move) {
    !m.CreateTemp? && !m.CommitOk? && !m.Cleanup?
  }

  lemma InPlaceMove(env: Env, s: State, c: nat, x: Caller, m: Move)
    requires CanMove(env, s, x, m) && Shape(x) && InPlace(m) && WellFormed(s.disk)
    requires x.tmp.Some? ==> x.tmp.value.ino in s.disk.inodes
    ensures Moved(env, s, x, m).tmp == x.tmp
    ensures var d := Effect(env, s, c, x, m).disk; d.names == s.disk.names && d.inodes.Keys == s.disk.inodes.Keys
    ensures Effect(env, s, c, x, m).usedTemps == s.usedTemps
  {
  }

  lemma InPlaceHolds(env: Env, s: State, x: Caller, m: Move, i: nat)
    requires CanMove(env, s, x, m) && InPlace(m) && Holds(Moved(env, s, x, m), i)
    ensures Holds(x, i) || (m.LookHit? && s.disk.names[Looking(x)] == i)
  {
  }

  /** Nobody writes to a file with the name of an entry. */
  lemma EntriesFrozen(d: Disk, callers: map<nat, Caller>, used: set<nat>, n: Name)
    requires Files(d, callers, used) && n in d.names && n.Entry?
    ensures Frozen(d, callers, d.names[n])
  {
    forall c | c in callers ensures !Writes(callers[c], d.names[n]) {
      assert OwnsTemp(callers[c], d, used);
    }
  }

  lemma FilesInPlace(env: Env, s: State, c: nat, x: Caller, m: Move)
    requires Files(s.disk, s.callers, s.usedTemps) && c in s.callers && x == s.callers[c]
    requires CanMove(env, s, x, m) && Shape(x) && InPlace(m)
    ensures var t := Effect(env, s, c, x, m); Files(t.disk, s.callers[c := Moved(env, s, x, m)], t.usedTemps)
  {
    var y := Moved(env, s, x, m);
    assert OwnsTemp(x, s.disk, s.usedTemps);
    InPlaceMove(env, s, c, x, m);
    forall i | Holds(y, i) ensures Frozen(s.disk, s.callers, i) {
      InPlaceHolds(env, s, x, m, i);
      if !Holds(x, i) {
        EntriesFrozen(s.disk, s.callers, s.usedTemps, Looking(x));
      }
    }
    hide Files, Moved, Effect, CanMove, Shape, Holds, Frozen;
    FilesQuiet(s.disk, Effect(env, s, c, x, m).disk, s.callers, s.usedTemps, c, y);
  }

  lemma FilesCreate(d: Disk, callers: map<nat, Caller>, used: set<nat>, c: nat, y: Caller, n: nat, i: nat, now: int)
    requires Files(d, callers, used) && c in callers && callers[c].tmp.None? && n !in used && i !in d.inodes
    requires y.tmp == Some(Temp(n, i)) && forall j :: Holds(y, j) ==> Holds(callers[c], j)
    ensures Files(Create(d, n, i, now), callers[c := y], used + {n})
  {
    hide Holds;
    var d', next := Create(d, n, i, now), callers[c := y];
    forall e | e in next ensures OwnsTemp(next[e], d', used + {n}) {
      assert OwnsTemp(callers[e], d, used);
    }
    forall e, j | e in next && Holds(next[e], j) ensures Frozen(d', next, j) {
      assert Holds(callers[e], j) && Frozen(d, callers, j);
    }
  }

  lemma FilesCommit(d: Disk, callers: map<nat, Caller>, used: set<nat>, c: nat, y: Caller, n: nat, to: Name)
    requires Files(d, callers, used) && c in callers && callers[c].tmp.Some? && callers[c].tmp.value.n == n
    requires Staged(n) in d.names && to.Entry? && y.tmp.None? && forall j :: Holds(y, j) ==> Holds(callers[c], j)
    ensures Files(Rename(d, n, to), callers[c := y], used)
  {
    hide Holds;
    var d', next := Rename(d, n, to), callers[c := y];
    assert OwnsTemp(callers[c], d, used);
    forall e | e in next ensures OwnsTemp(next[e], d', used) {
      assert OwnsTemp(callers[e], d, used);
    }
    forall e, j | e in next && Holds(next[e], j) ensures Frozen(d', next, j) {
      assert Holds(callers[e], j) && Frozen(d, callers, j);
    }
  }

  lemma FilesRemove(d: Disk, callers: map<nat, Caller>, used: set<nat>, n: Name)
    requires Files(d, callers, used)
    ensures Files(Remove(d, n), callers, used)
  {
    hide Holds;
    forall e, j | e in callers && Holds(callers[e], j) ensures Frozen(Remove(d, n), callers, j) {
      assert Frozen(d, callers, j);
    }
  }

  /** A caller gives up its staging file. */
  lemma FilesDrop(d: Disk, callers: map<nat, Caller>, used: set<nat>, c: nat, y: Caller)
    requires Files(d, callers, used) && c in callers && y.tmp.None?
    requires forall j :: Holds(y, j) ==> Holds(callers[c], j)
    ensures Files(d, callers[c := y], used)
  {
    hide Holds;
    var next := callers[c := y];
    forall e, j | e in next && Holds(next[e], j) ensures Frozen(d, next, j) {
      assert Holds(callers[e], j) && Frozen(d, callers, j);
    }
  }

  lemma FilesArrive(d: Disk, callers: map<nat, Caller>, used: set<nat>, c: nat, y: Caller)
    requires Files(d, callers, used) && c !in callers && y.tmp.None? && forall j :: !Holds(y, j)
    ensures Files(d, callers[c := y], used)
  {
    hide Holds;
    var next := callers[c := y];
    forall e | e in next ensures OwnsTemp(next[e], d, used) {
      assert e != c ==> OwnsTemp(callers[e], d, used);
    }
    forall e, j | e in next && Holds(next[e], j) ensures Frozen(d, next, j) {
      assert e != c && Holds(callers[e], j) && Frozen(d, callers, j);
    }
  }

  lemma FilesLeave(d: Disk, callers: map<nat, Caller>, used: set<nat>, c: nat)
    requires Files(d, callers, used)
    ensures Files(d, callers - {c}, used)
  {
    hide Holds;
    var next := callers - {c};
    forall e, j | e in next && Holds(next[e], j) ensures Frozen(d, next, j) {
      assert Holds(callers[e], j) && Frozen(d, callers, j);
    }
  }

  lemma FilesCrash(d: Disk, callers: map<nat, Caller>, used: set<nat>)
    requires Files(d, callers, used)
    ensures Files(d, map[], used)
  {
  }

  /** A move that makes or removes names keeps the caller's handles or drops them. */
  lemma MoveDrops(env: Env, s: State, x: Caller, m: Move)
    requires CanMove(env, s, x, m) && !InPlace(m)
    ensures forall j :: Holds(Moved(env, s, x, m), j) ==> Holds(x, j)
    ensures m.CreateTemp? ==> Moved(env, s, x, m).tmp == Some(Temp(m.n, m.ino))
    ensures !m.CreateTemp? ==> Moved(env, s, x, m).tmp.None?
  {
  }

  lemma FilesActed(env: Env, s: State, c: nat, x: Caller, m: Move)
    requires Files(s.disk, s.callers, s.usedTemps) && c in s.callers && x == s.callers[c]
    requires CanMove(env, s, x, m) && Shape(x)
    ensures var t := Effect(env, s, c, x, m); Files(t.disk, s.callers[c := Moved(env, s, x, m)], t.usedTemps)
  {
    hide Files, Holds;
    if InPlace(m) {
      hide Moved, Effect, CanMove, Shape;
      FilesInPlace(env, s, c, x, m);
    } else {
      MoveDrops(env, s, x, m);
      var y := Moved(env, s, x, m);
      hide Moved;
      match m
      case CreateTemp(n, i) => FilesCreate(s.disk, s.callers, s.usedTemps, c, y, n, i, s.now);
      case CommitOk(_) => FilesCommit(s.disk, s.callers, s.usedTemps, c, y, x.tmp.value.n, Target(x));
      case Cleanup =>
        FilesRemove(s.disk, s.callers, s.usedTemps, Staged(x.tmp.value.n));
        FilesDrop(Remove(s.disk, Staged(x.tmp.value.n)), s.callers, s.usedTemps, c, y);
    }
  }

  lemma FilesKept(env: Env, s: State, a: Action)
    requires Shapes(s.callers) && Files(s.disk, s.callers, s.usedTemps) && Enabled(env, s, a)
    ensures var t := Next(env, s, a); Files(t.disk, t.callers, t.usedTemps)
  {
    hide Files, Moved, Effect, CanMove;
    match a
    case Act(c, m) => FilesActed(env, s, c, s.callers[c], m);
    case Arrive(c, req, compressed) => FilesArrive(s.disk, s.callers, s.usedTemps, c, NewCaller(req, compressed));
    case Leave(c) => FilesLeave(s.disk, s.callers, s.usedTemps, c);
    case SweepUnlink => FilesRemove(s.disk, s.callers, s.usedTemps, s.sweep.value.doomed.value.name);
    case Restart(_) => FilesCrash(s.disk, s.callers, s.usedTemps);
    case _ =>
  }

  // ---- contents ----

  lemma GoodGrows(env: Env, role: Role, key: Key, b: Bytes, f: set<Transfer>, f': set<Transfer>)
    requires Good(env, role, key, b, f) && f <= f'
    ensures Good(env, role, key, b, f')
  {
    if role == CabSynth {
      var p: Bytes :| Wraps(env, key, b, p, f);
      assert Wraps(env, key, b, p, f');
    }
  }

  lemma CarriesKept(env: Env, x: Caller, d: Disk, d': Disk, f: set<Transfer>, f': set<Transfer>)
    requires Carries(env, x, d, f) && f <= f'
    requires forall i :: Holds(x, i) || Writes(x, i) ==> BytesAt(d', i) == BytesAt(d, i)
    ensures Carries(env, x, d', f')
  {
    if x.obj.Some? { assert Holds(x, x.obj.value); }
    if x.tmp.Some? { assert Writes(x, x.tmp.value.ino); }
    if x.pc.Touching? {
      assert Holds(x, x.pc.ino);
      GoodGrows(env, x.pc.role, KeyOf(x), BytesAt(d, x.pc.ino), f, f');
    }
    if x.pc.Done? && x.pc.result.File? {
      assert Holds(x, x.pc.result.ino);
      ServesGrows(env, x, BytesAt(d, x.pc.result.ino), f, f');
    }
    if x.pc.Committing? && x.tmp.Some? {
      GoodGrows(env, TargetRole(x.pc.job), KeyOf(x), BytesAt(d, x.tmp.value.ino), f, f');
    }
    hide Good, Serves;
  }

  lemma ServesGrows(env: Env, x: Caller, b: Bytes, f: set<Transfer>, f': set<Transfer>)
    requires Serves(env, x, b, f) && f <= f'
    ensures Serves(env, x, b, f')
  {
    forall role | Good(env, role, KeyOf(x), b, f) ensures Good(env, role, KeyOf(x), b, f') {
      GoodGrows(env, role, KeyOf(x), b, f, f');
    }
    hide Good;
  }

  /** The files of everybody but the writer keep their bytes. */
  lemma OthersKeep(env: Env, d: Disk, d': Disk, callers: map<nat, Caller>, used: set<nat>, c: nat, e: nat, f: set<Transfer>, f': set<Transfer>)
    requires Files(d, callers, used) && c in callers && e in callers && e != c && f <= f'
    requires Carries(env, callers[e], d, f)
    requires forall i :: i in d.inodes && !Writes(callers[c], i) ==> BytesAt(d', i) == BytesAt(d, i)
    ensures Carries(env, callers[e], d', f')
  {
    hide Carries;
    assert OwnsTemp(callers[e], d, used);
    forall i | Holds(callers[e], i) || Writes(callers[e], i) ensures BytesAt(d', i) == BytesAt(d, i) {
      if Holds(callers[e], i) { assert Frozen(d, callers, i); }
    }
    CarriesKept(env, callers[e], d, d', f, f');
  }

  /** A step of caller `c` that writes to its own staging file at most. */
  lemma ContentsStep(env: Env, d: Disk, d': Disk, callers: map<nat, Caller>, used: set<nat>, f: set<Transfer>, f': set<Transfer>, c: nat, y: Caller)
    requires Files(d, callers, used) && Contents(env, d, callers, f) && c in callers && f <= f'
    requires forall i :: i in d.inodes && !Writes(callers[c], i) ==> BytesAt(d', i) == BytesAt(d, i)
    requires Carries(env, y, d', f')
    requires forall n :: n in d'.names && n.Entry? && !(n in d.names && d.names[n] == d'.names[n]) ==>
               Good(env, n.role, n.key, BytesAt(d', d'.names[n]), f')
    ensures Contents(env, d', callers[c := y], f')
  {
    hide Good, Carries;
    forall n | n in d'.names && n.Entry? ensures Good(env, n.role, n.key, BytesAt(d', d'.names[n]), f') {
      if n in d.names && d.names[n] == d'.names[n] {
        EntriesFrozen(d, callers, used, n);
        GoodGrows(env, n.role, n.key, BytesAt(d, d.names[n]), f, f');
      }
    }
    var next := callers[c := y];
    forall e | e in next ensures Carries(env, next[e], d', f') {
      if e != c {
        OthersKeep(env, d, d', callers, used, c, e, f, f');
      }
    }
  }

  lemma CarriesHit(env: Env, s: State, c: nat, x: Caller, m: Move)
    requires Contents(env, s.disk, s.callers, s.fetched) && c in s.callers && x == s.callers[c]
    requires CanMove(env, s, x, m) && Shape(x) && m.LookHit?
    ensures Carries(env, Moved(env, s, x, m), s.disk, s.fetched)
  {
    assert Carries(env, x, s.disk, s.fetched);
    hide Good, Serves;
    assert Looking(x) in s.disk.names && Looking(x).Entry?;
  }

  lemma CarriesTouched(env: Env, s: State, c: nat, x: Caller, m: Move)
    requires Carries(env, x, s.disk, s.fetched)
    requires CanMove(env, s, x, m) && Shape(x) && m.TouchEntry?
    ensures Carries(env, Moved(env, s, x, m), Effect(env, s, c, x, m).disk, s.fetched)
  {
    var i := x.pc.ino;
    var d := Effect(env, s, c, x, m).disk;
    assert BytesAt(d, i) == BytesAt(s.disk, i);
    var b := BytesAt(d, i);
    assert Good(env, x.pc.role, KeyOf(x), b, s.fetched);
    assert x.pc.role == Objects ==> Transfer(KeyOf(x), b) in s.fetched;
    hide Good;
  }

  /** A complete file is good for its key. */
  lemma CarriesComplete(env: Env, s: State, c: nat, x: Caller, m: Move)
    requires Carries(env, x, s.disk, s.fetched)
    requires CanMove(env, s, x, m) && Shape(x) && m.WriteAll?
    requires x.obj.Some? ==> x.obj.value != x.tmp.value.ino
    ensures var t := Effect(env, s, c, x, m); Carries(env, Moved(env, s, x, m), t.disk, t.fetched)
  {
    var y, t := Moved(env, s, x, m), Effect(env, s, c, x, m);
    assert BytesAt(t.disk, x.tmp.value.ino) == m.payload;
    if x.obj.Some? {
      assert BytesAt(t.disk, x.obj.value) == BytesAt(s.disk, x.obj.value);
    }
    if x.pc.job == Synthesize {
      FileOfKey(x.req);
      hide FileOf, Cabinet;
      assert Wraps(env, KeyOf(x), m.payload, BytesAt(s.disk, x.obj.value), t.fetched);
    }
    hide Wraps, Cabinet;
  }

  /** What every other move leaves of what the caller has open. */
  lemma ObjectOn(env: Env, s: State, c: nat, x: Caller, m: Move)
    requires CanMove(env, s, x, m) && !m.WriteAll? && !m.TouchEntry?
    requires x.obj.Some? ==> x.obj.value in s.disk.inodes && (x.tmp.Some? ==> x.obj.value != x.tmp.value.ino)
    ensures var t := Effect(env, s, c, x, m);
            && t.fetched == s.fetched && (x.obj.Some? ==> BytesAt(t.disk, x.obj.value) == BytesAt(s.disk, x.obj.value))
  {
    hide IsCab;
  }

  /** Every other move: the caller carries less, or what it carried before. */
  lemma CarriesOn(env: Env, s: State, c: nat, x: Caller, m: Move)
    requires Carries(env, x, s.disk, s.fetched)
    requires CanMove(env, s, x, m) && Shape(x) && !m.LookHit? && !m.TouchEntry? && !m.WriteAll?
    requires x.obj.Some? ==> x.obj.value in s.disk.inodes && (x.tmp.Some? ==> x.obj.value != x.tmp.value.ino)
    ensures var t := Effect(env, s, c, x, m); Carries(env, Moved(env, s, x, m), t.disk, t.fetched)
  {
    ObjectOn(env, s, c, x, m);
    hide Good, Serves, IsCab, Effect, BytesAt, CacheKey;
  }

  lemma CarriesMoved(env: Env, s: State, c: nat, x: Caller, m: Move)
    requires Files(s.disk, s.callers, s.usedTemps) && Contents(env, s.disk, s.callers, s.fetched)
    requires c in s.callers && x == s.callers[c] && CanMove(env, s, x, m) && Shape(x)
    ensures var t := Effect(env, s, c, x, m); Carries(env, Moved(env, s, x, m), t.disk, t.fetched)
  {
    assert Carries(env, x, s.disk, s.fetched);
    if x.obj.Some? {
      assert Holds(x, x.obj.value) && Frozen(s.disk, s.callers, x.obj.value);
      assert x.tmp.Some? ==> Writes(x, x.tmp.value.ino);
    }
    hide Files, Contents, Carries, Moved, CanMove, Shape;
    if m.LookHit? {
      assert Effect(env, s, c, x, m) == s;
      CarriesHit(env, s, c, x, m);
    } else if m.TouchEntry? {
      assert Effect(env, s, c, x, m).fetched == s.fetched;
      CarriesTouched(env, s, c, x, m);
    } else if m.WriteAll? {
      CarriesComplete(env, s, c, x, m);
    } else {
      CarriesOn(env, s, c, x, m);
    }
  }

  lemma FilesOfMove(env: Env, s: State, c: nat, x: Caller, m: Move)
    requires Files(s.disk, s.callers, s.usedTemps) && c in s.callers && x == s.callers[c] && CanMove(env, s, x, m)
    ensures var t := Effect(env, s, c, x, m);
            && s.fetched <= t.fetched
            && (forall i :: i in s.disk.inodes && !Writes(x, i) ==> BytesAt(t.disk, i) == BytesAt(s.disk, i))
            && (forall n :: n in t.disk.names && n.Entry? && !(n in s.disk.names && s.disk.names[n] == t.disk.names[n]) ==>
                  m.CommitOk? && n == Target(x) && t.disk.names[n] == x.tmp.value.ino)
  {
    assert OwnsTemp(x, s.disk, s.usedTemps);
    hide Files;
  }

  lemma ContentsActed(env: Env, s: State, c: nat, x: Caller, m: Move)
    requires Files(s.disk, s.callers, s.usedTemps) && Contents(env, s.disk, s.callers, s.fetched)
    requires c in s.callers && x == s.callers[c] && CanMove(env, s, x, m) && Shape(x)
    ensures var t := Effect(env, s, c, x, m);
            Contents(env, t.disk, s.callers[c := Moved(env, s, x, m)], t.fetched)
  {
    var y, t := Moved(env, s, x, m), Effect(env, s, c, x, m);
    CarriesMoved(env, s, c, x, m);
    FilesOfMove(env, s, c, x, m);
    if m.CommitOk? {
      assert Carries(env, x, s.disk, s.fetched);
      assert Good(env, Target(x).role, Target(x).key, BytesAt(s.disk, x.tmp.value.ino), s.fetched);
      assert t.fetched == s.fetched && BytesAt(t.disk, x.tmp.value.ino) == BytesAt(s.disk, x.tmp.value.ino);
    }
    hide Files, Contents, Carries, Good, Moved, Effect, CanMove, Shape;
    ContentsStep(env, s.disk, t.disk, s.callers, s.usedTemps, s.fetched, t.fetched, c, y);
  }

  lemma ContentsRemove(env: Env, d: Disk, callers: map<nat, Caller>, f: set<Transfer>, n: Name)
    requires Contents(env, d, callers, f)
    ensures Contents(env, Remove(d, n), callers, f)
  {
    forall e | e in callers ensures Carries(env, callers[e], Remove(d, n), f) {
      CarriesKept(env, callers[e], d, Remove(d, n), f, f);
    }
    hide Good, Carries;
  }

  lemma ContentsKept(env: Env, s: State, a: Action)
    requires Shapes(s.callers) && Files(s.disk, s.callers, s.usedTemps) && Contents(env, s.disk, s.callers, s.fetched)
    requires Enabled(env, s, a)
    ensures var t := Next(env, s, a); Contents(env, t.disk, t.callers, t.fetched)
  {
    hide Files, Moved, Effect, CanMove, Good;
    match a
    case Act(c, m) => ContentsActed(env, s, c, s.callers[c], m);
    case Arrive(c, req, compressed) =>
      assert Carries(env, NewCaller(req, compressed), s.disk, s.fetched);
      hide Carries;
    case SweepUnlink =>
      ContentsRemove(env, s.disk, s.callers, s.fetched, s.sweep.value.doomed.value.name);
      hide Contents;
    case _ =>
      hide Carries;
  }
}
