/** What the invariant means for the files, the callers, the gauges and the sweeper, over whole runs. */
module ProtocolSafety {
  import opened Prelude
  import opened CabFormat
  import opened CabDecoder
  import opened Symstore
  import opened CacheKeys
  import opened Disk
  import opened Protocol
  import opened ProtocolInv
  import opened ProtocolFlights
  import opened ProtocolFiles
  import opened ProtocolDates
  import opened ProtocolSteps
  import opened ProtocolRuns

  // ---- contents ----

  /** A cabinet that decodes to the file name and a fetched payload that is no cabinet itself. */
  ghost predicate DecodesToFetched(env: Env, key: Key, filename: string, b: Bytes, fetched: set<Transfer>) {
    exists p: Bytes ::
      Transfer(key, p) in fetched && !IsCab(p) && Decode(env.codec, b) == Some(Extracted(filename, p))
  }

  lemma WrappedDecodes(env: Env, key: Key, b: Bytes, fetched: set<Transfer>)
    requires Good(env, CabSynth, key, b, fetched) && ValidCodec(env.codec) && |FileOf(key.inner)| <= MAX_NAME
    ensures IsCab(b) && DecodesToFetched(env, key, FileOf(key.inner), b, fetched)
  {
    var p: Bytes :| Wraps(env, key, b, p, fetched);
    hide ValidCodec, Decode, Cabinet, FileOf, MAX_NAME, MAX_FOLDER;
    RoundTrip(env.codec, FileOf(key.inner), p);
  }

  /** What every committed file holds, in every reachable state. */
  lemma CommittedFilesAreComplete(env: Env, s: State, role: Role, key: Key)
    requires Reachable(env, s) && Entry(role, key) in s.disk.names
    ensures var b := BytesAt(s.disk, s.disk.names[Entry(role, key)]);
            && (role == Objects ==> Transfer(key, b) in s.fetched)
            && (role == RawCompressed ==> Transfer(key, b) in s.fetched && IsCab(b))
            && (role == CabSynth && ValidCodec(env.codec) && |FileOf(key.inner)| <= MAX_NAME ==>
                  IsCab(b) && DecodesToFetched(env, key, FileOf(key.inner), b, s.fetched))
  {
    InvReachable(env, s);
    var n := Entry(role, key);
    var b := BytesAt(s.disk, s.disk.names[n]);
    assert Good(env, n.role, n.key, b, s.fetched);
    if role == CabSynth && ValidCodec(env.codec) && |FileOf(key.inner)| <= MAX_NAME {
      WrappedDecodes(env, key, b, s.fetched);
    }
    hide ValidCodec, DecodesToFetched, FileOf, Inv, Reachable;
  }

  /** What every caller that gets a file can read from it, whatever has happened to the file's name. */
  lemma CallersReceiveCompleteFiles(env: Env, s: State, c: nat, ino: nat)
    requires Reachable(env, s) && c in s.callers && s.callers[c].pc == Done(File(ino))
    ensures var x, b := s.callers[c], BytesAt(s.disk, ino);
            && (!x.compressed ==> Transfer(KeyOf(x), b) in s.fetched)
            && (x.compressed && ValidCodec(env.codec) && |x.req.filename| <= MAX_NAME ==>
                  IsCab(b) && (Transfer(KeyOf(x), b) in s.fetched || DecodesToFetched(env, KeyOf(x), x.req.filename, b, s.fetched)))
  {
    InvReachable(env, s);
    var x, b := s.callers[c], BytesAt(s.disk, ino);
    assert Carries(env, x, s.disk, s.fetched);
    assert Serves(env, x, b, s.fetched);
    FileOfKey(x.req);
    if x.compressed && Good(env, CabSynth, KeyOf(x), b, s.fetched)
       && ValidCodec(env.codec) && |x.req.filename| <= MAX_NAME {
      WrappedDecodes(env, KeyOf(x), b, s.fetched);
    }
    hide ValidCodec, DecodesToFetched, FileOf, Inv, Reachable;
  }

  /** Every cache key stands for one payload. */
  ghost predicate OnePayloadPerKey(fetched: set<Transfer>) {
    forall t, u :: t in fetched && u in fetched && t.key == u.key ==> t == u
  }

  lemma FormFollowsPayload(env: Env, s: State, role: Role, key: Key, p: Bytes)
    requires Reachable(env, s) && OnePayloadPerKey(s.fetched)
    requires Entry(role, key) in s.disk.names && Transfer(key, p) in s.fetched && role != Objects
    ensures role == RawCompressed <==> IsCab(p)
  {
    InvReachable(env, s);
    var n := Entry(role, key);
    assert Good(env, n.role, n.key, BytesAt(s.disk, s.disk.names[n]), s.fetched);
    hide Inv, Reachable, IsCab;
    if role == CabSynth {
      var q: Bytes :| Wraps(env, key, BytesAt(s.disk, s.disk.names[n]), q, s.fetched);
      assert Transfer(key, p) == Transfer(key, q);
    } else {
      assert Transfer(key, p) == Transfer(key, BytesAt(s.disk, s.disk.names[n]));
    }
  }

  lemma CompressedWasFetched(env: Env, s: State, role: Role, key: Key) returns (p: Bytes)
    requires Reachable(env, s) && Entry(role, key) in s.disk.names
    ensures Transfer(key, p) in s.fetched
  {
    InvReachable(env, s);
    var n := Entry(role, key);
    var b := BytesAt(s.disk, s.disk.names[n]);
    assert Good(env, n.role, n.key, b, s.fetched);
    hide Inv, Reachable;
    if role == CabSynth {
      p :| Wraps(env, key, b, p, s.fetched);
    } else {
      p := b;
    }
  }

  /** With one payload per key, an object is mirrored or wrapped, never both. */
  lemma OneCompressedForm(env: Env, s: State, key: Key)
    requires Reachable(env, s) && OnePayloadPerKey(s.fetched)
    ensures !(Entry(RawCompressed, key) in s.disk.names && Entry(CabSynth, key) in s.disk.names)
  {
    hide Reachable, OnePayloadPerKey, IsCab;
    if Entry(CabSynth, key) in s.disk.names {
      var p := CompressedWasFetched(env, s, CabSynth, key);
      FormFollowsPayload(env, s, CabSynth, key, p);
      if Entry(RawCompressed, key) in s.disk.names {
        FormFollowsPayload(env, s, RawCompressed, key, p);
      }
    }
  }

  // ---- open handles ----

  lemma FrozenActed(env: Env, s: State, c: nat, x: Caller, m: Move, i: nat)
    requires Files(s.disk, s.callers, s.usedTemps) && c in s.callers && x == s.callers[c] && CanMove(env, s, x, m)
    requires Frozen(s.disk, s.callers, i)
    ensures Frozen(Effect(env, s, c, x, m).disk, s.callers[c := Moved(env, s, x, m)], i)
    ensures BytesAt(Effect(env, s, c, x, m).disk, i) == BytesAt(s.disk, i)
  {
    assert !Writes(x, i);
    FilesOfMove(env, s, c, x, m);
    FrozenMove(env, s, c, x, m, i);
    hide Moved, Effect, CanMove, Files, Writes;
  }

  lemma FrozenStep(env: Env, s: State, a: Action, i: nat)
    requires Files(s.disk, s.callers, s.usedTemps) && Enabled(env, s, a) && Frozen(s.disk, s.callers, i)
    ensures Frozen(Next(env, s, a).disk, Next(env, s, a).callers, i)
    ensures BytesAt(Next(env, s, a).disk, i) == BytesAt(s.disk, i)
  {
    hide Moved, Effect, CanMove, Files, Frozen, BytesAt;
    match a
    case Act(c, m) => FrozenActed(env, s, c, s.callers[c], m, i);
    case Arrive(c, req, compressed) => FrozenAround(s.disk, s.callers, s.disk, s.callers[c := NewCaller(req, compressed)], i);
    case Leave(c) => FrozenAround(s.disk, s.callers, s.disk, s.callers - {c}, i);
    case SweepUnlink => FrozenAround(s.disk, s.callers, UnlinkNext(s).disk, s.callers, i);
    case Restart(_) => FrozenAround(s.disk, s.callers, s.disk, map[], i);
    case _ =>
  }

  lemma FrozenAround(d: Disk, callers: map<nat, Caller>, d': Disk, callers': map<nat, Caller>, i: nat)
    requires Frozen(d, callers, i) && d'.inodes == d.inodes
    requires forall c :: c in callers' ==> (c in callers && callers'[c] == callers[c]) || callers'[c].tmp.None?
    ensures Frozen(d', callers', i) && BytesAt(d', i) == BytesAt(d, i)
  {
  }

  /** A move opens its own new file for writing, and no other. */
  lemma FrozenMove(env: Env, s: State, c: nat, x: Caller, m: Move, i: nat)
    requires CanMove(env, s, x, m) && i in s.disk.inodes && !Writes(x, i)
    ensures !Writes(Moved(env, s, x, m), i) && i in Effect(env, s, c, x, m).disk.inodes
  {
  }

  /** An open handle's bytes never change: not by a commit over its name, an eviction or a restart. */
  lemma {:induction false} HandlesKeepTheirBytes(env: Env, s: State, acts: seq<Action>, t: State, i: nat)
    requires Files(s.disk, s.callers, s.usedTemps) && Shapes(s.callers) && Run(env, s, acts, t) && Frozen(s.disk, s.callers, i)
    ensures Frozen(t.disk, t.callers, i) && BytesAt(t.disk, i) == BytesAt(s.disk, i)
    decreases |acts|
  {
    hide Files, Shapes, Next, Enabled, Frozen;
    if acts != [] {
      FrozenStep(env, s, acts[0], i);
      FilesKept(env, s, acts[0]);
      ShapeKept(env, s, acts[0]);
      HandlesKeepTheirBytes(env, Next(env, s, acts[0]), acts[1..], t, i);
    }
  }

  /** What a caller holds in a reachable state it can read for ever. */
  lemma HeldForEver(env: Env, s: State, c: nat, i: nat, acts: seq<Action>, t: State)
    requires Reachable(env, s) && c in s.callers && Holds(s.callers[c], i) && Run(env, s, acts, t)
    ensures BytesAt(t.disk, i) == BytesAt(s.disk, i)
  {
    InvReachable(env, s);
    assert Frozen(s.disk, s.callers, i);
    hide Inv, Reachable, Run, Frozen, Holds;
    HandlesKeepTheirBytes(env, s, acts, t, i);
  }

  // ---- gauges ----

  /** What a step adjusts the gauges by too much, in bytes and entries. */
  ghost function Loss(s: State, a: Action): (int, int) {
    match a
    case SweepFail => if s.sweep.Some? then (s.sweep.value.removedBytes, s.sweep.value.removedEntries) else (0, 0)
    case SweepUnlink =>
      if s.sweep.Some? && s.sweep.value.doomed.Some? then (UnlinkLoss(s.disk, s.sweep.value.doomed.value), 0) else (0, 0)
    case Act(c, CommitOk(seen)) =>
      if c in s.callers && s.callers[c].pc.Committing? then CommitLoss(s.disk, Target(s.callers[c]), seen) else (0, 0)
    case _ => (0, 0)
  }

  lemma LostStep(env: Env, s: State, a: Action)
    requires Enabled(env, s, a)
    ensures var t := Next(env, s, a);
            if a.Restart? then
              && t.lostBytes == (if a.seeded then 0 else -(TotalBytes(s.disk) as int))
              && t.lostEntries == (if a.seeded then 0 else -(TotalEntries(s.disk) as int))
            else t.lostBytes == s.lostBytes + Loss(s, a).0 && t.lostEntries == s.lostEntries + Loss(s, a).1
  {
  }

  /** What is lost over a run, starting from `bytes` and `entries`; a restart wipes the slate. */
  ghost function Lost(env: Env, s: State, acts: seq<Action>, bytes: int, entries: int): (int, int)
    decreases |acts|
  {
    if acts == [] || !Enabled(env, s, acts[0]) then (bytes, entries)
    else
      var t := Next(env, s, acts[0]);
      match acts[0]
      case Restart(seeded) =>
        if seeded then Lost(env, t, acts[1..], 0, 0)
        else Lost(env, t, acts[1..], -(TotalBytes(s.disk) as int), -(TotalEntries(s.disk) as int))
      case _ => Lost(env, t, acts[1..], bytes + Loss(s, acts[0]).0, entries + Loss(s, acts[0]).1)
  }

  lemma {:induction false} LostAlong(env: Env, s: State, acts: seq<Action>, t: State)
    requires Run(env, s, acts, t)
    ensures (t.lostBytes, t.lostEntries) == Lost(env, s, acts, s.lostBytes, s.lostEntries)
    decreases |acts|
  {
    if acts != [] {
      LostStep(env, s, acts[0]);
      hide Next, TotalBytes, TotalEntries, Loss;
      LostAlong(env, Next(env, s, acts[0]), acts[1..], t);
    }
  }

  /**
    The books of every run of the state machine: the gauges exceed what a walk would find by what a
    sweep in progress has not subtracted yet, plus what has been lost since the last restart: what
    failed sweeps had removed, and every difference between what a commit or the sweeper had seen
    of a path and what lay there when it acted. A restart whose walk fails starts short of everything.
  */
  lemma GaugesDriftExactly(env: Env, s: State, acts: seq<Action>, t: State)
    requires Initial(s) && Run(env, s, acts, t)
    ensures var (bytes, entries) := Lost(env, s, acts, 0, 0);
            && t.sizeGauge == TotalBytes(t.disk) + PendingBytes(t.sweep) + bytes
            && t.entryGauge == TotalEntries(t.disk) + PendingEntries(t.sweep) + entries
  {
    hide Run, TotalBytes, TotalEntries, Lost;
    LostAlong(env, s, acts, t);
    assert Reachable(env, t);
    InvReachable(env, t);
  }

  // ---- when nothing is lost ----

  /** A commit has seen the final path as it is. */
  predicate SeesPath(s: State, a: Action) {
    match a
    case Act(c, CommitOk(seen)) =>
      c in s.callers && s.callers[c].pc.Committing? ==> seen == SizeOf(s.disk, Target(s.callers[c]))
    case _ => true
  }

  /** No walk fails: neither a sweep's nor the one that seeds the gauges. */
  predicate WalksComplete(acts: seq<Action>) {
    forall a :: a in acts ==> !a.SweepFail? && (a.Restart? ==> a.seeded)
  }

  /**
    Commits see the final path as it is, and the sweeper unlinks a file right after it has looked
    at it; `looked` says that it just has.
  */
  ghost predicate Careful(env: Env, s: State, acts: seq<Action>, looked: bool)
    decreases |acts|
  {
    acts != [] && Enabled(env, s, acts[0]) ==>
      && SeesPath(s, acts[0]) && (acts[0].SweepUnlink? ==> looked)
      && Careful(env, Next(env, s, acts[0]), acts[1..], acts[0].SweepVisit?)
  }

  /** The sweeper has the size of the file it is about to unlink. */
  ghost predicate Looked(s: State) {
    s.sweep.Some? && s.sweep.value.doomed.Some? ==> UnlinkLoss(s.disk, s.sweep.value.doomed.value) == 0
  }

  lemma LooksRight(env: Env, s: State, a: Action)
    requires Enabled(env, s, a) && a.SweepVisit?
    ensures Looked(Next(env, s, a))
  {
  }

  lemma CarefulLoss(env: Env, s: State, a: Action)
    requires Enabled(env, s, a) && SeesPath(s, a) && (a.SweepUnlink? ==> Looked(s))
    ensures a.SweepFail? ==> Loss(s, a) == (s.sweep.value.removedBytes, s.sweep.value.removedEntries)
    ensures !a.SweepFail? ==> Loss(s, a) == (0, 0)
  {
    hide Effect, Moved;
  }

  /** A careful run loses what its failing walks had removed, and nothing else. */
  lemma {:induction false} CarefulRun(env: Env, s: State, acts: seq<Action>, t: State, looked: bool)
    requires Run(env, s, acts, t) && Careful(env, s, acts, looked) && (looked ==> Looked(s))
    requires forall a :: a in acts && a.Restart? ==> a.seeded && s.lostBytes == 0 && s.lostEntries == 0 && WalksComplete(acts)
    ensures t.lostBytes >= s.lostBytes && t.lostEntries >= s.lostEntries
    ensures WalksComplete(acts) ==> t.lostBytes == s.lostBytes && t.lostEntries == s.lostEntries
    decreases |acts|
  {
    if acts != [] {
      assert acts[0] in acts && forall a :: a in acts[1..] ==> a in acts;
      LostStep(env, s, acts[0]);
      CarefulLoss(env, s, acts[0]);
      if acts[0].SweepVisit? {
        LooksRight(env, s, acts[0]);
      }
      hide Next, Enabled, Looked, Loss, SeesPath;
      CarefulRun(env, Next(env, s, acts[0]), acts[1..], t, acts[0].SweepVisit?);
    }
  }

  /**
    The gauges refine the walk: after any run whose walks complete, and whose commits and unlinks
    come upon what they have seen, they equal what `computeSize` would find, plus exactly what a
    sweep in progress has removed and not subtracted yet.
  */
  lemma GaugesRefineTheWalk(env: Env, s: State, acts: seq<Action>, t: State)
    requires Initial(s) && Run(env, s, acts, t) && WalksComplete(acts) && Careful(env, s, acts, false)
    ensures t.sizeGauge == TotalBytes(t.disk) + PendingBytes(t.sweep)
    ensures t.entryGauge == TotalEntries(t.disk) + PendingEntries(t.sweep)
  {
    hide Run, TotalBytes, TotalEntries, Careful;
    CarefulRun(env, s, acts, t, false);
    assert Reachable(env, t);
    InvReachable(env, t);
  }

  /**
    A walk that fails leaves the gauges higher by what it had removed: in a run that is careful
    otherwise at least by that much for as long as the process lives, and by exactly that much as
    long as no other walk fails.
  */
  lemma FailedWalkDrifts(env: Env, s: State, acts: seq<Action>, t: State)
    requires Reachable(env, s) && Enabled(env, s, SweepFail) && Run(env, Next(env, s, SweepFail), acts, t)
    requires Careful(env, Next(env, s, SweepFail), acts, false) && forall a :: a in acts ==> !a.Restart?
    ensures var before, after := s.sizeGauge - PendingBytes(s.sweep) - TotalBytes(s.disk),
                                 t.sizeGauge - PendingBytes(t.sweep) - TotalBytes(t.disk);
            && after >= before + s.sweep.value.removedBytes
            && (WalksComplete(acts) ==> after == before + s.sweep.value.removedBytes)
    ensures var before, after := s.entryGauge - PendingEntries(s.sweep) - TotalEntries(s.disk),
                                 t.entryGauge - PendingEntries(t.sweep) - TotalEntries(t.disk);
            && after >= before + s.sweep.value.removedEntries
            && (WalksComplete(acts) ==> after == before + s.sweep.value.removedEntries)
  {
    var u := Next(env, s, SweepFail);
    LostStep(env, s, SweepFail);
    CarefulRun(env, u, acts, t, false);
    ReachableStep(env, s, SweepFail);
    hide Run, TotalBytes, TotalEntries, Next, Enabled, Reachable, Careful;
    ReachableRun(env, u, acts, t);
    assert Gauges(s) && Gauges(t) by {
      InvReachable(env, s);
      InvReachable(env, t);
    }
  }

  /** Sweeps that fail after removing an entry happen: here one has removed `payload` and nothing else is lost. */
  lemma FailedWalksHappen(env: Env, req: Request, payload: Bytes) returns (s: State)
    ensures Reachable(env, s) && Enabled(env, s, SweepFail) && s.lostBytes == 0 && s.lostEntries == 0
    ensures s.sweep.value.removedBytes == |payload| && s.sweep.value.removedEntries == 1
  {
    var s0 := BothMiss(env, req);
    hide Reachable, Run, CacheKey;
    var f, acts, s1 := Downloads(env, s0, 0, payload);
    var s2 := Waits(env, s1, env.maxUnused + 1);
    var n := Entry(Objects, CacheKey(req));
    var more;
    more, s := SweepsAway(env, s2, n);
  }

  // ---- staging files and what steps publish ----

  /** Every staging file has a caller at work on it, or was left by a crash. */
  lemma StagingFilesHaveOwners(env: Env, s: State, n: nat)
    requires Reachable(env, s) && Staged(n) in s.disk.names && n !in s.orphans
    ensures exists c :: c in s.callers && s.callers[c].tmp.Some? && s.callers[c].tmp.value.n == n
                        && (s.callers[c].pc.Writing? || s.callers[c].pc.Committing? || s.callers[c].pc.Cleaning?)
  {
    InvReachable(env, s);
    assert Staging(s.disk, s.callers, s.orphans, s.usedTemps) && Shapes(s.callers);
    hide Inv;
    var c :| c in s.callers && s.callers[c].tmp.Some? && s.callers[c].tmp.value.n == n;
    assert Shape(s.callers[c]);
  }

  /** Once a sweep is complete, no file of a crash remains whose time is before its cutoff. */
  lemma CompleteSweepsCleanUp(env: Env, s: State, n: nat)
    requires Reachable(env, s) && Enabled(env, s, SweepEnd) && n in s.orphans && Staged(n) in s.disk.names
    ensures MtimeAt(s.disk, s.disk.names[Staged(n)]) >= s.sweep.value.cutoff
  {
    InvReachable(env, s);
  }

  /** Two disks on which the entries agree, but for one. */
  lemma PublishedAlike(d: Disk, d': Disk, but: Option<Name>)
    requires forall n: Name :: n.Entry? && but != Some(n) ==> (n in d.names <==> n in d'.names)
    requires forall n: Name :: n in d.names && n.Entry? && but != Some(n) ==> BytesAt(d', d'.names[n]) == BytesAt(d, d.names[n])
    requires but.Some? ==> but.value.Entry? && but.value in d'.names
    ensures Published(d')
            == if but.None? then Published(d) else Published(d)[but.value := BytesAt(d', d'.names[but.value])]
  {
    hide BytesAt;
  }

  lemma EntriesAlike(env: Env, s: State, c: nat, x: Caller, m: Move)
    requires Files(s.disk, s.callers, s.usedTemps) && c in s.callers && x == s.callers[c] && CanMove(env, s, x, m)
    ensures var t, but := Effect(env, s, c, x, m), if m.CommitOk? then Some(Target(x)) else None;
            && (forall n: Name :: n.Entry? && but != Some(n) ==> (n in s.disk.names <==> n in t.disk.names))
            && (forall n: Name :: n in s.disk.names && n.Entry? && but != Some(n) ==> t.disk.names[n] == s.disk.names[n])
            && (forall n: Name :: n in s.disk.names && n.Entry? ==>
                  BytesAt(t.disk, s.disk.names[n]) == BytesAt(s.disk, s.disk.names[n]))
  {
    FilesOfMove(env, s, c, x, m);
    EntriesStay(env, s, c, x, m);
    hide Files, Effect, CanMove, BytesAt, Frozen, Target;
    var t := Effect(env, s, c, x, m);
    forall n | n in s.disk.names && n.Entry? ensures BytesAt(t.disk, s.disk.names[n]) == BytesAt(s.disk, s.disk.names[n]) {
      EntriesFrozen(s.disk, s.callers, s.usedTemps, n);
      FrozenApart(s.disk, s.callers, s.disk.names[n], c);
    }
  }

  lemma PublishedByMove(env: Env, s: State, c: nat, x: Caller, m: Move)
    requires Files(s.disk, s.callers, s.usedTemps) && c in s.callers && x == s.callers[c] && CanMove(env, s, x, m)
    ensures var before, after := Published(s.disk), Published(Effect(env, s, c, x, m).disk);
            after == if m.CommitOk? then before[Target(x) := BytesAt(s.disk, x.tmp.value.ino)] else before
  {
    var t := Effect(env, s, c, x, m);
    if m.CommitOk? {
      Owner(s.disk, s.callers, s.usedTemps, c);
      CommitMoves(env, s, c, x, m);
      CommitKeepsBytes(env, s, c, x, m);
    }
    EntriesAlike(env, s, c, x, m);
    hide Files, Effect, CanMove, BytesAt, Published, Moved;
    PublishedAlike(s.disk, t.disk, if m.CommitOk? then Some(Target(x)) else None);
  }

  lemma FrozenApart(d: Disk, callers: map<nat, Caller>, i: nat, c: nat)
    requires Frozen(d, callers, i) && c in callers
    ensures i in d.inodes && !Writes(callers[c], i)
  {
  }

  lemma CommitKeepsBytes(env: Env, s: State, c: nat, x: Caller, m: Move)
    requires CanMove(env, s, x, m) && m.CommitOk?
    ensures forall i :: BytesAt(Effect(env, s, c, x, m).disk, i) == BytesAt(s.disk, i)
  {
  }

  /**
    A commit publishes the whole staging file under one name, an eviction removes one name, and
    nothing else, in particular no failing operation, changes what is published.
  */
  lemma OnlyCommitsPublish(env: Env, s: State, a: Action)
    requires Reachable(env, s) && Enabled(env, s, a)
    ensures var before, after := Published(s.disk), Published(Next(env, s, a).disk);
            match a
            case Act(c, CommitOk(_)) => after == before[Target(s.callers[c]) := BytesAt(s.disk, s.callers[c].tmp.value.ino)]
            case SweepUnlink => after == before - {s.sweep.value.doomed.value.name}
            case _ => after == before
  {
    assert Files(s.disk, s.callers, s.usedTemps) by {
      InvReachable(env, s);
    }
    hide Published, Reachable, Effect, Moved, CanMove, Files;
    match a
    case Act(c, m) => PublishedByMove(env, s, c, s.callers[c], m);
    case SweepUnlink => PublishedByUnlink(s);
    case _ =>
  }

  lemma PublishedByUnlink(s: State)
    requires s.sweep.Some? && s.sweep.value.doomed.Some?
    ensures Published(UnlinkNext(s).disk) == Published(s.disk) - {s.sweep.value.doomed.value.name}
  {
  }

  lemma EntriesStay(env: Env, s: State, c: nat, x: Caller, m: Move)
    requires CanMove(env, s, x, m)
    ensures var t := Effect(env, s, c, x, m);
            && (forall n :: n in s.disk.names && n.Entry? ==> n in t.disk.names)
            && (forall n :: n in s.disk.names && n.Entry? && t.disk.names[n] != s.disk.names[n] ==> m.CommitOk? && n == Target(x))
            && (m.CommitOk? ==> Target(x) in t.disk.names && t.disk.names[Target(x)] == s.disk.names[Staged(x.tmp.value.n)])
  {
  }
}
