/**
  The state machine keys flights and entries by role and cache key, the program by texts made of
  them. Where the requests are such that the texts tell them apart, the two are the same.
*/
module ProtocolTexts {
  import opened Prelude
  import opened Symstore
  import opened CacheKeys
  import opened Disk
  import opened Protocol
  import opened ProtocolRuns

  function FlightText(k: FKey): string {
    RoleName(k.role) + "|" + k.key.id + "|" + k.key.inner
  }

  /** The text that is hashed; the path also names the role. */
  function EntryText(role: Role, key: Key): string {
    key.id + ":" + RoleName(role) + ":" + key.inner
  }

  ghost predicate ArrivalsFrom(acts: seq<Action>, reqs: iset<Request>) {
    forall a :: a in acts && a.Arrive? ==> a.req in reqs
  }

  ghost predicate KeyFrom(key: Key, reqs: iset<Request>) {
    exists req :: req in reqs && CacheKey(req) == key
  }

  /** Everything in the state stems from these requests. */
  ghost predicate Known(s: State, reqs: iset<Request>) {
    && (forall c :: c in s.callers ==> s.callers[c].req in reqs)
    && (forall n :: n in s.disk.names && n.Entry? ==> KeyFrom(n.key, reqs))
    && (forall k :: k in s.active ==> KeyFrom(k.key, reqs))
    && (Doom(s).Some? && Doom(s).value.Entry? ==> KeyFrom(Doom(s).value.key, reqs))
  }

  /** What the sweeper is about to unlink. */
  function Doom(s: State): Option<Name> {
    if s.sweep.Some? && s.sweep.value.doomed.Some? then Some(s.sweep.value.doomed.value.name) else None
  }

  lemma KnownMove(env: Env, s: State, c: nat, x: Caller, m: Move)
    requires CanMove(env, s, x, m)
    ensures var t := Effect(env, s, c, x, m);
            && (forall n :: n in t.disk.names && n.Entry? ==> n in s.disk.names || n.key == KeyOf(x))
            && (forall k :: k in t.active ==> k in s.active || k.key == KeyOf(x))
  {
    KeysOfMove(env, s, c, x, m);
    hide Effect, Moved, CacheKey;
  }

  lemma RequestAndSweepStay(env: Env, s: State, c: nat, x: Caller, m: Move)
    requires CanMove(env, s, x, m)
    ensures Moved(env, s, x, m).req == x.req && Effect(env, s, c, x, m).sweep == s.sweep
  {
  }

  lemma KnownAfter(s: State, t: State, c: nat, x: Caller, y: Caller, reqs: iset<Request>)
    requires Known(s, reqs) && c in s.callers && x == s.callers[c] && y.req == x.req && t.callers == s.callers[c := y]
    requires t.sweep == s.sweep
    requires forall n :: n in t.disk.names && n.Entry? ==> n in s.disk.names || n.key == KeyOf(x)
    requires forall k :: k in t.active ==> k in s.active || k.key == KeyOf(x)
    ensures Known(t, reqs)
  {
    assert KeyFrom(KeyOf(x), reqs);
    hide CacheKey, KeyFrom;
  }

  lemma KnownActed(env: Env, s: State, c: nat, x: Caller, m: Move, reqs: iset<Request>)
    requires Known(s, reqs) && c in s.callers && x == s.callers[c] && CanMove(env, s, x, m)
    ensures Known(Effect(env, s, c, x, m).(callers := s.callers[c := Moved(env, s, x, m)]), reqs)
  {
    hide Known, CacheKey, Moved, Effect, CanMove;
    KnownMove(env, s, c, x, m);
    RequestAndSweepStay(env, s, c, x, m);
    var y := Moved(env, s, x, m);
    KnownAfter(s, Effect(env, s, c, x, m).(callers := s.callers[c := y]), c, x, y, reqs);
  }

  lemma KnownStep(env: Env, s: State, a: Action, reqs: iset<Request>)
    requires Known(s, reqs) && Enabled(env, s, a) && (a.Arrive? ==> a.req in reqs)
    ensures Known(Next(env, s, a), reqs)
  {
    hide CacheKey, Moved, Effect, CanMove, KeyFrom;
    if a.Act? {
      hide Known;
      KnownActed(env, s, a.c, s.callers[a.c], a.m, reqs);
    }
  }

  lemma {:induction false} KnownRun(env: Env, s: State, acts: seq<Action>, t: State, reqs: iset<Request>)
    requires Known(s, reqs) && Run(env, s, acts, t) && ArrivalsFrom(acts, reqs)
    ensures Known(t, reqs)
    decreases |acts|
  {
    hide Known, Enabled, Next;
    if acts != [] {
      assert acts[0] in acts && forall a :: a in acts[1..] ==> a in acts;
      KnownStep(env, s, acts[0], reqs);
      KnownRun(env, Next(env, s, acts[0]), acts[1..], t, reqs);
    }
  }

  /** A key that a caller asks for, that is on the disk, or that has a flight. */
  ghost predicate InPlay(s: State, key: Key) {
    || (exists c :: c in s.callers && KeyOf(s.callers[c]) == key)
    || (exists n :: n in s.disk.names && n.Entry? && n.key == key)
    || (exists k :: k in s.active && k.key == key)
    || (exists n :: Doom(s) == Some(n) && n.Entry? && n.key == key)
  }

  /** Wherever the program compares two texts in this state, it decides as the state machine does on keys. */
  ghost predicate TextsDecide(s: State) {
    forall k: Key, l: Key, r: Role, q: Role :: InPlay(s, k) && InPlay(s, l) ==>
      && (FlightText(FKey(r, k)) == FlightText(FKey(q, l)) <==> FKey(r, k) == FKey(q, l))
      && (r == q && EntryText(r, k) == EntryText(q, l) <==> Entry(r, k) == Entry(q, l))
  }

  lemma InPlayIsKnown(s: State, key: Key, reqs: iset<Request>)
    requires Known(s, reqs) && InPlay(s, key)
    ensures KeyFrom(key, reqs)
  {
    hide CacheKey;
    if c :| c in s.callers && KeyOf(s.callers[c]) == key {
      assert s.callers[c].req in reqs;
    }
  }

  lemma TextsOf(req: Request, r: Role)
    ensures FlightText(FKey(r, CacheKey(req))) == FlightKey(SlotOf(r, req))
    ensures EntryText(r, CacheKey(req)) == Joined(SlotOf(r, req))
  {
  }

  lemma KeysTellTexts(k: Key, l: Key, r: Role, q: Role, reqs: iset<Request>)
    requires FlightsSeparate(reqs) && EntriesSeparate(reqs) && KeyFrom(k, reqs) && KeyFrom(l, reqs)
    ensures FlightText(FKey(r, k)) == FlightText(FKey(q, l)) <==> FKey(r, k) == FKey(q, l)
    ensures r == q && EntryText(r, k) == EntryText(q, l) <==> Entry(r, k) == Entry(q, l)
  {
    hide CacheKey, FlightKey, Joined, FlightText, EntryText, SlotOf;
    var a :| a in reqs && CacheKey(a) == k;
    var b :| b in reqs && CacheKey(b) == l;
    TextsOf(a, r);
    TextsOf(b, q);
    assert ShareFlight(r, a, q, b) <==> FlightText(FKey(r, k)) == FlightText(FKey(q, l));
    assert SharePath(r, a, q, b) <==> r == q && EntryText(r, k) == EntryText(q, l);
  }

  lemma NothingKnown(s: State, reqs: iset<Request>)
    requires Initial(s)
    ensures Known(s, reqs)
  {
  }

  lemma KnownDecides(s: State, reqs: iset<Request>)
    requires Known(s, reqs) && FlightsSeparate(reqs) && EntriesSeparate(reqs)
    ensures TextsDecide(s)
  {
    hide Known, InPlay, FlightsSeparate, EntriesSeparate, FlightText, EntryText, KeyFrom;
    forall k: Key, l: Key, r: Role, q: Role | InPlay(s, k) && InPlay(s, l)
      ensures FlightText(FKey(r, k)) == FlightText(FKey(q, l)) <==> FKey(r, k) == FKey(q, l)
      ensures r == q && EntryText(r, k) == EntryText(q, l) <==> Entry(r, k) == Entry(q, l)
    {
      InPlayIsKnown(s, k, reqs);
      InPlayIsKnown(s, l, reqs);
      KeysTellTexts(k, l, r, q, reqs);
    }
  }

  /** If the requests that arrive are told apart by their texts, the program's comparisons are the state machine's. */
  lemma TextsDecideAlongRuns(env: Env, s: State, acts: seq<Action>, t: State, reqs: iset<Request>)
    requires Initial(s) && Run(env, s, acts, t) && ArrivalsFrom(acts, reqs)
    requires FlightsSeparate(reqs) && EntriesSeparate(reqs)
    ensures TextsDecide(t)
  {
    hide Run, Initial, ArrivalsFrom, Known, TextsDecide, FlightsSeparate, EntriesSeparate;
    NothingKnown(s, reqs);
    KnownRun(env, s, acts, t, reqs);
    KnownDecides(t, reqs);
  }

  lemma BothArrive(env: Env, a: Request, b: Request) returns (s: State, acts: seq<Action>, t: State)
    ensures Initial(s) && Run(env, s, acts, t) && acts == [Arrive(0, a, false), Arrive(1, b, false)]
    ensures 0 in t.callers && t.callers[0].req == a && 1 in t.callers && t.callers[1].req == b
  {
    s := State(0, Disk(map[], map[]), map[], map[], map[], 0, 0, 0, None, {}, [], 0, 0, {}, {}, {});
    var first, second := Arrive(0, a, false), Arrive(1, b, false);
    var u := Next(env, s, first);
    t := Next(env, u, second);
    acts := [first, second];
    TwoSteps(env, s, first, u, second, t);
  }

  /** Two requests that share a text make a state in which the comparisons differ. */
  lemma SharedTextMisleads(env: Env, r: Role, a: Request, q: Role, b: Request) returns (s: State, acts: seq<Action>, t: State)
    requires ShareFlight(r, a, q, b) || SharePath(r, a, q, b)
    requires !(r == q && CacheKey(a) == CacheKey(b))
    ensures Initial(s) && Run(env, s, acts, t) && (forall x :: x in acts ==> x.Arrive? && (x.req == a || x.req == b))
    ensures !TextsDecide(t)
  {
    hide CacheKey, FlightKey, Joined, SlotOf, FlightText, EntryText, InPlay, Run, Initial;
    s, acts, t := BothArrive(env, a, b);
    TextsOf(a, r);
    TextsOf(b, q);
    BothInPlay(t, a, b);
    var k, l := CacheKey(a), CacheKey(b);
    assert FKey(r, k) != FKey(q, l) && (r == q ==> Entry(r, k) != Entry(q, l));
  }

  lemma BothInPlay(s: State, a: Request, b: Request)
    requires 0 in s.callers && s.callers[0].req == a && 1 in s.callers && s.callers[1].req == b
    ensures InPlay(s, CacheKey(a)) && InPlay(s, CacheKey(b))
  {
    assert KeyOf(s.callers[0]) == CacheKey(a) && KeyOf(s.callers[1]) == CacheKey(b);
  }

  /** In no run with these requests does a comparison of texts go wrong. */
  ghost predicate NeverMisled(env: Env, reqs: iset<Request>) {
    forall s: State, acts: seq<Action>, t: State ::
      Initial(s) && Run(env, s, acts, t) && ArrivalsFrom(acts, reqs) ==> TextsDecide(t)
  }

  /** The state machine's keys stand for the program's texts, in all runs, exactly if the requests do not share texts. */
  lemma TextsDecideExactly(env: Env, reqs: iset<Request>)
    ensures NeverMisled(env, reqs) <==> FlightsSeparate(reqs) && EntriesSeparate(reqs)
  {
    hide Run, Initial, TextsDecide, ShareFlight, SharePath, CacheKey;
    if FlightsSeparate(reqs) && EntriesSeparate(reqs) {
      forall s: State, acts: seq<Action>, t: State | Initial(s) && Run(env, s, acts, t) && ArrivalsFrom(acts, reqs)
        ensures TextsDecide(t)
      {
        TextsDecideAlongRuns(env, s, acts, t, reqs);
      }
    }
    if NeverMisled(env, reqs) {
      forall r: Role, a: Request, q: Role, b: Request | a in reqs && b in reqs && (ShareFlight(r, a, q, b) || SharePath(r, a, q, b))
        ensures r == q && CacheKey(a) == CacheKey(b)
      {
        if !(r == q && CacheKey(a) == CacheKey(b)) {
          var s, acts, t := SharedTextMisleads(env, r, a, q, b);
        }
      }
    }
  }

  /** For signatures: no PE signature may extend another identity by what that one's names absorb. */
  lemma TextsDecideForSignatures(env: Env, sigs: iset<string>)
    ensures NeverMisled(env, AskedBy(sigs)) <==> NoFlightNest(sigs) && NoDiskNest(sigs)
  {
    hide NeverMisled, FlightsSeparate, EntriesSeparate, NoFlightNest, NoDiskNest;
    FlightKeysExact(sigs);
    DiskKeysExact(sigs);
    TextsDecideExactly(env, AskedBy(sigs));
  }

  // ---- the tables the program keeps ----

  /** A path: that of an entry, or of a file in the staging directory. */
  datatype Place = EntryAt(role: Role, text: string) | StagedAt(n: nat)

  function PlaceOf(n: Name): Place {
    match n
    case Entry(role, key) => EntryAt(role, EntryText(role, key))
    case Staged(k) => StagedAt(k)
  }

  ghost predicate Injective<K, T>(ks: set<K>, f: K -> T) {
    forall k, l :: k in ks && l in ks && f(k) == f(l) ==> k == l
  }

  ghost function ImageKeys<K, T>(m: map<K, nat>, f: K -> T): set<T> {
    set k | k in m :: f(k)
  }

  ghost function Preimage<K, T>(m: map<K, nat>, f: K -> T, t: T): (k: K)
    requires t in ImageKeys(m, f)
    ensures k in m && f(k) == t
  {
    var k :| k in m && f(k) == t;
    k
  }

  /** The map under the images of its keys. */
  ghost function Image<K, T>(m: map<K, nat>, f: K -> T): map<T, nat> {
    map t | t in ImageKeys(m, f) :: m[Preimage(m, f, t)]
  }

  lemma ImageHas<K, T>(m: map<K, nat>, f: K -> T, k: K)
    requires Injective(m.Keys + {k}, f)
    ensures f(k) in Image(m, f) <==> k in m
    ensures k in m ==> Image(m, f)[f(k)] == m[k]
  {
    if k in m {
      assert forall l :: l in m && f(l) == f(k) ==> l == k;
    }
  }

  lemma ImageUpdate<K, T>(m: map<K, nat>, f: K -> T, k: K, v: nat)
    requires Injective(m.Keys + {k}, f)
    ensures Image(m[k := v], f) == Image(m, f)[f(k) := v]
  {
    var n := m[k := v];
    forall t | t in Image(n, f) ensures t in Image(m, f)[f(k) := v] && Image(n, f)[t] == Image(m, f)[f(k) := v][t] {
      var l :| l in n && f(l) == t;
      ImageHas(n, f, l);
      if l != k {
        ImageHas(m, f, l);
      }
    }
    forall t | t in Image(m, f)[f(k) := v] ensures t in Image(n, f) {
      if t != f(k) {
        var l :| l in m && f(l) == t;
        assert l in n;
      } else {
        assert k in n;
      }
    }
  }

  lemma ImageRemove<K, T>(m: map<K, nat>, f: K -> T, k: K)
    requires Injective(m.Keys + {k}, f)
    ensures Image(m - {k}, f) == Image(m, f) - {f(k)}
  {
    var n := m - {k};
    forall t | t in Image(n, f) ensures t in Image(m, f) - {f(k)} && Image(n, f)[t] == (Image(m, f) - {f(k)})[t] {
      var l :| l in n && f(l) == t;
      ImageHas(n, f, l);
      ImageHas(m, f, l);
    }
    forall t | t in Image(m, f) - {f(k)} ensures t in Image(n, f) {
      var l :| l in m && f(l) == t;
      assert l in n;
    }
  }

  /** Singleflight's table as the program keeps it, and the directory with its paths. */
  ghost function Table(s: State): map<string, nat> {
    Image(s.active, FlightText)
  }

  ghost function Directory(s: State): map<Place, nat> {
    Image(s.disk.names, PlaceOf)
  }

  /** What a step does to the table, decided by texts alone. */
  ghost function NextTable(env: Env, s: State, a: Action, table: map<string, nat>): map<string, nat>
    requires Enabled(env, s, a)
  {
    match a
    case Act(c, EnterFlight(fid)) =>
      var text := FlightText(FlightId(s.callers[c]));
      if text in table then table else table[text := fid]
    case Act(c, Publish) => table - {FlightText(FlightId(s.callers[c]))}
    case Restart(_) => map[]
    case _ => table
  }

  /** What a step does to the directory, by paths alone. */
  ghost function NextDirectory(env: Env, s: State, a: Action, dir: map<Place, nat>): map<Place, nat>
    requires Enabled(env, s, a)
  {
    match a
    case Act(c, CreateTemp(n, ino)) => dir[StagedAt(n) := ino]
    case Act(c, CommitOk(_)) =>
      var staged := StagedAt(s.callers[c].tmp.value.n);
      if staged in dir then (dir - {staged})[PlaceOf(Target(s.callers[c])) := dir[staged]] else dir
    case Act(c, Cleanup) => dir - {StagedAt(s.callers[c].tmp.value.n)}
    case SweepUnlink => dir - {PlaceOf(Doom(s).value)}
    case _ => dir
  }

  lemma FlightsInjective(s: State, id: FKey)
    requires TextsDecide(s) && InPlay(s, id.key)
    ensures Injective(s.active.Keys + {id}, FlightText)
  {
    hide FlightText, EntryText;
    forall k, l | k in s.active.Keys + {id} && l in s.active.Keys + {id} && FlightText(k) == FlightText(l) ensures k == l {
      assert InPlay(s, k.key) && InPlay(s, l.key);
      assert k == FKey(k.role, k.key) && l == FKey(l.role, l.key);
    }
  }

  lemma PlacesInjective(s: State, n: Name)
    requires TextsDecide(s) && (n.Entry? ==> InPlay(s, n.key))
    ensures Injective(s.disk.names.Keys + {n}, PlaceOf)
  {
    hide FlightText, EntryText;
    forall k, l | k in s.disk.names.Keys + {n} && l in s.disk.names.Keys + {n} && PlaceOf(k) == PlaceOf(l) ensures k == l {
      if k.Entry? {
        assert InPlay(s, k.key) && InPlay(s, l.key);
        assert k == Entry(k.role, k.key) && l == Entry(l.role, l.key);
      }
    }
  }

  lemma CallerInPlay(s: State, c: nat)
    requires c in s.callers
    ensures InPlay(s, KeyOf(s.callers[c]))
  {
  }

  /** What a move does to the table and to the names. */
  lemma KeysOfMove(env: Env, s: State, c: nat, x: Caller, m: Move)
    requires CanMove(env, s, x, m)
    ensures var t := Effect(env, s, c, x, m);
            && t.active == (if m.EnterFlight? && FlightId(x) !in s.active then s.active[FlightId(x) := m.fid]
                            else if m.Publish? then s.active - {FlightId(x)}
                            else s.active)
            && t.disk.names == (if m.CreateTemp? then s.disk.names[Staged(m.n) := m.ino]
                                else if m.CommitOk? then Rename(s.disk, x.tmp.value.n, Target(x)).names
                                else if m.Cleanup? then s.disk.names - {Staged(x.tmp.value.n)}
                                else s.disk.names)
  {
  }

  lemma TableStep(env: Env, s: State, a: Action)
    requires Enabled(env, s, a) && TextsDecide(s)
    ensures Table(Next(env, s, a)) == NextTable(env, s, a, Table(s))
  {
    if a.Act? {
      KeysOfMove(env, s, a.c, s.callers[a.c], a.m);
    }
    if a.Act? && (a.m.EnterFlight? || a.m.Publish?) {
      var id := FlightId(s.callers[a.c]);
      CallerInPlay(s, a.c);
      FlightsInjective(s, id);
      hide TextsDecide, FlightText, CacheKey, InPlay, Image, Injective, Effect, Moved, CanMove;
      ImageHas(s.active, FlightText, id);
      if a.m.EnterFlight? {
        ImageUpdate(s.active, FlightText, id, a.m.fid);
      } else {
        ImageRemove(s.active, FlightText, id);
      }
    } else if a.Restart? {
      assert Image<FKey, string>(map[], FlightText) == map[];
    } else {
      hide TextsDecide, Image, Effect, Moved, CanMove;
      assert Next(env, s, a).active == s.active;
    }
  }

  lemma RenamedImage(s: State, n: nat, to: Name)
    requires TextsDecide(s) && Staged(n) in s.disk.names && to.Entry? && InPlay(s, to.key)
    ensures StagedAt(n) in Directory(s)
    ensures Image(Rename(s.disk, n, to).names, PlaceOf)
            == (Directory(s) - {StagedAt(n)})[PlaceOf(to) := Directory(s)[StagedAt(n)]]
  {
    hide TextsDecide, EntryText, Image, Injective, InPlay;
    var staged := Staged(n);
    PlacesInjective(s, staged);
    PlacesInjective(s, to);
    ImageHas(s.disk.names, PlaceOf, staged);
    ImageRemove(s.disk.names, PlaceOf, staged);
    FewerInjective(s.disk.names.Keys + {to}, (s.disk.names - {staged}).Keys + {to}, PlaceOf);
    ImageUpdate(s.disk.names - {staged}, PlaceOf, to, s.disk.names[staged]);
  }

  lemma DirectoryActed(env: Env, s: State, c: nat, x: Caller, m: Move)
    requires c in s.callers && x == s.callers[c] && CanMove(env, s, x, m) && TextsDecide(s)
    ensures Image(Effect(env, s, c, x, m).disk.names, PlaceOf)
            == if m.CreateTemp? then Directory(s)[StagedAt(m.n) := m.ino]
               else if m.CommitOk? && StagedAt(x.tmp.value.n) in Directory(s)
               then (Directory(s) - {StagedAt(x.tmp.value.n)})[PlaceOf(Target(x)) := Directory(s)[StagedAt(x.tmp.value.n)]]
               else if m.Cleanup? then Directory(s) - {StagedAt(x.tmp.value.n)}
               else Directory(s)
  {
    KeysOfMove(env, s, c, x, m);
    CallerInPlay(s, c);
    if m.CreateTemp? || m.CommitOk? || m.Cleanup? {
      var staged := Staged(if m.CreateTemp? then m.n else x.tmp.value.n);
      hide TextsDecide, EntryText, CacheKey, Image, Injective, InPlay, Effect, Moved;
      PlacesInjective(s, staged);
      if m.CreateTemp? {
        ImageUpdate(s.disk.names, PlaceOf, staged, m.ino);
      } else if m.CommitOk? {
        RenamedImage(s, x.tmp.value.n, Target(x));
      } else {
        ImageRemove(s.disk.names, PlaceOf, staged);
      }
    }
  }

  lemma DirectoryUnlinked(s: State)
    requires s.sweep.Some? && s.sweep.value.doomed.Some? && TextsDecide(s)
    ensures Directory(UnlinkNext(s)) == Directory(s) - {PlaceOf(Doom(s).value)}
  {
    hide TextsDecide, EntryText, Image, Injective, InPlay;
    var n := Doom(s).value;
    DoomInPlay(s, n);
    PlacesInjective(s, n);
    ImageRemove(s.disk.names, PlaceOf, n);
    assert n !in s.disk.names ==> s.disk.names - {n} == s.disk.names;
  }

  lemma DirectoryStep(env: Env, s: State, a: Action)
    requires Enabled(env, s, a) && TextsDecide(s)
    ensures Directory(Next(env, s, a)) == NextDirectory(env, s, a, Directory(s))
  {
    hide TextsDecide, Image, PlaceOf, Effect, Moved, InPlay;
    match a
    case Act(c, m) => DirectoryActed(env, s, c, s.callers[c], m);
    case SweepUnlink => DirectoryUnlinked(s);
    case _ => assert Next(env, s, a).disk.names == s.disk.names;
  }

  lemma FewerInjective<K, T>(ks: set<K>, fewer: set<K>, f: K -> T)
    requires Injective(ks, f) && fewer <= ks
    ensures Injective(fewer, f)
  {
  }

  lemma DoomInPlay(s: State, n: Name)
    requires Doom(s) == Some(n)
    ensures n.Entry? ==> InPlay(s, n.key)
  {
  }

  /** The program's tables, kept and consulted by texts alone, go through every step as images of the state machine's. */
  lemma StepsByTexts(env: Env, s: State, a: Action)
    requires Enabled(env, s, a) && TextsDecide(s)
    ensures Table(Next(env, s, a)) == NextTable(env, s, a, Table(s))
    ensures Directory(Next(env, s, a)) == NextDirectory(env, s, a, Directory(s))
    ensures forall c :: c in s.callers && (s.callers[c].pc.Look? || s.callers[c].pc.Touching?) ==>
              var n := Looking(s.callers[c]);
              && (PlaceOf(n) in Directory(s) <==> n in s.disk.names)
              && (n in s.disk.names ==> Directory(s)[PlaceOf(n)] == s.disk.names[n])
    ensures forall c :: c in s.callers && s.callers[c].pc.Enter? ==>
              var id := FlightId(s.callers[c]);
              && (FlightText(id) in Table(s) <==> id in s.active)
              && (id in s.active ==> Table(s)[FlightText(id)] == s.active[id])
  {
    TableStep(env, s, a);
    DirectoryStep(env, s, a);
    hide TextsDecide, EntryText, FlightText, PlaceOf, CacheKey, Image, Injective, InPlay, Next, Enabled, NextTable, NextDirectory;
    forall c | c in s.callers && (s.callers[c].pc.Look? || s.callers[c].pc.Touching?)
      ensures var n := Looking(s.callers[c]);
              && (PlaceOf(n) in Directory(s) <==> n in s.disk.names)
              && (n in s.disk.names ==> Directory(s)[PlaceOf(n)] == s.disk.names[n])
    {
      CallerInPlay(s, c);
      PlacesInjective(s, Looking(s.callers[c]));
      ImageHas(s.disk.names, PlaceOf, Looking(s.callers[c]));
    }
    forall c | c in s.callers && s.callers[c].pc.Enter?
      ensures var id := FlightId(s.callers[c]);
              && (FlightText(id) in Table(s) <==> id in s.active)
              && (id in s.active ==> Table(s)[FlightText(id)] == s.active[id])
    {
      CallerInPlay(s, c);
      FlightsInjective(s, FlightId(s.callers[c]));
      ImageHas(s.active, FlightText, FlightId(s.callers[c]));
    }
  }

  /** The program's tables after a run, kept by texts alone. */
  ghost function TablesAfter(env: Env, s: State, acts: seq<Action>, table: map<string, nat>, dir: map<Place, nat>)
    : (map<string, nat>, map<Place, nat>)
    decreases |acts|
  {
    if acts == [] || !Enabled(env, s, acts[0]) then (table, dir)
    else TablesAfter(env, Next(env, s, acts[0]), acts[1..], NextTable(env, s, acts[0], table), NextDirectory(env, s, acts[0], dir))
  }

  lemma {:induction false} TablesAlong(env: Env, s: State, acts: seq<Action>, t: State, reqs: iset<Request>)
    requires Known(s, reqs) && Run(env, s, acts, t) && ArrivalsFrom(acts, reqs)
    requires FlightsSeparate(reqs) && EntriesSeparate(reqs)
    ensures TablesAfter(env, s, acts, Table(s), Directory(s)) == (Table(t), Directory(t))
    decreases |acts|
  {
    hide Known, Enabled, Next, FlightsSeparate, EntriesSeparate, Table, Directory, NextTable, NextDirectory, TextsDecide;
    if acts != [] {
      assert acts[0] in acts && forall a :: a in acts[1..] ==> a in acts;
      KnownDecides(s, reqs);
      StepsByTexts(env, s, acts[0]);
      KnownStep(env, s, acts[0], reqs);
      TablesAlong(env, Next(env, s, acts[0]), acts[1..], t, reqs);
    }
  }

  /** Over every run with requests that do not share texts, tables kept by texts alone stay images of the state machine's. */
  lemma TablesFollowRuns(env: Env, s: State, acts: seq<Action>, t: State, reqs: iset<Request>)
    requires Initial(s) && Run(env, s, acts, t) && ArrivalsFrom(acts, reqs)
    requires FlightsSeparate(reqs) && EntriesSeparate(reqs)
    ensures TablesAfter(env, s, acts, map[], map[]) == (Table(t), Directory(t))
  {
    NothingKnown(s, reqs);
    assert Table(s) == map[] && Directory(s) == map[];
    hide Run, Initial, ArrivalsFrom, Known, FlightsSeparate, EntriesSeparate, Table, Directory;
    TablesAlong(env, s, acts, t, reqs);
  }
}
