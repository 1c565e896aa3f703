/**
  The cache directory's operations as the program runs them: the file system and the two gauges
  are fields, and every operating-system call that may fail is told by a parameter.
*/
module DiskCache {
  import opened Prelude
  import opened CacheKeys
  import opened Disk
  import opened Prune

  datatype Lookup = Hit(ino: nat) | Miss | LookupFailed

  /** What the sweeper or the size walk meets: the files it lists in order, and where the walk fails. */
  datatype Walk = Walk(listing: seq<Name>, failsAt: nat)

  /** The walk lists every file once; it may also list files that have vanished since. */
  ghost predicate Lists(w: Walk, d: Disk) {
    && (forall n :: n in d.names ==> n in w.listing)
    && (forall i, j :: 0 <= i < j < |w.listing| ==> w.listing[i] != w.listing[j])
  }

  function Visited(w: Walk): seq<Name> {
    if w.failsAt < |w.listing| then w.listing[..w.failsAt] else w.listing
  }

  predicate Completes(w: Walk) {
    w.failsAt >= |w.listing|
  }

  /** Whether a sweep with this cutoff removes a file; `stuck` are those that cannot be removed. */
  predicate Swept(d: Disk, n: Name, cutoff: int, stuck: set<Name>) {
    n in d.names && MtimeAt(d, d.names[n]) < cutoff && n !in stuck
  }

  /** What is left when the files `done` have been looked at. */
  function AfterSweep(d: Disk, done: seq<Name>, cutoff: int, stuck: set<Name>): Disk {
    d.(names := map n | n in d.names && !(n in done && Swept(d, n, cutoff, stuck)) :: d.names[n])
  }

  lemma AfterSweepNext(d: Disk, done: seq<Name>, n: Name, cutoff: int, stuck: set<Name>)
    ensures AfterSweep(d, [], cutoff, stuck) == d
    ensures var cur := AfterSweep(d, done, cutoff, stuck);
            AfterSweep(d, done + [n], cutoff, stuck) == if Swept(cur, n, cutoff, stuck) then Remove(cur, n) else cur
  {
  }

  /** Where the files of a disk lie in the tree. */
  function Places(d: Disk, place: Name -> Path): set<Path> {
    set n | n in d.names :: place(n)
  }

  /** Different files lie at different places, and exactly the staging files directly under `tmp`. */
  ghost predicate Placed(place: Name -> Path) {
    && (forall m, n :: place(m) == place(n) ==> m == n)
    && (forall n :: InTmp(place(n)) <==> n.Staged?)
  }

  /** A sort by descending length; where equal lengths end up is open. */
  ghost predicate SortsByLength(sort: seq<Path> -> seq<Path>) {
    forall ps :: multiset(sort(ps)) == multiset(ps) && DeepestFirst(sort(ps))
  }

  lemma PlacesRemove(d: Disk, n: Name, place: Name -> Path)
    requires n in d.names && Placed(place)
    ensures place(n) in Places(d, place) && Places(Remove(d, n), place) == Places(d, place) - {place(n)}
  {
  }

  lemma FileGoes(dirs: set<Path>, files: set<Path>, p: Path)
    requires ValidTree(dirs, files) && p in files
    ensures ValidTree(dirs, files - {p})
  {
  }

  /** The sizes of the entries not counted yet. */
  function Uncounted(d: Disk, done: seq<Name>): map<Name, nat> {
    map n | n in Sizes(d) && n !in done :: Sizes(d)[n]
  }

  lemma UncountedNext(d: Disk, done: seq<Name>, n: Name)
    requires n !in done
    ensures var was, left := Uncounted(d, done), Uncounted(d, done + [n]);
            if n in d.names && n.Entry?
            then Sum(was) == |BytesAt(d, d.names[n])| + Sum(left) && |was| == 1 + |left|
            else was == left
  {
    var was, left := Uncounted(d, done), Uncounted(d, done + [n]);
    if n in d.names && n.Entry? {
      SumRemove(was, n);
      assert left == was - {n};
    }
  }

  lemma SumEmpty()
    ensures Sum<Name>(map[]) == 0
  {
  }

  lemma UncountedEnds(d: Disk, w: Walk)
    requires Lists(w, d)
    ensures Uncounted(d, []) == Sizes(d) && Uncounted(d, w.listing) == map[]
  {
  }

  /** Staging names and inodes are handed out once. */
  ghost predicate Unused(d: Disk, next: nat) {
    && (forall n: nat :: Staged(n) in d.names ==> n < next)
    && (forall i :: i in d.inodes ==> i < next)
  }

  /** Whoever holds a file open reads the same bytes as before. */
  ghost predicate Kept(d: Disk, d': Disk) {
    forall i :: i in d.inodes ==> i in d'.inodes && BytesAt(d', i) == BytesAt(d, i)
  }

  lemma KeptChain(d0: Disk, d1: Disk, d2: Disk)
    requires Kept(d0, d1) && Kept(d1, d2)
    ensures Kept(d0, d2)
  {
  }

  /** Writing a new file changes nobody else's bytes. */
  lemma KeptThroughTemp(d0: Disk, d1: Disk, t: nat, bytes: Bytes, t0: int, t1: int)
    requires Kept(d0, d1) && t !in d1.inodes
    ensures Kept(d0, WriteFile(Create(d1, t, t, t0), t, bytes, t1))
  {
  }

  lemma RenameKeeps(d: Disk, next: nat, t: nat, to: Name)
    requires WellFormed(d) && Unused(d, next) && Staged(t) in d.names && to.Entry?
    ensures WellFormed(Rename(d, t, to)) && Unused(Rename(d, t, to), next)
  {
  }

  lemma CreateKeeps(d: Disk, n: nat, now: int)
    requires WellFormed(d) && Unused(d, n)
    ensures var c := Create(d, n, n, now); WellFormed(c) && Unused(c, n + 1) && Kept(d, c)
    ensures n !in d.inodes && Staged(n) !in d.names
  {
  }

  /** A new file changes no entry. */
  lemma CreateHides(d: Disk, n: nat, now: int)
    requires WellFormed(d) && n !in d.inodes && Staged(n) !in d.names
    ensures var c := Create(d, n, n, now);
            && Published(c) == Published(d) && Sizes(c) == Sizes(d)
            && Staged(n) !in StagingNames(d) && StagingNames(c) == StagingNames(d) + {Staged(n)}
  {
    SizesIgnoreCreate(d, n, n, now);
    hide Sizes;
  }

  lemma RemoveKeeps(d: Disk, next: nat, n: Name)
    requires WellFormed(d) && Unused(d, next) && n in d.names
    ensures WellFormed(Remove(d, n)) && Unused(Remove(d, n), next)
    ensures |Remove(d, n).names| == |d.names| - 1
  {
    assert d.names.Keys == Remove(d, n).names.Keys + {n};
    assert |Remove(d, n).names.Keys| == |Remove(d, n).names|;
  }

  class Cache {
    var disk: Disk
    var now: int
    var sizeGauge: int
    var entryGauge: int
    var next: nat   // names and inodes from here on are unused

    ghost predicate Valid()
      reads this
    {
      WellFormed(disk) && Unused(disk, next)
    }

    /** How far the gauges are from what a walk would find. */
    ghost function ByteDrift(): int
      reads this
    {
      sizeGauge - TotalBytes(disk)
    }

    ghost function EntryDrift(): int
      reads this
    {
      entryGauge - TotalEntries(disk)
    }

    constructor (now: int)
      ensures Valid() && disk == Disk(map[], map[]) && sizeGauge == 0 && entryGauge == 0 && this.now == now
      ensures ByteDrift() == 0 && EntryDrift() == 0
    {
      disk, this.now, sizeGauge, entryGauge, next := Disk(map[], map[]), now, 0, 0, 0;
      new;
      assert Sizes(disk) == map[];
    }

    /** A hit touches the entry's name; a miss is no error. */
    method Lookup(role: Role, key: Key, fails: bool, touched: bool) returns (r: Lookup)
      requires Valid()
      modifies this`disk
      ensures Valid() && Published(disk) == old(Published(disk)) && StagingNames(disk) == old(StagingNames(disk)) && disk.names == old(disk.names)
      ensures ByteDrift() == old(ByteDrift()) && EntryDrift() == old(EntryDrift())
      ensures r.Hit? <==> !fails && Entry(role, key) in disk.names
      ensures r.Hit? ==> r.ino == disk.names[Entry(role, key)] && (touched ==> MtimeAt(disk, r.ino) == now)
      ensures r.Miss? <==> !fails && Entry(role, key) !in disk.names
      ensures Kept(old(disk), disk)
    {
      if fails {
        return LookupFailed;
      }
      var n := Entry(role, key);
      if n !in disk.names {
        return Miss;
      }
      r := Hit(disk.names[n]);
      if touched {
        SizesIgnoreTouch(disk, n, now);
        disk := Touch(disk, n, now);
      }
    }

    /** An empty file under a name and an inode nobody has used. */
    method NewTemp(fails: bool) returns (t: Option<nat>)
      requires Valid()
      modifies this`disk, this`next
      ensures Valid() && Published(disk) == old(Published(disk))
      ensures t.None? <==> fails
      ensures t.None? ==> disk == old(disk) && next == old(next)
      ensures t.Some? ==>
                && Staged(t.value) !in old(disk.names) && t.value !in old(disk.inodes) && t.value < next
                && disk == Create(old(disk), t.value, t.value, now)
                && Staged(t.value) !in old(StagingNames(disk))
                && StagingNames(disk) == old(StagingNames(disk)) + {Staged(t.value)}
      ensures Kept(old(disk), disk)
      ensures ByteDrift() == old(ByteDrift()) && EntryDrift() == old(EntryDrift())
    {
      if fails {
        return None;
      }
      CreateKeeps(disk, next, now);
      CreateHides(disk, next, now);
      hide Sizes, Create, WellFormed, Unused, Published, StagingNames, Kept;
      t := Some(next);
      disk, next := Create(disk, next, next, now), next + 1;
    }

    /** What a writer leaves in its staging file. */
    method Fill(t: nat, bytes: Bytes)
      requires Valid() && Staged(t) in disk.names
      modifies this`disk
      ensures Valid() && Published(disk) == old(Published(disk))
      ensures disk == WriteFile(old(disk), old(disk.names[Staged(t)]), bytes, now) && StagingNames(disk) == old(StagingNames(disk))
      ensures ByteDrift() == old(ByteDrift()) && EntryDrift() == old(EntryDrift())
    {
      SizesIgnoreWrite(disk, disk.names[Staged(t)], bytes, now);
      disk := WriteFile(disk, disk.names[Staged(t)], bytes, now);
    }

    /**
      Syncs, closes and renames the staging file, then adjusts the gauges by what `stat` saw of the
      final path before. A `stat` that fails on an existing entry counts it as absent.
    */
    method Commit(t: nat, role: Role, key: Key, fails: bool, blind: bool) returns (ok: bool)
      requires Valid()
      modifies this`disk, this`sizeGauge, this`entryGauge
      ensures Valid() && (ok <==> !fails && Staged(t) in old(disk.names))
      ensures !ok ==> disk == old(disk) && sizeGauge == old(sizeGauge) && entryGauge == old(entryGauge)
      ensures ok ==>
                && disk == Rename(old(disk), t, Entry(role, key))
                && Published(disk) == old(Published(disk))[Entry(role, key) := old(BytesAt(disk, disk.names[Staged(t)]))]
                && StagingNames(disk) == old(StagingNames(disk)) - {Staged(t)}
      ensures Kept(old(disk), disk)
      ensures var misread := ok && blind && Entry(role, key) in old(disk.names);
              && EntryDrift() == old(EntryDrift()) + (if misread then 1 else 0)
              && ByteDrift() == old(ByteDrift()) + (if misread then |old(BytesAt(disk, disk.names[Entry(role, key)]))| else 0)
    {
      var final := Entry(role, key);
      if fails || Staged(t) !in disk.names {
        return false;
      }
      hide Published, StagingNames, TotalBytes, TotalEntries, Unused;
      RenamePublishes(disk, t, final);
      RenameKeeps(disk, next, t, final);
      SizesOfRename(disk, t, final);
      hide Rename, Sizes, WellFormed;
      var size := |BytesAt(disk, disk.names[Staged(t)])|;
      var oldSize, existed := 0, false;
      if !blind && final in disk.names {
        oldSize, existed := |BytesAt(disk, disk.names[final])|, true;
      }
      disk := Rename(disk, t, final);
      sizeGauge := sizeGauge + size - oldSize;
      if !existed {
        entryGauge := entryGauge + 1;
      }
      ok := true;
    }

    /** The deferred removal of a staging file. */
    method RemoveTemp(t: nat)
      requires Valid()
      modifies this`disk
      ensures Valid() && disk == Remove(old(disk), Staged(t)) && Published(disk) == old(Published(disk))
      ensures StagingNames(disk) == old(StagingNames(disk)) - {Staged(t)} && Kept(old(disk), disk)
      ensures ByteDrift() == old(ByteDrift()) && EntryDrift() == old(EntryDrift())
    {
      if Staged(t) in disk.names {
        SizesOfRemove(disk, Staged(t));
      }
      disk := Remove(disk, Staged(t));
      assert Staged(t) !in old(disk.names) ==> disk == old(disk);
    }

    /** The simple recomputation: a walk that adds up the committed entries. */
    method ComputeSize(w: Walk) returns (ok: bool, bytes: nat, entries: nat)
      requires Valid() && Lists(w, disk)
      ensures ok <==> Completes(w)
      ensures ok ==> bytes == TotalBytes(disk) && entries == TotalEntries(disk)
    {
      hide Uncounted, Sizes, Sum, WellFormed, Unused;
      bytes, entries := 0, 0;
      UncountedEnds(disk, w);
      assert w.listing[..0] == [];
      for i := 0 to |w.listing|
        invariant i <= w.failsAt
        invariant bytes + Sum(Uncounted(disk, w.listing[..i])) == TotalBytes(disk)
        invariant entries + |Uncounted(disk, w.listing[..i])| == TotalEntries(disk)
      {
        if i == w.failsAt {
          return false, bytes, entries;
        }
        var n := w.listing[i];
        UncountedNext(disk, w.listing[..i], n);
        assert w.listing[..i + 1] == w.listing[..i] + [n];
        if n in disk.names && n.Entry? {
          bytes, entries := bytes + |BytesAt(disk, disk.names[n])|, entries + 1;
        }
      }
      assert w.listing[..|w.listing|] == w.listing;
      SumEmpty();
      ok := true;
    }

    /** The gauges start from a walk; if it fails they are left alone. */
    method SeedMetrics(w: Walk)
      requires Valid() && Lists(w, disk)
      modifies this`sizeGauge, this`entryGauge
      ensures Valid()
      ensures Completes(w) ==> ByteDrift() == 0 && EntryDrift() == 0
      ensures !Completes(w) ==> sizeGauge == old(sizeGauge) && entryGauge == old(entryGauge)
    {
      var ok, bytes, entries := ComputeSize(w);
      if ok {
        sizeGauge, entryGauge := bytes, entries;
      }
    }

    /** `os.Remove` of one file. */
    method RemoveFile(n: Name, tree: Tree, place: Name -> Path)
      requires Valid() && n in disk.names && tree.Valid() && tree.files == Places(disk, place)
      requires Placed(place)
      modifies this`disk, tree
      ensures Valid() && disk == Remove(old(disk), n)
      ensures tree.Valid() && tree.files == Places(disk, place) && tree.dirs == old(tree.dirs)
      ensures |disk.names| == |old(disk.names)| - 1
      ensures TotalBytes(disk) == old(TotalBytes(disk)) - (if n.Entry? then |old(BytesAt(disk, disk.names[n]))| else 0)
      ensures TotalEntries(disk) == old(TotalEntries(disk)) - (if n.Entry? then 1 else 0)
    {
      hide TotalBytes, TotalEntries, WellFormed, Unused, Places, ValidTree, Empty;
      TotalsOfRemove(disk, n);
      RemoveKeeps(disk, next, n);
      PlacesRemove(disk, n, place);
      FileGoes(tree.dirs, tree.files, place(n));
      tree.Remove(place(n));
      disk := Remove(disk, n);
    }

    /** The walk of a sweep: removes the old files it visits and adds up what it removes. */
    method SweepFiles(cutoff: int, w: Walk, stuck: set<Name>, tree: Tree, place: Name -> Path)
      returns (ok: bool, removed: nat, removedBytes: nat, removedEntries: nat)
      requires Valid() && Lists(w, disk) && tree.Valid() && tree.files == Places(disk, place)
      requires Placed(place)
      modifies this`disk, tree
      ensures Valid() && (ok <==> Completes(w))
      ensures disk == AfterSweep(old(disk), Visited(w), cutoff, stuck)
      ensures tree.Valid() && tree.files == Places(disk, place) && tree.dirs == old(tree.dirs)
      ensures removed == |old(disk.names)| - |disk.names|
      ensures TotalBytes(disk) + removedBytes == old(TotalBytes(disk))
      ensures TotalEntries(disk) + removedEntries == old(TotalEntries(disk))
    {
      hide AfterSweep, TotalBytes, TotalEntries, WellFormed, Unused, Lists, Places, ValidTree;
      ok, removed, removedBytes, removedEntries := true, 0, 0, 0;
      AfterSweepNext(disk, [], Staged(0), cutoff, stuck);
      assert w.listing[..0] == [];
      for i := 0 to |w.listing|
        invariant i <= w.failsAt && Valid()
        invariant disk == AfterSweep(old(disk), w.listing[..i], cutoff, stuck)
        invariant tree.Valid() && tree.files == Places(disk, place) && tree.dirs == old(tree.dirs)
        invariant removed == |old(disk.names)| - |disk.names|
        invariant TotalBytes(disk) + removedBytes == old(TotalBytes(disk))
        invariant TotalEntries(disk) + removedEntries == old(TotalEntries(disk))
      {
        if i == w.failsAt {
          ok := false;
          return;
        }
        var n := w.listing[i];
        AfterSweepNext(old(disk), w.listing[..i], n, cutoff, stuck);
        assert w.listing[..i + 1] == w.listing[..i] + [n];
        if n in disk.names && MtimeAt(disk, disk.names[n]) < cutoff && n !in stuck {
          if !InTmp(place(n)) {
            removedBytes, removedEntries := removedBytes + |BytesAt(disk, disk.names[n])|, removedEntries + 1;
          }
          RemoveFile(n, tree, place);
          removed := removed + 1;
        }
      }
      assert w.listing[..|w.listing|] == w.listing;
    }

    /**
      Removes every file that is older than the cutoff, staging files included. A complete sweep
      leaves of the directories, besides the root and `tmp`, exactly those with a file below them,
      and keeps the gauges' distance from the truth; a walk that fails has removed files by then,
      prunes nothing and leaves the gauges as they were. `tree` holds the files at their places, and
      `paths` is what the walk lists of it.
    */
    method Evict(maxUnused: nat, w: Walk, stuck: set<Name>, tree: Tree, place: Name -> Path, paths: seq<Path>, sort: seq<Path> -> seq<Path>)
      returns (ok: bool, removed: nat)
      requires Valid() && Lists(w, disk) && Placed(place) && SortsByLength(sort)
      requires tree.Valid() && TMP in tree.dirs && tree.files == Places(disk, place)
      requires forall p :: p in paths <==> p in tree.dirs + tree.files
      modifies this`disk, this`sizeGauge, this`entryGauge, tree
      ensures Valid() && (ok <==> Completes(w))
      ensures disk == AfterSweep(old(disk), Visited(w), now - maxUnused, stuck)
      ensures tree.Valid() && tree.files == Places(disk, place)
      ensures ok ==> forall d :: d in tree.dirs <==>
                       d in old(tree.dirs) && (d == [] || d == TMP || exists f :: f in tree.files && Below(f, d))
      ensures !ok ==> tree.dirs == old(tree.dirs)
      ensures removed == |old(disk.names)| - |disk.names|
      ensures ok ==> ByteDrift() == old(ByteDrift()) && EntryDrift() == old(EntryDrift())
      ensures !ok ==> sizeGauge == old(sizeGauge) && entryGauge == old(entryGauge)
    {
      hide AfterSweep, TotalBytes, TotalEntries, WellFormed, Unused, Lists, Places, Placed, ValidTree, InUse, DeepestFirst;
      var entries, staged, dirs := WalkFiles(tree, paths);
      var removedBytes, removedEntries;
      ok, removed, removedBytes, removedEntries := SweepFiles(now - maxUnused, w, stuck, tree, place);
      if !ok {
        return;
      }
      ghost var before := tree.dirs;
      tree.PruneEmptyDirs(dirs, sort(dirs));
      forall d | d in before && d != [] && d != TMP
        ensures InUse(before, tree.files, dirs, d) <==> exists f :: f in tree.files && Below(f, d)
      {
        PrunedTree(before, tree.files, dirs, d);
      }
      sizeGauge, entryGauge := sizeGauge - removedBytes, entryGauge - removedEntries;
    }
  }
}
