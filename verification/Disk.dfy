/**
  The cache directory seen as names for inodes. An inode keeps its bytes for as long as
  anybody holds it open, whatever happens to its name; names are what `rename` and
  `unlink` act on. The sizes of the committed entries are what the gauges report.
*/
module Disk {
  import opened Prelude
  import opened CacheKeys

  /** A committed entry, at the path of its slot, or a file in the staging directory. */
  datatype Name = Entry(role: Role, key: Key) | Staged(n: nat)

  datatype Inode = Inode(bytes: Bytes, mtime: int)

  datatype Disk = Disk(names: map<Name, nat>, inodes: map<nat, Inode>)

  /** Every name leads to an inode, and no inode has two names. */
  ghost predicate WellFormed(d: Disk) {
    && (forall n :: n in d.names ==> d.names[n] in d.inodes)
    && (forall m, n :: m in d.names && n in d.names && d.names[m] == d.names[n] ==> m == n)
  }

  function BytesAt(d: Disk, i: nat): Bytes {
    if i in d.inodes then d.inodes[i].bytes else []
  }

  function MtimeAt(d: Disk, i: nat): int {
    if i in d.inodes then d.inodes[i].mtime else 0
  }

  // ---- the file operations ----

  function Create(d: Disk, n: nat, i: nat, now: int): Disk {
    Disk(d.names[Staged(n) := i], d.inodes[i := Inode([], now)])
  }

  function WriteFile(d: Disk, i: nat, bytes: Bytes, now: int): Disk {
    d.(inodes := d.inodes[i := Inode(bytes, now)])
  }

  function Touch(d: Disk, n: Name, now: int): Disk {
    if n in d.names then d.(inodes := d.inodes[d.names[n] := Inode(BytesAt(d, d.names[n]), now)]) else d
  }

  function Rename(d: Disk, n: nat, to: Name): Disk
    requires Staged(n) in d.names && to.Entry?
  {
    d.(names := (d.names - {Staged(n)})[to := d.names[Staged(n)]])
  }

  function Remove(d: Disk, n: Name): Disk {
    d.(names := d.names - {n})
  }

  // ---- sizes ----

  function Sizes(d: Disk): map<Name, nat> {
    map n | n in d.names && n.Entry? :: |BytesAt(d, d.names[n])|
  }

  /** The sum of the values. */
  ghost function Sum<K>(m: map<K, nat>): nat
    decreases |m|
  {
    if m == map[] then 0 else
      var n :| n in m;
      m[n] + Sum(m - {n})
  }

  ghost function TotalBytes(d: Disk): nat {
    Sum(Sizes(d))
  }

  function TotalEntries(d: Disk): nat {
    |Sizes(d)|
  }

  /** A sum does not depend on which name is taken out first. */
  lemma {:induction false} SumWithout<K>(m: map<K, nat>, n: K)
    requires n in m
    ensures Sum(m) == m[n] + Sum(m - {n})
    decreases |m|
  {
    var k :| k in m && Sum(m) == m[k] + Sum(m - {k});
    if k != n {
      SumWithout(m - {k}, n);
      SumWithout(m - {n}, k);
      assert m - {k} - {n} == m - {n} - {k};
    }
  }

  lemma SumAdd<K>(m: map<K, nat>, n: K, x: nat)
    requires n !in m
    ensures Sum(m[n := x]) == Sum(m) + x
    ensures |m[n := x]| == |m| + 1
  {
    var with := m[n := x];
    SumWithout(with, n);
    assert with - {n} == m;
    hide Sum;
    assert with.Keys == m.Keys + {n};
  }

  lemma SumRemove<K>(m: map<K, nat>, n: K)
    requires n in m
    ensures Sum(m - {n}) == Sum(m) - m[n]
    ensures |m - {n}| == |m| - 1
  {
    SumWithout(m, n);
    assert (m - {n}).Keys == m.Keys - {n};
  }

  lemma SumUpdate<K>(m: map<K, nat>, n: K, x: nat)
    ensures Sum(m[n := x]) == Sum(m) - (if n in m then m[n] else 0) + x
    ensures |m[n := x]| == |m| + if n in m then 0 else 1
  {
    hide Sum;
    if n in m {
      SumRemove(m, n);
      SumAdd(m - {n}, n, x);
      assert (m - {n})[n := x] == m[n := x];
    } else {
      SumAdd(m, n, x);
    }
  }

  // ---- what each operation does to the sizes ----

  /** Nothing that happens to an inode outside the committed entries shows in the sizes. */
  lemma SizesIgnoreCreate(d: Disk, n: nat, i: nat, now: int)
    requires forall m :: m in d.names && m.Entry? ==> d.names[m] != i
    ensures Sizes(Create(d, n, i, now)) == Sizes(d)
  {
  }

  lemma SizesIgnoreWrite(d: Disk, i: nat, bytes: Bytes, now: int)
    requires forall m :: m in d.names && m.Entry? ==> d.names[m] != i
    ensures Sizes(WriteFile(d, i, bytes, now)) == Sizes(d)
  {
  }

  lemma SizesIgnoreTouch(d: Disk, n: Name, now: int)
    ensures Sizes(Touch(d, n, now)) == Sizes(d)
  {
  }

  lemma SizesOfRename(d: Disk, n: nat, to: Name)
    requires Staged(n) in d.names && to.Entry?
    ensures var size := |BytesAt(d, d.names[Staged(n)])|;
            && Sizes(Rename(d, n, to)) == Sizes(d)[to := size]
            && TotalBytes(Rename(d, n, to))
               == TotalBytes(d) - (if to in d.names then |BytesAt(d, d.names[to])| else 0) + size
            && TotalEntries(Rename(d, n, to)) == TotalEntries(d) + if to in d.names then 0 else 1
  {
    var size := |BytesAt(d, d.names[Staged(n)])|;
    assert Sizes(Rename(d, n, to)) == Sizes(d)[to := size];
    SumUpdate(Sizes(d), to, size);
  }

  lemma SizesOfRemove(d: Disk, n: Name)
    requires n in d.names
    ensures n.Staged? ==> Sizes(Remove(d, n)) == Sizes(d)
    ensures n.Entry? ==> TotalBytes(Remove(d, n)) == TotalBytes(d) - |BytesAt(d, d.names[n])|
    ensures n.Entry? ==> TotalEntries(Remove(d, n)) == TotalEntries(d) - 1
  {
    if n.Entry? {
      assert Sizes(Remove(d, n)) == Sizes(d) - {n};
      SumRemove(Sizes(d), n);
    }
  }

  lemma TotalsOfRemove(d: Disk, n: Name)
    requires n in d.names
    ensures TotalBytes(Remove(d, n)) == TotalBytes(d) - (if n.Entry? then |BytesAt(d, d.names[n])| else 0)
    ensures TotalEntries(Remove(d, n)) == TotalEntries(d) - (if n.Entry? then 1 else 0)
  {
    SizesOfRemove(d, n);
    hide Sizes, Remove;
  }

  // ---- what can be read ----

  /** The committed entries and their bytes. */
  function Published(d: Disk): map<Name, Bytes> {
    map n | n in d.names && n.Entry? :: BytesAt(d, d.names[n])
  }

  /** The names in the staging directory. */
  function StagingNames(d: Disk): set<Name> {
    set n | n in d.names && n.Staged?
  }

  lemma RenamePublishes(d: Disk, n: nat, to: Name)
    requires Staged(n) in d.names && to.Entry?
    ensures Published(Rename(d, n, to)) == Published(d)[to := BytesAt(d, d.names[Staged(n)])]
    ensures StagingNames(Rename(d, n, to)) == StagingNames(d) - {Staged(n)}
  {
  }
}
