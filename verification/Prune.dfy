/** The tree under the cache root: how a walk classifies it and how empty directories are pruned. */
module Prune {

  /** A path below the cache root, component by component; the root itself is empty. */
  type Path = seq<string>

  const TMP: Path := ["tmp"]

  /** The length of the path as text: every component comes with a separator. */
  function Length(p: Path): nat {
    if p == [] then 0 else Length(p[..|p| - 1]) + 1 + |p[|p| - 1]|
  }

  /** `p` is `q` or lies below it. */
  predicate Below(p: Path, q: Path) {
    q <= p
  }

  function Parent(p: Path): Path
    requires p != []
  {
    p[..|p| - 1]
  }

  /** A directory below `q` is longer than `q`. */
  lemma {:induction false} LongerBelow(p: Path, q: Path)
    requires Below(p, q) && p != q
    ensures Length(p) > Length(q)
  {
    if Parent(p) != q {
      assert q <= Parent(p);
      LongerBelow(Parent(p), q);
    }
  }

  /** Parents are directories, and a directory is no file. */
  ghost predicate ValidTree(dirs: set<Path>, files: set<Path>) {
    && [] in dirs && dirs !! files
    && (forall p :: p in dirs + files && p != [] ==> Parent(p) in dirs)
  }

  lemma {:induction false} AncestorsAreDirs(dirs: set<Path>, files: set<Path>, p: Path, q: Path)
    requires ValidTree(dirs, files) && p in dirs + files && Below(p, q) && p != q
    ensures q in dirs
  {
    assert Parent(p) in dirs;
    if Parent(p) != q {
      assert q <= Parent(p);
      AncestorsAreDirs(dirs, files, Parent(p), q);
    }
  }

  /** The subtree of `c` holds a file, or a directory that is not up for pruning. */
  ghost predicate InUse(dirs: set<Path>, files: set<Path>, candidates: seq<Path>, c: Path) {
    || (exists f :: f in files && Below(f, c))
    || (exists d :: d in dirs && d !in candidates && Below(d, c))
  }

  predicate Empty(dirs: set<Path>, files: set<Path>, c: Path) {
    forall p :: p in dirs + files && p != [] ==> Parent(p) != c
  }

  /** The directories left when those of `done` that are not in use have gone. */
  ghost function Remaining(dirs: set<Path>, files: set<Path>, candidates: seq<Path>, done: seq<Path>): set<Path> {
    set d | d in dirs && (d in done ==> InUse(dirs, files, candidates, d))
  }

  /** Something in use below `c` leaves a child of `c` in place. */
  lemma UsedHasChild(dirs: set<Path>, files: set<Path>, candidates: seq<Path>, done: seq<Path>, c: Path)
    requires ValidTree(dirs, files) && c in dirs && c in candidates
    requires forall d :: d in done ==> d in candidates
    requires InUse(dirs, files, candidates, c)
    ensures !Empty(Remaining(dirs, files, candidates, done), files, c)
  {
    var p: Path;
    if f :| f in files && Below(f, c) {
      p := f;
    } else {
      p :| p in dirs && p !in candidates && Below(p, c);
    }
    assert p != c && |p| > |c|;
    var child := p[..|c| + 1];
    assert Parent(child) == c && Below(p, child) && child != [];
    if child != p {
      AncestorsAreDirs(dirs, files, p, child);
    }
    assert child in Remaining(dirs, files, candidates, done) + files;
  }

  /** With everything longer than `c` dealt with, an unused `c` is empty. */
  lemma UnusedIsEmpty(dirs: set<Path>, files: set<Path>, candidates: seq<Path>, done: seq<Path>, c: Path)
    requires ValidTree(dirs, files) && c in dirs
    requires forall d :: d in candidates && Length(d) > Length(c) ==> d in done
    requires !InUse(dirs, files, candidates, c)
    ensures Empty(Remaining(dirs, files, candidates, done), files, c)
  {
    var left := Remaining(dirs, files, candidates, done);
    forall p | p in left + files && p != [] ensures Parent(p) != c {
      if Parent(p) == c {
        assert Below(p, c);
        LongerBelow(p, c);
        assert p in dirs && p in candidates && p in done;
        assert InUse(dirs, files, candidates, p);
        UseIsInherited(dirs, files, candidates, p, c);
      }
    }
  }

  lemma UseIsInherited(dirs: set<Path>, files: set<Path>, candidates: seq<Path>, p: Path, c: Path)
    requires Below(p, c) && InUse(dirs, files, candidates, p)
    ensures InUse(dirs, files, candidates, c)
  {
    if f :| f in files && Below(f, p) {
      assert Below(f, c);
    } else {
      var d :| d in dirs && d !in candidates && Below(d, p);
      assert Below(d, c);
    }
  }

  /** Longest first; paths of equal length in any order. */
  ghost predicate DeepestFirst(order: seq<Path>) {
    forall i, j :: 0 <= i < j < |order| ==> Length(order[i]) >= Length(order[j])
  }

  class Tree {
    var dirs: set<Path>
    var files: set<Path>

    ghost predicate Valid()
      reads this
    {
      ValidTree(dirs, files)
    }

    constructor (dirs: set<Path>, files: set<Path>)
      requires ValidTree(dirs, files)
      ensures Valid() && this.dirs == dirs && this.files == files
    {
      this.dirs, this.files := dirs, files;
    }

    /** `os.Remove`: a file goes, a directory goes if it is empty, anything else is left alone. */
    method Remove(p: Path)
      modifies this
      ensures p in old(files) ==> files == old(files) - {p} && dirs == old(dirs)
      ensures p !in old(files) ==>
                files == old(files) && dirs == if Empty(old(dirs), files, p) then old(dirs) - {p} else old(dirs)
    {
      if p in files {
        files := files - {p};
      } else if Empty(dirs, files, p) {
        dirs := dirs - {p};
      }
    }

    /**
      Tries the candidates longest first, whatever order the sort gives to equal lengths. A
      candidate survives exactly if it is in use; no file and no other directory is touched.
    */
    method PruneEmptyDirs(candidates: seq<Path>, order: seq<Path>)
      requires Valid() && multiset(order) == multiset(candidates) && DeepestFirst(order)
      requires forall c :: c in candidates ==> c in dirs && c != []
      modifies this
      ensures Valid() && files == old(files)
      ensures forall d :: d in dirs <==>
                d in old(dirs) && (d in candidates ==> InUse(old(dirs), files, candidates, d))
    {
      hide InUse, ValidTree, Empty, Length;
      ghost var all := dirs;
      assert forall c :: c in candidates <==> c in order by { SameElements(candidates, order); }
      assert Remaining(all, files, candidates, []) == all;
      for i := 0 to |order|
        invariant files == old(files) && dirs == Remaining(all, files, candidates, order[..i])
      {
        var c := order[i];
        assert c in candidates && c !in files by { DirIsNoFile(all, files, c); }
        assert forall d :: d in order[..i] ==> d in candidates;
        if InUse(all, files, candidates, c) {
          UsedHasChild(all, files, candidates, order[..i], c);
        } else {
          forall d | d in candidates && Length(d) > Length(c) ensures d in order[..i] {
            var k :| 0 <= k < |order| && order[k] == d;
            assert k < i;
          }
          UnusedIsEmpty(all, files, candidates, order[..i], c);
        }
        Remove(c);
        assert order[..i + 1] == order[..i] + [c];
        assert dirs == Remaining(all, files, candidates, order[..i + 1]);
      }
      assert order[..|order|] == order;
      PrunedIsValid(all, files, candidates, order);
    }
  }

  lemma SameElements(a: seq<Path>, b: seq<Path>)
    requires multiset(a) == multiset(b)
    ensures forall p :: p in a <==> p in b
  {
    assert forall p :: p in a <==> p in multiset(a);
    assert forall p :: p in b <==> p in multiset(b);
  }

  lemma DirIsNoFile(dirs: set<Path>, files: set<Path>, c: Path)
    requires ValidTree(dirs, files) && c in dirs
    ensures c !in files
  {
  }

  /** What is left is a tree again: parents of what is left are in use. */
  lemma PrunedIsValid(dirs: set<Path>, files: set<Path>, candidates: seq<Path>, done: seq<Path>)
    requires ValidTree(dirs, files) && [] !in done && forall d :: d in done <==> d in candidates
    ensures ValidTree(Remaining(dirs, files, candidates, done), files)
  {
    var left := Remaining(dirs, files, candidates, done);
    forall p | p in left + files && p != [] ensures Parent(p) in left {
      var q := Parent(p);
      assert q in dirs && Below(p, q);
      if q in done {
        if p in files {
          assert InUse(dirs, files, candidates, q);
        } else if p in candidates {
          UseIsInherited(dirs, files, candidates, p, q);
        } else {
          assert InUse(dirs, files, candidates, q);
        }
      }
    }
  }

  // ---- what a sweep does to the tree ----

  /** The staging directory's own files; anything else counts as an entry. */
  predicate InTmp(p: Path) {
    p != [] && Parent(p) == TMP
  }

  /** Walks the listing: files with their class, and every directory but the root and `tmp`. */
  method WalkFiles(tree: Tree, listing: seq<Path>) returns (entries: seq<Path>, staged: seq<Path>, candidates: seq<Path>)
    requires forall p :: p in listing ==> p in tree.dirs + tree.files
    ensures forall p :: p in entries <==> p in listing && p !in tree.dirs && !InTmp(p)
    ensures forall p :: p in staged <==> p in listing && p !in tree.dirs && InTmp(p)
    ensures forall p :: p in candidates <==> p in listing && p in tree.dirs && p != [] && p != TMP
  {
    entries, staged, candidates := [], [], [];
    for i := 0 to |listing|
      invariant forall p :: p in entries <==> p in listing[..i] && p !in tree.dirs && !InTmp(p)
      invariant forall p :: p in staged <==> p in listing[..i] && p !in tree.dirs && InTmp(p)
      invariant forall p :: p in candidates <==> p in listing[..i] && p in tree.dirs && p != [] && p != TMP
    {
      var p := listing[i];
      if p in tree.dirs {
        if p != [] && p != TMP {
          candidates := candidates + [p];
        }
      } else if InTmp(p) {
        staged := staged + [p];
      } else {
        entries := entries + [p];
      }
      assert listing[..i + 1] == listing[..i] + [p];
    }
    assert listing[..|listing|] == listing;
  }

  /** After a complete walk, a directory other than the root and `tmp` stays exactly if there is a file below it. */
  lemma PrunedTree(dirs: set<Path>, files: set<Path>, candidates: seq<Path>, d: Path)
    requires ValidTree(dirs, files) && TMP in dirs && d in dirs && d != [] && d != TMP
    requires forall p :: p in candidates <==> p in dirs && p != [] && p != TMP
    ensures InUse(dirs, files, candidates, d) <==> exists f :: f in files && Below(f, d)
  {
    assert forall e :: e in dirs && e !in candidates ==> e == [] || e == TMP;
    NothingBelowTmp(d);
  }

  lemma NothingBelowTmp(d: Path)
    ensures Below([], d) ==> d == []
    ensures Below(TMP, d) ==> d == [] || d == TMP
  {
    if Below(TMP, d) {
      assert d == TMP[..|d|];
    }
  }
}
