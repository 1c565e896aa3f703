/** Choosing one debug file among the candidates Sentry returns, and the blob key of the choice. */
module Resolver {
  import opened Prelude
  import opened Text
  import opened Symstore

  datatype DebugFile = DebugFile(debugId: string, codeId: string, objectName: string, symbolType: string,
                                 sha1: string, size: int, features: seq<string>)

  const SYMBOL_TYPE_SOURCE_BUNDLE := "sourcebundle"
  const MIN_SHA1_LEN: nat := 4

  predicate MatchesIdentity(f: DebugFile, req: Request) {
    || (req.debugId != "" && EqualFold(f.debugId, req.debugId))
    || (req.codeId != "" && f.codeId != "" && EqualFold(f.codeId, req.codeId))
  }

  predicate IsBundle(f: DebugFile) {
    EqualFold(f.symbolType, SYMBOL_TYPE_SOURCE_BUNDLE)
  }

  function WantedFeature(ft: FileType): string {
    match ft
    case FilePDB | FileELFDebug | FileMachDebug => "debug"
    case FilePE | FileELFCode | FileMachCode => "unwind"
    case FileSourceBundle => ""
  }

  predicate HasFeature(f: DebugFile, feature: string) {
    exists i :: 0 <= i < |f.features| && EqualFold(f.features[i], feature)
  }

  /** Lower is better. */
  function Quality(f: DebugFile, req: Request): (q: int)
    ensures 0 <= q <= 2
  {
    var feature := WantedFeature(req.fileType);
    (if feature == "" || HasFeature(f, feature) then 1 else 2)
    - (if req.filename != "" && EqualFold(f.objectName, req.filename) then 1 else 0)
  }

  /** `quality` with its score variable. */
  method ComputeQuality(f: DebugFile, req: Request) returns (score: int)
    ensures score == Quality(f, req)
  {
    score := 2;
    var feature := WantedFeature(req.fileType);
    var found := false;
    for i := 0 to |f.features|
      invariant found <==> exists j :: 0 <= j < i && EqualFold(f.features[j], feature)
    {
      found := found || EqualFold(f.features[i], feature);
    }
    if feature == "" || found {
      score := 1;
    }
    if req.filename != "" && EqualFold(f.objectName, req.filename) {
      score := score - 1;
    }
  }

  /** The comparison handed to the sort: quality first, then the content hash. */
  function Rank(a: DebugFile, b: DebugFile, req: Request): int {
    if Quality(a, req) != Quality(b, req) then Quality(a, req) - Quality(b, req) else Compare(a.sha1, b.sha1)
  }

  predicate Candidate(f: DebugFile, req: Request) {
    MatchesIdentity(f, req) && IsBundle(f) == (req.fileType == FileSourceBundle)
  }

  /** The comparison is a total preorder whose ties agree on quality and hash. */
  lemma RankOrder(a: DebugFile, b: DebugFile, c: DebugFile, req: Request)
    ensures Rank(a, a, req) == 0
    ensures Rank(a, b, req) <= 0 || Rank(b, a, req) <= 0
    ensures Rank(a, b, req) <= 0 && Rank(b, c, req) <= 0 ==> Rank(a, c, req) <= 0
    ensures Rank(a, b, req) <= 0 && Rank(b, a, req) <= 0 <==>
              Quality(a, req) == Quality(b, req) && a.sha1 == b.sha1
  {
    CompareOrder(a.sha1, a.sha1, a.sha1);
    CompareOrder(a.sha1, b.sha1, c.sha1);
    CompareOrder(b.sha1, a.sha1, c.sha1);
  }

  // ---- the sort, known only by its contract ----

  ghost predicate SortedBy(s: seq<DebugFile>, req: Request) {
    forall i, j :: 0 <= i < j < |s| ==> Rank(s[i], s[j], req) <= 0
  }

  /** `slices.SortFunc`: some sorted permutation; where ties end up is not promised. */
  method SortFiles(s: seq<DebugFile>, req: Request) returns (t: seq<DebugFile>)
    ensures multiset(t) == multiset(s) && SortedBy(t, req)
  {
    t := [];
    for i := 0 to |s|
      invariant multiset(t) == multiset(s[..i]) && SortedBy(t, req)
    {
      t := Insert(t, s[i], req);
      assert s[..i + 1] == s[..i] + [s[i]];
    }
    assert s[..|s|] == s;
  }

  method Insert(s: seq<DebugFile>, x: DebugFile, req: Request) returns (t: seq<DebugFile>)
    requires SortedBy(s, req)
    ensures multiset(t) == multiset(s) + multiset{x} && SortedBy(t, req)
  {
    var k := 0;
    while k < |s| && Rank(s[k], x, req) <= 0
      invariant 0 <= k <= |s|
      invariant forall j :: 0 <= j < k ==> Rank(s[j], x, req) <= 0
    {
      k := k + 1;
    }
    t := s[..k] + [x] + s[k..];
    assert s == s[..k] + s[k..];
    InsertedSorted(s, k, x, req);
  }

  lemma InsertedSorted(s: seq<DebugFile>, k: nat, x: DebugFile, req: Request)
    requires SortedBy(s, req) && k <= |s|
    requires forall j :: 0 <= j < k ==> Rank(s[j], x, req) <= 0
    requires k < |s| ==> Rank(s[k], x, req) > 0
    ensures SortedBy(s[..k] + [x] + s[k..], req)
  {
    hide Rank;
    var t := s[..k] + [x] + s[k..];
    forall i, j | 0 <= i < j < |t| ensures Rank(t[i], t[j], req) <= 0 {
      if i == k {
        RankOrder(x, s[k], s[j - 1], req);
        RankOrder(s[k], s[k], x, req);
        assert t[j] == s[j - 1];
      } else if i < k < j {
        assert t[i] == s[i] && t[j] == s[j - 1];
      } else if i > k {
        assert t[i] == s[i - 1] && t[j] == s[j - 1];
      }
    }
  }

  // ---- the choice ----

  /** A best candidate: lexicographically least by quality and hash. */
  ghost predicate IsBest(files: seq<DebugFile>, req: Request, f: DebugFile) {
    && f in files && Candidate(f, req)
    && forall g :: g in files && Candidate(g, req) ==> Rank(f, g, req) <= 0
  }

  method Pick(files: seq<DebugFile>, req: Request) returns (best: Option<DebugFile>)
    ensures best.None? <==> forall f :: f in files ==> !Candidate(f, req)
    ensures best.Some? ==> IsBest(files, req, best.value)
  {
    var wantSource := req.fileType == FileSourceBundle;
    var matches: seq<DebugFile> := [];
    for i := 0 to |files|
      invariant forall f :: f in matches <==> f in files[..i] && Candidate(f, req)
    {
      var f := files[i];
      if !MatchesIdentity(f, req) {
        continue;
      }
      if IsBundle(f) != wantSource {
        continue;
      }
      matches := matches + [f];
    }
    assert files[..|files|] == files;
    if matches == [] {
      assert forall f :: f in files ==> f !in matches;
      return None;
    }
    assert matches[0] in matches;
    var sorted := SortFiles(matches, req);
    assert forall f :: f in sorted <==> f in multiset(sorted);
    assert forall f :: f in matches <==> f in multiset(matches);
    assert |multiset(sorted)| == |matches| > 0;
    RankOrder(sorted[0], sorted[0], sorted[0], req);
    return Some(sorted[0]);
  }

  /**
    Selection does not depend on the order of the candidates nor on where the sort leaves ties:
    any two best choices from permuted lists have the same quality and the same hash.
  */
  lemma PickOrderIndependent(files: seq<DebugFile>, others: seq<DebugFile>, req: Request, f: DebugFile, g: DebugFile)
    requires multiset(files) == multiset(others)
    requires IsBest(files, req, f) && IsBest(others, req, g)
    ensures f.sha1 == g.sha1 && Quality(f, req) == Quality(g, req)
  {
    assert f in multiset(files) && g in multiset(others);
    RankOrder(f, g, f, req);
  }

  // ---- the blob key ----

  function StorageKey(prefix: string, sha1: string): string
    requires |sha1| >= 4
  {
    (if prefix == "" then "" else if HasSuffix(prefix, "/") then prefix else prefix + "/")
    + sha1[..2] + "/" + sha1[2..4] + "/" + sha1
  }

  method BuildStorageKey(prefix: string, sha1: string) returns (b: string)
    requires |sha1| >= 4
    ensures b == StorageKey(prefix, sha1)
    ensures HasPrefix(b, prefix) && HasSuffix(b, "/" + sha1) && HasSuffix(b, sha1[..2] + "/" + sha1[2..4] + "/" + sha1)
  {
    b := "";
    if prefix != "" {
      b := b + prefix;
      assert b == prefix;
      if !HasSuffix(prefix, "/") {
        b := b + "/";
      }
    }
    b := b + sha1[..2];
    b := b + "/";
    b := b + sha1[2..4];
    b := b + "/";
    b := b + sha1;
  }

  /** The blob key determines the hash. */
  lemma StorageKeyInjective(prefix: string, s: string, t: string)
    requires |s| >= 4 && |t| >= 4 && StorageKey(prefix, s) == StorageKey(prefix, t)
    ensures s == t
  {
    var k, m := StorageKey(prefix, s), StorageKey(prefix, t);
    assert |k| == |m| && |s| == |t|;
    assert s == k[|k| - |s|..] == m[|m| - |t|..] == t;
  }

  datatype Lookup = NotFound | Found(key: string, size: int)

  /** The part of the Sentry lookup after the response has been decoded. */
  method Choose(files: seq<DebugFile>, req: Request, prefix: string) returns (r: Lookup)
    ensures r.Found? ==> exists f :: IsBest(files, req, f) && |f.sha1| >= 4
                                     && r == Found(StorageKey(prefix, f.sha1), f.size)
    ensures r.NotFound? <==> forall f :: IsBest(files, req, f) ==> |f.sha1| < 4
  {
    var best := Pick(files, req);
    if best.None? || |best.value.sha1| < MIN_SHA1_LEN {
      forall f | IsBest(files, req, f) ensures |f.sha1| < 4 {
        PickOrderIndependent(files, files, req, f, best.value);
      }
      return NotFound;
    }
    var key := BuildStorageKey(prefix, best.value.sha1);
    return Found(key, best.value.size);
  }

  /** A candidate with a hash too short to address a blob can shadow a usable one of the same quality. */
  lemma ShortHashShadows(hash: string)
    requires |hash| >= 4
    ensures var req := Request("d", "", "", FilePDB);
            var short := DebugFile("d", "", "", "pdb", "", 1, []);
            var usable := short.(sha1 := hash);
            && Candidate(usable, req) && Quality(usable, req) == Quality(short, req)
            && forall f :: IsBest([usable, short], req, f) ==> |f.sha1| < 4
  {
    var req := Request("d", "", "", FilePDB);
    var short := DebugFile("d", "", "", "pdb", "", 1, []);
    var usable := short.(sha1 := hash);
    assert ToLower("pdb")[0] == 'p' && ToLower("sourcebundle")[0] == 's';
    assert Rank(usable, short, req) == Compare(hash, "") > 0;
    assert short in [usable, short];
  }
}
