/**
  How a request becomes a cache key, a flight key and a disk path, and when these keep
  distinct requests apart.
*/
module CacheKeys {
  import opened Prelude
  import opened Text
  import opened DebugId
  import opened Symstore

  datatype Role = Objects | RawCompressed | CabSynth

  function RoleName(role: Role): string {
    match role
    case Objects => "objects"
    case RawCompressed => "raw_compressed"
    case CabSynth => "cab_synth"
  }

  /** The pair under which an object is cached. */
  datatype Key = Key(id: string, inner: string)

  function Inner(ft: FileType, filename: string): string {
    Tag(ft) + "/" + filename
  }

  function CacheKey(req: Request): Key {
    Key(if req.debugId != "" then req.debugId else req.codeId, Inner(req.fileType, req.filename))
  }

  /** One cache slot: a role, an identity, a file type and a file name. */
  datatype Slot = Slot(role: Role, id: string, ft: FileType, filename: string)

  function FlightKey(s: Slot): string {
    RoleName(s.role) + "|" + s.id + "|" + Inner(s.ft, s.filename)
  }

  /** The text whose hash names the file. */
  function Joined(s: Slot): string {
    s.id + ":" + RoleName(s.role) + ":" + Inner(s.ft, s.filename)
  }

  /** A hasher of a function on texts, fed piece by piece. */
  class Hasher {
    const sha: string -> string
    var fed: string

    constructor (sha: string -> string)
      ensures fed == "" && this.sha == sha
    {
      this.sha, fed := sha, "";
    }

    method Write(piece: string)
      modifies this
      ensures fed == old(fed) + piece
    {
      fed := fed + piece;
    }

    method Sum() returns (sum: string)
      ensures sum == sha(fed)
    {
      sum := sha(fed);
    }
  }

  /** `key` never builds the joined text, but its digest is that of the joined text. */
  method HashSlot(sha: string -> string, s: Slot) returns (sum: string)
    ensures sum == sha(Joined(s))
  {
    var h := new Hasher(sha);
    h.Write(s.id);
    h.Write(":");
    h.Write(RoleName(s.role));
    h.Write(":");
    h.Write(Inner(s.ft, s.filename));
    assert h.fed == Joined(s);
    sum := h.Sum();
  }

  function DiskPath(root: string, role: Role, sum: string): string
    requires |sum| == 64
  {
    root + "/" + RoleName(role) + "/" + sum[..2] + "/" + sum[2..4] + "/" + sum
  }

  /** `path` appends to a builder; the digest is the last component and begins with the two before it. */
  method BuildPath(sha: string -> string, root: string, s: Slot) returns (path: string)
    requires |sha(Joined(s))| == 64
    ensures path == DiskPath(root, s.role, sha(Joined(s)))
    ensures HasPrefix(path, root + "/" + RoleName(s.role) + "/")
    ensures path[|path| - 65..] == "/" + sha(Joined(s))
    ensures path[|path| - 71..|path| - 65] == "/" + sha(Joined(s))[..2] + "/" + sha(Joined(s))[2..4]
  {
    var sum := HashSlot(sha, s);
    path := "";
    path := path + root;
    path := path + "/";
    path := path + RoleName(s.role);
    path := path + "/";
    path := path + sum[..2];
    path := path + "/";
    path := path + sum[2..4];
    path := path + "/";
    path := path + sum;
    assert "" + root == root;
  }

  // ---- reading a key back ----

  /** Text up to its first separator is determined by the whole. */
  lemma {:induction false} SplitAtFirst(a: string, x: string, b: string, y: string, sep: char)
    requires sep !in a && sep !in b
    requires a + [sep] + x == b + [sep] + y
    ensures a == b && x == y
  {
    assert (a + [sep] + x)[0] == (b + [sep] + y)[0];
    assert (a + [sep] + x)[1..] == (b + [sep] + y)[1..];
    if a != "" && b != "" {
      assert (a + [sep] + x)[1..] == a[1..] + [sep] + x;
      assert (b + [sep] + y)[1..] == b[1..] + [sep] + y;
      SplitAtFirst(a[1..], x, b[1..], y, sep);
    } else {
      assert a == "" ==> (a + [sep] + x)[1..] == x;
      assert b == "" ==> (b + [sep] + y)[1..] == y;
    }
  }

  /** A text free of the separator is a prefix of whatever comes before the separator. */
  lemma {:induction false} Avoids(t: string, u: string, p: string, sep: char, rest: string)
    requires sep !in t && t + u == p + [sep] + rest
    ensures t <= p && u == p[|t|..] + [sep] + rest
    decreases |t|
  {
    if t == "" {
      assert t + u == u;
    } else {
      assert (t + u)[0] == t[0] && (p + [sep] + rest)[0] == (if p == "" then sep else p[0]);
      if p != "" {
        assert (t + u)[1..] == t[1..] + u && (p + [sep] + rest)[1..] == p[1..] + [sep] + rest;
        Avoids(t[1..], u, p[1..], sep, rest);
        assert p[1..][|t| - 1..] == p[|t|..];
        assert t == [t[0]] + t[1..] && p == [p[0]] + p[1..];
      }
    }
  }

  predicate Plain(s: string) {
    forall i :: 0 <= i < |s| ==> s[i] != '/' && s[i] != '|' && s[i] != ':'
  }

  lemma NamesArePlain()
    ensures forall ft: FileType :: Plain(Tag(ft))
    ensures forall r: Role :: Plain(RoleName(r))
    ensures forall f: FileType, g: FileType :: Tag(f) == Tag(g) ==> f == g
    ensures forall r: Role, q: Role :: RoleName(r) == RoleName(q) ==> r == q
  {
    forall f: FileType, g: FileType | Tag(f) == Tag(g) ensures f == g {
      assert Tag(f)[0] == Tag(g)[0] && |Tag(f)| == |Tag(g)|;
      if |Tag(f)| > 5 {
        assert Tag(f)[5] == Tag(g)[5];
      }
    }
    forall r: Role, q: Role | RoleName(r) == RoleName(q) ensures r == q {
      assert RoleName(r)[0] == RoleName(q)[0];
    }
  }

  lemma InnerInjective(f: FileType, x: string, g: FileType, y: string)
    requires Inner(f, x) == Inner(g, y)
    ensures f == g && x == y
  {
    NamesArePlain();
    SplitAtFirst(Tag(f), x, Tag(g), y, '/');
  }

  /** Requests with one cache key name one file. */
  lemma KeyNamesFile(a: Request, b: Request)
    requires CacheKey(a) == CacheKey(b)
    ensures a.filename == b.filename && a.fileType == b.fileType
  {
    InnerInjective(a.fileType, a.filename, b.fileType, b.filename);
  }

  /** The file name a key stands for: what follows the first slash of its inner part. */
  function FileOf(inner: string): string {
    if inner == "" then "" else if inner[0] == '/' then inner[1..] else FileOf(inner[1..])
  }

  lemma {:induction false} FileOfTagged(tag: string, name: string)
    requires '/' !in tag
    ensures FileOf(tag + "/" + name) == name
  {
    var t := tag + "/" + name;
    if tag == "" {
      assert t == "/" + name && t[0] == '/' && t[1..] == name;
    } else {
      assert t[0] == tag[0] && t[1..] == tag[1..] + "/" + name;
      FileOfTagged(tag[1..], name);
    }
  }

  lemma FileOfKey(req: Request)
    ensures FileOf(CacheKey(req).inner) == req.filename
  {
    NamesArePlain();
    FileOfTagged(Tag(req.fileType), req.filename);
  }

  // ---- when two slots share a text ----

  /** The identity `b` extends `a` by what a file name of type `f` can absorb in a flight key. */
  ghost predicate NestsInFlight(a: string, f: FileType, b: string) {
    exists x: string :: b == a + "|" + Inner(f, x)
  }

  ghost predicate NestsOnDisk(a: string, f: FileType, b: string) {
    exists role: Role, x: string :: b == a + ":" + RoleName(role) + ":" + Inner(f, x)
  }

  /** The longer identity of `t` takes its tail from the file name of `s`. */
  ghost predicate FlightAbsorbs(s: Slot, t: Slot, y: string) {
    t.id == s.id + "|" + Inner(s.ft, y) && s.filename == y + "|" + Inner(t.ft, t.filename)
  }

  ghost predicate DiskAbsorbs(s: Slot, t: Slot, y: string) {
    && t.id == s.id + ":" + RoleName(s.role) + ":" + Inner(s.ft, y)
    && s.filename == y + ":" + RoleName(t.role) + ":" + Inner(t.ft, t.filename)
  }

  /**
    If a text starting with a tag and a slash also splits as `p`, a separator and more, then `p`
    already contains the tag and the slash.
  */
  lemma TagFirst(f: FileType, x: string, p: string, sep: char, rest: string) returns (y: string)
    requires sep == '|' || sep == ':'
    requires Inner(f, x) == p + [sep] + rest
    ensures p == Inner(f, y) && x == y + [sep] + rest
  {
    NamesArePlain();
    var head := Tag(f) + "/";
    assert sep !in head;
    Avoids(head, x, p, sep, rest);
    y := p[|head|..];
  }

  /** Two slots share a flight key only if they are the same, or one absorbs the other. */
  lemma FlightCollision(s: Slot, t: Slot) returns (y: string)
    requires FlightKey(s) == FlightKey(t) && |s.id| <= |t.id|
    ensures s.role == t.role && (s == t || FlightAbsorbs(s, t, y))
  {
    NamesArePlain();
    var i, j := Inner(s.ft, s.filename), Inner(t.ft, t.filename);
    Regroup(RoleName(s.role), "|", s.id, "|", i);
    Regroup(RoleName(t.role), "|", t.id, "|", j);
    SplitAtFirst(RoleName(s.role), s.id + "|" + i, RoleName(t.role), t.id + "|" + j, '|');
    var k := s.id + "|" + i;
    assert k == t.id + "|" + j;
    if |s.id| == |t.id| {
      assert s.id == k[..|s.id|] == t.id;
      assert i == k[|s.id| + 1..] == j;
      InnerInjective(s.ft, s.filename, t.ft, t.filename);
      y := "";
    } else {
      var p := t.id[|s.id| + 1..];
      assert s.id == k[..|s.id|] == t.id[..|s.id|];
      assert t.id[|s.id|] == k[|s.id|] == '|';
      assert t.id == s.id + "|" + p;
      assert i == k[|s.id| + 1..] == p + "|" + j;
      y := TagFirst(s.ft, s.filename, p, '|', j);
    }
  }

  lemma Regroup(a: string, x: string, b: string, y: string, c: string)
    ensures a + x + b + y + c == a + x + (b + y + c)
  {
  }

  lemma DiskCollision(s: Slot, t: Slot) returns (y: string)
    requires Joined(s) == Joined(t) && |s.id| <= |t.id|
    ensures s == t || DiskAbsorbs(s, t, y)
  {
    NamesArePlain();
    var i, j := Inner(s.ft, s.filename), Inner(t.ft, t.filename);
    hide Inner, Tag, RoleName;
    var k := s.id + ":" + (RoleName(s.role) + ":" + i);
    assert Joined(s) == k;
    assert Joined(t) == t.id + ":" + (RoleName(t.role) + ":" + j);
    y := "";
    if |s.id| == |t.id| {
      assert s.id == k[..|s.id|] == t.id;
      assert RoleName(s.role) + ":" + i == k[|s.id| + 1..] == RoleName(t.role) + ":" + j;
      SplitAtFirst(RoleName(s.role), i, RoleName(t.role), j, ':');
      InnerInjective(s.ft, s.filename, t.ft, t.filename);
    } else {
      var p := t.id[|s.id| + 1..];
      assert s.id == k[..|s.id|] == t.id[..|s.id|];
      assert t.id[|s.id|] == k[|s.id|] == ':';
      assert t.id == s.id + ":" + p;
      assert RoleName(s.role) + ":" + i == k[|s.id| + 1..] == p + ":" + (RoleName(t.role) + ":" + j);
      y := RoleFirst(s.role, s.ft, s.filename, p, t.role, j);
      assert t.id == s.id + ":" + RoleName(s.role) + ":" + Inner(s.ft, y);
      Tail(y, RoleName(t.role), j);
    }
  }

  lemma RoleFirst(r: Role, f: FileType, x: string, p: string, q: Role, j: string) returns (y: string)
    requires RoleName(r) + ":" + Inner(f, x) == p + ":" + (RoleName(q) + ":" + j)
    ensures p == RoleName(r) + ":" + Inner(f, y) && x == y + ":" + (RoleName(q) + ":" + j)
  {
    hide Inner, Tag;
    NamesArePlain();
    var n, i, rest := RoleName(r), Inner(f, x), RoleName(q) + ":" + j;
    assert n + ":" + i == n + (":" + i);
    Avoids(n, ":" + i, p, ':', rest);
    var v := p[|n|..];
    assert p == n + v;
    hide RoleName;
    if v == "" {
      Colons(i, rest);
      y := TagFirst(f, x, RoleName(q), ':', j);
      RoleIsNoInner(q, f);
    } else {
      var u := AfterColon(i, v, rest);
      y := TagFirst(f, x, u, ':', rest);
      assert p == n + ":" + Inner(f, y);
    }
  }

  lemma Colons(i: string, rest: string)
    requires ":" + i == "" + ":" + rest
    ensures i == rest
  {
    assert i == (":" + i)[1..] == ("" + ":" + rest)[1..] == rest;
  }

  lemma AfterColon(i: string, v: string, rest: string) returns (u: string)
    requires v != "" && ":" + i == v + ":" + rest
    ensures v == ":" + u && i == u + ":" + rest
  {
    assert v[0] == (v + ":" + rest)[0] == (":" + i)[0] == ':';
    u := v[1..];
    assert i == (":" + i)[1..] == (v + ":" + rest)[1..] == u + ":" + rest;
  }

  lemma RoleIsNoInner(q: Role, f: FileType)
    ensures forall y: string :: RoleName(q) != Inner(f, y)
  {
    NamesArePlain();
    forall y: string ensures RoleName(q) != Inner(f, y) {
      assert Inner(f, y)[|Tag(f)|] == '/';
    }
  }

  /** Absorption makes two slots share a text. */
  lemma AbsorbedInFlight(s: Slot, t: Slot, y: string)
    requires s.role == t.role && FlightAbsorbs(s, t, y)
    ensures FlightKey(s) == FlightKey(t)
  {
    InnerAbsorbs(s.ft, s.filename, y, "|", Inner(t.ft, t.filename));
    hide Inner, RoleName;
    Move(RoleName(s.role) + "|" + s.id, "|", Inner(s.ft, y), "|", Inner(t.ft, t.filename));
    Move(RoleName(s.role) + "|", s.id, "|", Inner(s.ft, y), "");
    assert t.id == s.id + "|" + Inner(s.ft, y) + "";
    assert RoleName(s.role) + "|" + s.id + "|" + Inner(s.ft, y) + "" == RoleName(t.role) + "|" + t.id;
  }

  lemma InnerAbsorbs(f: FileType, name: string, y: string, sep: string, rest: string)
    requires name == y + sep + rest
    ensures Inner(f, name) == Inner(f, y) + sep + rest
  {
    assert y + sep + rest == y + (sep + rest);
    InnerExtends(f, y, sep + rest);
    assert Inner(f, y) + (sep + rest) == Inner(f, y) + sep + rest;
  }

  lemma Move(a: string, x: string, b: string, y: string, c: string)
    ensures a + x + (b + y + c) == a + x + b + y + c
    ensures a + (x + b + y + c) == a + x + b + y + c
  {
  }

  lemma AbsorbedOnDisk(s: Slot, t: Slot, y: string)
    requires DiskAbsorbs(s, t, y)
    ensures Joined(s) == Joined(t)
  {
    var n, j := RoleName(t.role), Inner(t.ft, t.filename);
    Tail(y, n, j);
    InnerAbsorbs(s.ft, s.filename, y, ":", n + ":" + j);
    var head := s.id + ":" + RoleName(s.role) + ":";
    assert Joined(s) == head + (Inner(s.ft, y) + ":" + (n + ":" + j));
    assert Joined(t) == head + Inner(s.ft, y) + ":" + n + ":" + j;
    hide Inner, RoleName, Joined, DiskAbsorbs;
    AppendAll(head, Inner(s.ft, y), n, j);
  }

  lemma AppendAll(head: string, i: string, n: string, j: string)
    ensures head + (i + ":" + (n + ":" + j)) == head + i + ":" + n + ":" + j
  {
  }

  lemma InnerExtends(ft: FileType, x: string, y: string)
    ensures Inner(ft, x + y) == Inner(ft, x) + y
  {
  }

  lemma Tail(b: string, n: string, i: string)
    ensures b + ":" + (n + ":" + i) == b + ":" + n + ":" + i
  {
  }

  // ---- the identities requests really have ----

  predicate HexOrDash(s: string) {
    forall i :: 0 <= i < |s| ==> IsHexDigit(s[i]) || s[i] == '-'
  }

  /** Every request that is not a PE lookup is keyed by hexadecimal digits and dashes. */
  lemma CleanIdentity(leading: string, sig: string, trailing: string)
    requires Parse(leading, sig, trailing).Some?
    ensures var req := Parse(leading, sig, trailing).value.req;
            if req.fileType == FilePE then CacheKey(req).id == sig && sig != ""
            else HexOrDash(CacheKey(req).id) && CacheKey(req).id != ""
  {
    var inner := UncompressLeaf(trailing);
    var filename := if inner.Some? then inner.value else trailing;
    var hint := if inner.Some? then NamesPdb(filename) else IsSourceBundle(trailing) || NamesPdb(leading);
    var req := BaseIdentity(sig, filename, hint).value;
    if HasPrefix(sig, PREFIX_ELF_DEBUG) {
      CleanElf(sig[|PREFIX_ELF_DEBUG|..]);
    } else if HasPrefix(sig, PREFIX_ELF_CODE) {
      CleanElf(sig[|PREFIX_ELF_CODE|..]);
    } else if HasPrefix(sig, PREFIX_MACH_DEBUG) || HasPrefix(sig, PREFIX_MACH_CODE) {
      CleanDashed(req.codeId);
    } else if hint {
      CleanPdb(sig);
    }
  }

  lemma CleanDashed(h: string)
    requires |h| == 32 && AllHex(h)
    ensures HexOrDash(Dashed(h)) && Dashed(h) != ""
  {
    CleanConcat(h[..8], "-");
    CleanConcat(h[..8] + "-", h[8..12]);
    CleanConcat(h[..8] + "-" + h[8..12], "-");
    CleanConcat(h[..8] + "-" + h[8..12] + "-", h[12..16]);
    CleanConcat(h[..8] + "-" + h[8..12] + "-" + h[12..16], "-");
    CleanConcat(h[..8] + "-" + h[8..12] + "-" + h[12..16] + "-", h[16..20]);
    CleanConcat(h[..8] + "-" + h[8..12] + "-" + h[12..16] + "-" + h[16..20], "-");
    CleanConcat(h[..8] + "-" + h[8..12] + "-" + h[12..16] + "-" + h[16..20] + "-", h[20..]);
  }

  lemma CleanConcat(a: string, b: string)
    requires HexOrDash(a) && HexOrDash(b)
    ensures HexOrDash(a + b)
  {
  }

  lemma CleanElf(buildId: string)
    requires IsHex(buildId)
    ensures HexOrDash(ToLower(buildId))
    ensures ElfDebugId(buildId).Some? ==> HexOrDash(ElfDebugId(buildId).value) && ElfDebugId(buildId).value != ""
  {
    LowerHex(buildId);
    if ElfDebugId(buildId).Some? {
      var h := HexEncode(SwapGuid(HexDecode(buildId).value[..16]));
      LowerHex(h);
      CleanDashed(ToLower(h));
    }
  }

  lemma CleanPdb(sig: string)
    requires NormalizePdb(sig).Some?
    ensures HexOrDash(NormalizePdb(sig).value) && NormalizePdb(sig).value != ""
  {
    PdbAccepts(sig);
    PdbParts(sig);
    CleanDashed(ToLower(sig[..32]));
    CleanConcat(Dashed(ToLower(sig[..32])), Appendix(TrimZeros(ToLower(sig[32..]))));
  }

  // ---- which requests the keys can tell apart ----

  function SlotOf(role: Role, req: Request): Slot {
    Slot(role, CacheKey(req).id, req.fileType, req.filename)
  }

  /** A request that a path with this signature can ask for; the handler wants its two names equal up to case. */
  ghost predicate Asks(sig: string, req: Request) {
    exists leading: string, trailing: string :: AsksBy(sig, req, leading, trailing)
  }

  ghost predicate AsksBy(sig: string, req: Request, leading: string, trailing: string) {
    EqualFold(leading, trailing) && Parse(leading, sig, trailing).Some? && Parse(leading, sig, trailing).value.req == req
  }

  datatype Identity = Identity(id: string, ft: FileType)

  /** The identity and type of a signature's requests for names that are neither PDBs nor source bundles. */
  function PlainIdentity(sig: string): Option<Identity> {
    var req := BaseIdentity(sig, "", false);
    if req.None? then None else Some(Identity(CacheKey(req.value).id, req.value.fileType))
  }

  lemma FilenameIsCopied(sig: string, name: string, hint: bool)
    ensures BaseIdentity(sig, name, hint)
            == var r := BaseIdentity(sig, "", hint); if r.None? then None else Some(r.value.(filename := name))
  {
  }

  lemma IdentityKind(sig: string, name: string, hint: bool)
    requires BaseIdentity(sig, name, hint).Some?
    ensures var req := BaseIdentity(sig, name, hint).value;
            && req.filename == name && req.fileType != FileSourceBundle
            && (req.fileType == FilePDB ==> hint)
            && (req.fileType == FilePE ==> !hint && CacheKey(req).id == sig)
            && (req.fileType != FilePDB ==> PlainIdentity(sig) == Some(Identity(CacheKey(req).id, req.fileType)))
  {
  }

  /** Where a request comes from shows in its type and name. */
  lemma AskedFor(sig: string, req: Request)
    requires Asks(sig, req)
    ensures req.fileType == FileSourceBundle ==> IsSourceBundle(req.filename)
    ensures req.fileType == FilePDB ==> NamesPdb(req.filename)
    ensures req.fileType == FilePE ==> !IsSourceBundle(req.filename) && !NamesPdb(req.filename) && CacheKey(req).id == sig
    ensures req.fileType != FilePDB && req.fileType != FileSourceBundle ==>
              PlainIdentity(sig) == Some(Identity(CacheKey(req).id, req.fileType))
    ensures req.fileType != FilePE ==> HexOrDash(CacheKey(req).id)
  {
    var leading: string, trailing: string :| AsksBy(sig, req, leading, trailing);
    CleanIdentity(leading, sig, trailing);
    hide UncompressLeaf, BaseIdentity, HexOrDash, PlainIdentity, CacheKey, IsSourceBundle, NamesPdb;
    var inner := UncompressLeaf(trailing);
    if inner.Some? {
      PlainIsFinal(trailing);
      IdentityKind(sig, inner.value, NamesPdb(inner.value));
    } else {
      SameEnds(leading, trailing);
      IdentityKind(sig, trailing, IsSourceBundle(trailing) || NamesPdb(leading));
    }
  }

  lemma SameEnds(a: string, b: string)
    requires EqualFold(a, b)
    ensures NamesPdb(a) == NamesPdb(b) && IsSourceBundle(a) == IsSourceBundle(b)
  {
  }

  /** A name that ends in `g` is a plain one. */
  lemma PlainNameAsks(sig: string, name: string)
    requires name != "" && name[|name| - 1] == 'g' && PlainIdentity(sig).Some?
    ensures var req := BaseIdentity(sig, name, false);
            && req.Some? && Asks(sig, req.value)
            && CacheKey(req.value).id == PlainIdentity(sig).value.id
            && req.value.fileType == PlainIdentity(sig).value.ft && req.value.filename == name
  {
    FilenameIsCopied(sig, name, false);
    if UncompressLeaf(name).Some? {
      LeafShape(name);
    }
    assert ToLower(name)[|name| - 1] == 'g';
    SuffixLast(ToLower(name), EXT_PDB);
    SuffixLast(ToLower(name), SUFFIX_SOURCE_BUNDLE);
    hide UncompressLeaf, BaseIdentity;
    assert AsksBy(sig, BaseIdentity(sig, name, false).value, name, name);
  }

  predicate ShareFlight(r: Role, a: Request, q: Role, b: Request) {
    FlightKey(SlotOf(r, a)) == FlightKey(SlotOf(q, b))
  }

  /** An entry lies in the directory of its role, under the hash of its text. */
  predicate SharePath(r: Role, a: Request, q: Role, b: Request) {
    r == q && Joined(SlotOf(r, a)) == Joined(SlotOf(q, b))
  }

  /** Requests share a flight key only if role and cache key agree. */
  ghost predicate FlightsSeparate(reqs: iset<Request>) {
    forall r: Role, a: Request, q: Role, b: Request {:trigger ShareFlight(r, a, q, b)} ::
      a in reqs && b in reqs && ShareFlight(r, a, q, b) ==> r == q && CacheKey(a) == CacheKey(b)
  }

  ghost predicate EntriesSeparate(reqs: iset<Request>) {
    forall r: Role, a: Request, q: Role, b: Request {:trigger SharePath(r, a, q, b)} ::
      a in reqs && b in reqs && SharePath(r, a, q, b) ==> r == q && CacheKey(a) == CacheKey(b)
  }

  /** The requests that paths with these signatures can ask for. */
  ghost function AskedBy(sigs: iset<string>): iset<Request> {
    iset sig: string, req: Request | sig in sigs && Asks(sig, req) :: req
  }

  /** No PE signature extends the identity of another signature by what that one's names can absorb. */
  ghost predicate NoFlightNest(sigs: iset<string>) {
    forall s, t :: s in sigs && t in sigs ==> !FlightNest(s, t)
  }

  ghost predicate FlightNest(s: string, t: string) {
    && PlainIdentity(s).Some? && PlainIdentity(t) == Some(Identity(t, FilePE))
    && NestsInFlight(PlainIdentity(s).value.id, PlainIdentity(s).value.ft, t)
  }

  ghost predicate NoDiskNest(sigs: iset<string>) {
    forall s, t :: s in sigs && t in sigs ==> !DiskNest(s, t)
  }

  ghost predicate DiskNest(s: string, t: string) {
    && PlainIdentity(s).Some? && PlainIdentity(t) == Some(Identity(t, FilePE))
    && NestsOnDisk(PlainIdentity(s).value.id, PlainIdentity(s).value.ft, t)
  }

  lemma SuffixChars(low: string, suffix: string)
    requires HasSuffix(low, suffix)
    ensures forall k :: |low| - |suffix| <= k < |low| ==> low[k] in suffix
  {
    forall k | |low| - |suffix| <= k < |low| ensures low[k] in suffix {
      assert low[k] == low[|low| - |suffix|..][k - (|low| - |suffix|)];
    }
  }

  /** What comes before the last slash does not matter for a suffix without one. */
  lemma SuffixThrough(x: string, name: string, suffix: string)
    requires '/' !in suffix
    ensures HasSuffix(ToLower(x + "/" + name), suffix) ==> HasSuffix(ToLower(name), suffix)
  {
    var low := ToLower(x + "/" + name);
    assert low[|x|] == '/' && ToLower(name) == low[|x| + 1..];
    if HasSuffix(low, suffix) {
      SuffixChars(low, suffix);
      assert |suffix| <= |name|;
      assert low[|low| - |suffix|..] == ToLower(name)[|name| - |suffix|..];
    }
  }

  lemma SameSlot(r: Role, a: Request, q: Role, b: Request)
    ensures SlotOf(r, a) == SlotOf(q, b) <==> r == q && CacheKey(a) == CacheKey(b)
  {
    if CacheKey(a) == CacheKey(b) {
      KeyNamesFile(a, b);
    }
  }

  /** A PE request's name takes in another request's key only if that one is no PDB and no source bundle. */
  lemma AbsorberIsPlain(s: string, a: Request, b: Request, x: string, name: string)
    requires Asks(s, a) && b.fileType == FilePE && !IsSourceBundle(b.filename) && !NamesPdb(b.filename)
    requires a.filename == x + "/" + b.filename
    ensures PlainIdentity(s) == Some(Identity(CacheKey(a).id, a.fileType))
  {
    hide PlainIdentity, Asks, CacheKey;
    AskedFor(s, a);
    SuffixThrough(x, b.filename, SUFFIX_SOURCE_BUNDLE);
    SuffixThrough(x, b.filename, EXT_PDB);
  }

  lemma FlightNestFound(s: string, a: Request, t: string, b: Request, role: Role)
    requires Asks(s, a) && Asks(t, b) && ShareFlight(role, a, role, b) && CacheKey(a) != CacheKey(b)
    requires |CacheKey(a).id| <= |CacheKey(b).id|
    ensures FlightNest(s, t)
  {
    var u, v := SlotOf(role, a), SlotOf(role, b);
    SameSlot(role, a, role, b);
    hide CacheKey, Asks, PlainIdentity, FlightKey, IsSourceBundle, NamesPdb;
    var y := FlightCollision(u, v);
    AskedFor(t, b);
    assert '|' in v.id by { assert v.id[|u.id|] == '|'; }
    assert b.fileType == FilePE by { CleanHas(v.id, '|'); }
    var x := y + "|" + Tag(FilePE);
    assert y + "|" + Inner(FilePE, b.filename) == x + "/" + b.filename;
    AbsorberIsPlain(s, a, b, x, b.filename);
  }

  lemma CleanHas(id: string, c: char)
    requires c in id && (c == '|' || c == ':')
    ensures !HexOrDash(id)
  {
  }

  lemma DiskNestFound(s: string, a: Request, t: string, b: Request, role: Role)
    requires Asks(s, a) && Asks(t, b) && SharePath(role, a, role, b) && CacheKey(a) != CacheKey(b)
    requires |CacheKey(a).id| <= |CacheKey(b).id|
    ensures DiskNest(s, t)
  {
    var u, v := SlotOf(role, a), SlotOf(role, b);
    SameSlot(role, a, role, b);
    hide CacheKey, Asks, PlainIdentity, Joined, IsSourceBundle, NamesPdb;
    var y := DiskCollision(u, v);
    AskedFor(t, b);
    assert ':' in v.id by { assert v.id[|u.id|] == ':'; }
    assert b.fileType == FilePE by { CleanHas(v.id, ':'); }
    var x := y + ":" + RoleName(role) + ":" + Tag(FilePE);
    assert y + ":" + RoleName(role) + ":" + Inner(FilePE, b.filename) == x + "/" + b.filename;
    AbsorberIsPlain(s, a, b, x, b.filename);
  }

  /** Two signatures that nest have requests that share a flight. */
  lemma NestedShareFlight(s: string, t: string) returns (a: Request, b: Request)
    requires FlightNest(s, t)
    ensures Asks(s, a) && Asks(t, b) && ShareFlight(Objects, a, Objects, b) && CacheKey(a) != CacheKey(b)
  {
    var i := PlainIdentity(s).value;
    var y: string :| t == i.id + "|" + Inner(i.ft, y);
    var name := y + "|" + Inner(FilePE, "g");
    assert Inner(FilePE, "g")[3] == 'g' && |Inner(FilePE, "g")| == 4;
    assert name[|name| - 1] == 'g';
    hide PlainIdentity, CacheKey, Asks, BaseIdentity, FlightKey, Inner;
    PlainNameAsks(s, name);
    PlainNameAsks(t, "g");
    a, b := BaseIdentity(s, name, false).value, BaseIdentity(t, "g", false).value;
    AbsorbedInFlight(SlotOf(Objects, a), SlotOf(Objects, b), y);
    assert |t| > |i.id|;
  }

  lemma NestedSharePath(s: string, t: string) returns (r: Role, a: Request, b: Request)
    requires DiskNest(s, t)
    ensures Asks(s, a) && Asks(t, b) && SharePath(r, a, r, b) && CacheKey(a) != CacheKey(b)
  {
    var i := PlainIdentity(s).value;
    var role: Role, y: string :| t == i.id + ":" + RoleName(role) + ":" + Inner(i.ft, y);
    r := role;
    var name := y + ":" + RoleName(role) + ":" + Inner(FilePE, "g");
    assert Inner(FilePE, "g")[3] == 'g' && |Inner(FilePE, "g")| == 4;
    assert name[|name| - 1] == 'g';
    hide PlainIdentity, CacheKey, Asks, BaseIdentity, Joined, Inner, RoleName;
    PlainNameAsks(s, name);
    PlainNameAsks(t, "g");
    a, b := BaseIdentity(s, name, false).value, BaseIdentity(t, "g", false).value;
    AbsorbedOnDisk(SlotOf(role, a), SlotOf(role, b), y);
    assert |t| > |i.id|;
  }

  lemma NestBreaksFlights(sigs: iset<string>, s: string, t: string)
    requires s in sigs && t in sigs && FlightNest(s, t)
    ensures !FlightsSeparate(AskedBy(sigs))
  {
    hide Asks, FlightNest, ShareFlight, CacheKey;
    var a, b := NestedShareFlight(s, t);
    assert a in AskedBy(sigs) && b in AskedBy(sigs);
  }

  lemma NestBreaksPaths(sigs: iset<string>, s: string, t: string)
    requires s in sigs && t in sigs && DiskNest(s, t)
    ensures !EntriesSeparate(AskedBy(sigs))
  {
    hide Asks, DiskNest, SharePath, CacheKey;
    var r, a, b := NestedSharePath(s, t);
    assert a in AskedBy(sigs) && b in AskedBy(sigs);
  }

  /**
    Flight keys tell all requests of a family of signatures apart if and only if no PE signature
    in it extends the identity of another one by a bar, that one's type and a slash.
  */
  lemma FlightKeysExact(sigs: iset<string>)
    ensures FlightsSeparate(AskedBy(sigs)) <==> NoFlightNest(sigs)
  {
    hide Asks, FlightNest, ShareFlight, CacheKey;
    if NoFlightNest(sigs) {
      forall r: Role, a: Request, q: Role, b: Request
        | a in AskedBy(sigs) && b in AskedBy(sigs) && ShareFlight(r, a, q, b) ensures r == q && CacheKey(a) == CacheKey(b)
      {
        var s :| s in sigs && Asks(s, a);
        var t :| t in sigs && Asks(t, b);
        SharedRole(r, a, q, b);
        if CacheKey(a) != CacheKey(b) {
          if |CacheKey(a).id| <= |CacheKey(b).id| {
            FlightNestFound(s, a, t, b, r);
          } else {
            Symmetric(r, a, b);
            FlightNestFound(t, b, s, a, r);
          }
        }
      }
    }
    if FlightsSeparate(AskedBy(sigs)) {
      forall s, t | s in sigs && t in sigs ensures !FlightNest(s, t) {
        if FlightNest(s, t) {
          NestBreaksFlights(sigs, s, t);
        }
      }
    }
  }

  lemma SharedRole(r: Role, a: Request, q: Role, b: Request)
    requires ShareFlight(r, a, q, b)
    ensures r == q
  {
    var u, v := SlotOf(r, a), SlotOf(q, b);
    if |u.id| <= |v.id| {
      var y := FlightCollision(u, v);
    } else {
      var y := FlightCollision(v, u);
    }
  }

  lemma Symmetric(r: Role, a: Request, b: Request)
    ensures ShareFlight(r, a, r, b) == ShareFlight(r, b, r, a)
    ensures SharePath(r, a, r, b) == SharePath(r, b, r, a)
  {
  }

  /** The same for paths, with a colon, a role and a colon in place of the bar. */
  lemma DiskKeysExact(sigs: iset<string>)
    ensures EntriesSeparate(AskedBy(sigs)) <==> NoDiskNest(sigs)
  {
    hide Asks, DiskNest, CacheKey, Joined;
    if NoDiskNest(sigs) {
      forall r: Role, a: Request, q: Role, b: Request
        | a in AskedBy(sigs) && b in AskedBy(sigs) && SharePath(r, a, q, b) ensures r == q && CacheKey(a) == CacheKey(b)
      {
        var s :| s in sigs && Asks(s, a);
        var t :| t in sigs && Asks(t, b);
        if CacheKey(a) != CacheKey(b) {
          if |CacheKey(a).id| <= |CacheKey(b).id| {
            DiskNestFound(s, a, t, b, r);
          } else {
            Symmetric(r, a, b);
            DiskNestFound(t, b, s, a, r);
          }
        }
      }
    }
    if EntriesSeparate(AskedBy(sigs)) {
      forall s, t | s in sigs && t in sigs ensures !DiskNest(s, t) {
        if DiskNest(s, t) {
          NestBreaksPaths(sigs, s, t);
        }
      }
    }
  }

  // ---- clean identities ----

  /** Slots of the PDB, ELF and Mach-O branches never share a text. */
  lemma CleanIdsSeparate(s: Slot, t: Slot)
    requires HexOrDash(s.id) && HexOrDash(t.id)
    ensures FlightKey(s) == FlightKey(t) <==> s == t
    ensures Joined(s) == Joined(t) <==> s == t
  {
    hide FlightKey, Joined, Inner;
    var u, v := if |s.id| <= |t.id| then s else t, if |s.id| <= |t.id| then t else s;
    if FlightKey(s) == FlightKey(t) && s != t {
      var y := FlightCollision(u, v);
      assert v.id[|u.id|] == '|';
      CleanHas(v.id, '|');
    }
    if Joined(s) == Joined(t) && s != t {
      var y := DiskCollision(u, v);
      assert v.id[|u.id|] == ':';
      CleanHas(v.id, ':');
    }
  }

  /** Two parsed requests, neither of them for a PE image, share a flight or a file only if role and cache key agree. */
  lemma ParsedRequestsSeparate(l1: string, s1: string, t1: string, r1: Role, l2: string, s2: string, t2: string, r2: Role)
    requires Parse(l1, s1, t1).Some? && Parse(l1, s1, t1).value.req.fileType != FilePE
    requires Parse(l2, s2, t2).Some? && Parse(l2, s2, t2).value.req.fileType != FilePE
    ensures var a, b := Parse(l1, s1, t1).value.req, Parse(l2, s2, t2).value.req;
            var same := r1 == r2 && CacheKey(a) == CacheKey(b);
            && (FlightKey(SlotOf(r1, a)) == FlightKey(SlotOf(r2, b)) <==> same)
            && (Joined(SlotOf(r1, a)) == Joined(SlotOf(r2, b)) <==> same)
  {
    hide Parse, FlightKey, Joined, Inner;
    CleanIdentity(l1, s1, t1);
    CleanIdentity(l2, s2, t2);
    var a, b := Parse(l1, s1, t1).value.req, Parse(l2, s2, t2).value.req;
    CleanIdsSeparate(SlotOf(r1, a), SlotOf(r2, b));
    SameSlot(r1, a, r2, b);
  }

  // ---- PE signatures ----

  /**
    Two PE requests that share a flight although their files lie apart: a follower of the one that
    runs reopens a file that nobody has written.
  */
  lemma PeKeysCollide() returns (a: Request, b: Request)
    ensures AsksBy("A", a, "f|pe/g", "f|pe/g") && AsksBy("A|pe/f", b, "g", "g") && CacheKey(a) != CacheKey(b)
    ensures ShareFlight(Objects, a, Objects, b) && !SharePath(Objects, a, Objects, b)
  {
    hide Parse, FlightKey;
    PeParse("f|pe/g", "A");
    PeParse("g", "A|pe/f");
    a, b := Request("", "A", "f|pe/g", FilePE), Request("", "A|pe/f", "g", FilePE);
    AbsorbedInFlight(SlotOf(Objects, a), SlotOf(Objects, b), "f");
    assert Joined(SlotOf(Objects, a))[1] == ':' && Joined(SlotOf(Objects, b))[1] == '|';
  }

  /** Two PE requests whose files lie at one path. */
  lemma PePathsCollide() returns (a: Request, b: Request)
    ensures AsksBy("A", a, "f:objects:pe/g", "f:objects:pe/g") && AsksBy("A:objects:pe/f", b, "g", "g")
    ensures CacheKey(a) != CacheKey(b) && SharePath(Objects, a, Objects, b)
  {
    hide Parse, Joined;
    PeParse("f:objects:pe/g", "A");
    PeParse("g", "A:objects:pe/f");
    a, b := Request("", "A", "f:objects:pe/g", FilePE), Request("", "A:objects:pe/f", "g", FilePE);
    AbsorbingNames();
    AbsorbedOnDisk(SlotOf(Objects, a), SlotOf(Objects, b), "f");
  }

  lemma AbsorbingNames()
    ensures DiskAbsorbs(Slot(Objects, "A", FilePE, "f:objects:pe/g"), Slot(Objects, "A:objects:pe/f", FilePE, "g"), "f")
  {
    assert Inner(FilePE, "f") == "pe/f" && Inner(FilePE, "g") == "pe/g";
    assert "A" + ":" + "objects" + ":" + "pe/f" == "A:objects:pe/f";
    assert "f" + ":" + "objects" + ":" + "pe/g" == "f:objects:pe/g";
  }

  lemma PeParse(name: string, sig: string)
    requires sig != "" && sig[0] == 'A' && '.' !in name
    ensures Parse(name, sig, name) == Some(Parsed(Request("", sig, name, FilePE), OctetStream))
  {
    NoDot(name, SUFFIX_SOURCE_BUNDLE);
    NoDot(name, EXT_PDB);
    assert !HasPrefix(sig, PREFIX_ELF_DEBUG) by { assert PREFIX_ELF_DEBUG[0] == 'e'; }
    assert !HasPrefix(sig, PREFIX_ELF_CODE) by { assert PREFIX_ELF_CODE[0] == 'e'; }
    assert !HasPrefix(sig, PREFIX_MACH_DEBUG) by { assert PREFIX_MACH_DEBUG[0] == 'm'; }
    assert !HasPrefix(sig, PREFIX_MACH_CODE) by { assert PREFIX_MACH_CODE[0] == 'm'; }
  }

  lemma NoDot(s: string, suffix: string)
    requires suffix != "" && suffix[0] == '.'
    ensures HasSuffix(ToLower(s), suffix) ==> '.' in s
  {
    if HasSuffix(ToLower(s), suffix) {
      assert ToLower(s)[|s| - |suffix|..][0] == '.';
      assert s[|s| - |suffix|] in s;
    }
  }

  // ---- disk paths ----

  /**
    As long as the hash does not collide on the two texts at hand, slots whose identities do not
    nest have different paths; and no entry lies in the staging directory.
  */
  lemma PathsSeparate(sha: string -> string, root: string, s: Slot, t: Slot)
    requires |sha(Joined(s))| == 64 && |sha(Joined(t))| == 64
    requires sha(Joined(s)) == sha(Joined(t)) ==> Joined(s) == Joined(t)
    requires !NestsOnDisk(s.id, s.ft, t.id) && !NestsOnDisk(t.id, t.ft, s.id)
    ensures DiskPath(root, s.role, sha(Joined(s))) == DiskPath(root, t.role, sha(Joined(t))) <==> s == t
    ensures !HasPrefix(DiskPath(root, s.role, sha(Joined(s))), root + "/tmp/")
  {
    var x, y := DiskPath(root, s.role, sha(Joined(s))), DiskPath(root, t.role, sha(Joined(t)));
    if x == y {
      assert sha(Joined(s)) == x[|x| - 64..] == y[|y| - 64..] == sha(Joined(t));
      if |s.id| <= |t.id| {
        var z := DiskCollision(s, t);
      } else {
        var z := DiskCollision(t, s);
      }
    }
    NamesArePlain();
    assert x[|root| + 1] == RoleName(s.role)[0] != 't';
    UnderTmp(root, x);
  }

  /** The paths that are built for two slots, under the root and outside its staging directory. */
  method BuildPaths(sha: string -> string, root: string, s: Slot, t: Slot) returns (p: string, q: string)
    requires |sha(Joined(s))| == 64 && |sha(Joined(t))| == 64
    requires sha(Joined(s)) == sha(Joined(t)) ==> Joined(s) == Joined(t)
    requires !NestsOnDisk(s.id, s.ft, t.id) && !NestsOnDisk(t.id, t.ft, s.id)
    ensures p == q <==> s == t
    ensures HasPrefix(p, root + "/") && !HasPrefix(p, root + "/tmp/") && HasPrefix(q, root + "/") && !HasPrefix(q, root + "/tmp/")
  {
    p := BuildPath(sha, root, s);
    q := BuildPath(sha, root, t);
    PathsSeparate(sha, root, s, t);
    PathsSeparate(sha, root, t, s);
    RootFirst(root, RoleName(s.role), p);
    RootFirst(root, RoleName(t.role), q);
  }

  lemma RootFirst(root: string, role: string, p: string)
    requires HasPrefix(p, root + "/" + role + "/")
    ensures HasPrefix(p, root + "/")
  {
    var whole := root + "/" + role + "/";
    assert p[..|root| + 1] == p[..|whole|][..|root| + 1] == root + "/";
  }

  lemma UnderTmp(root: string, x: string)
    ensures HasPrefix(x, root + "/tmp/") ==> x[|root| + 1] == 't'
  {
    if HasPrefix(x, root + "/tmp/") {
      assert x[|root| + 1] == x[..|root| + 5][|root| + 1] == (root + "/tmp/")[|root| + 1];
    }
  }
}
