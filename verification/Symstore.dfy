/** Symbol-server paths: the request grammar and the Microsoft compressed leaf names. */
module Symstore {
  import opened Prelude
  import opened Text
  import opened DebugId

  datatype FileType = FilePDB | FilePE | FileELFCode | FileELFDebug | FileMachCode | FileMachDebug | FileSourceBundle

  function Tag(ft: FileType): string {
    match ft
    case FilePDB => "pdb"
    case FilePE => "pe"
    case FileELFCode => "elf_code"
    case FileELFDebug => "elf_debug"
    case FileMachCode => "mach_code"
    case FileMachDebug => "mach_debug"
    case FileSourceBundle => "sourcebundle"
  }

  /** An empty `debugId` or `codeId` means that the identifier is absent. */
  datatype Request = Request(debugId: string, codeId: string, filename: string, fileType: FileType)

  datatype Serve = OctetStream | Cab | Zip

  datatype Parsed = Parsed(req: Request, serve: Serve)

  const PREFIX_ELF_DEBUG := "elf-buildid-sym-"
  const PREFIX_ELF_CODE := "elf-buildid-"
  const PREFIX_MACH_DEBUG := "mach-uuid-sym-"
  const PREFIX_MACH_CODE := "mach-uuid-"
  const EXT_PDB := ".pdb"
  const SUFFIX_SOURCE_BUNDLE := ".src.zip"

  // ---- compressed leaf names ----

  datatype Compressed = Compressed(suffix: string, replacement: char)

  const COMPRESSED_EXTENSIONS: seq<Compressed> :=
    [Compressed("pd_", 'b'), Compressed("dl_", 'l'), Compressed("ex_", 'e')]

  predicate AllUpper(s: string) {
    s != "" && forall i :: 0 <= i < |s| ==> !('a' <= s[i] <= 'z')
  }

  function TrimUnderscores(s: string): string {
    if s != "" && s[|s| - 1] == '_' then TrimUnderscores(s[..|s| - 1]) else s
  }

  function Replacement(ext: string): Option<char> {
    if EqualFold(ext, "pd_") then Some('b')
    else if EqualFold(ext, "dl_") then Some('l')
    else if EqualFold(ext, "ex_") then Some('e')
    else None
  }

  function Extension(leaf: string): Option<string> {
    var dot := LastIndex(leaf, '.');
    if dot.None? then None else Some(leaf[dot.value + 1..])
  }

  function UncompressLeaf(leaf: string): Option<string> {
    var ext := Extension(leaf);
    if ext.None? || Replacement(ext.value).None? || leaf == "" then None
    else
      var low := Replacement(ext.value).value;
      var r := if AllUpper(TrimUnderscores(ext.value)) then UpperChar(low) else low;
      Some(leaf[..|leaf| - 1] + [r])
  }

  function UpperChar(c: char): char {
    if 'a' <= c <= 'z' then (c as int - 32) as char else c
  }

  method ScanUpper(s: string) returns (upper: bool)
    ensures upper == AllUpper(s)
  {
    if s == "" {
      return false;
    }
    for i := 0 to |s|
      invariant forall j :: 0 <= j < i ==> !('a' <= s[j] <= 'z')
    {
      if 'a' <= s[i] <= 'z' {
        return false;
      }
    }
    return true;
  }

  /** `uncompressLeaf` with its table search and its builder. */
  method Uncompress(leaf: string) returns (r: Option<string>)
    ensures r == UncompressLeaf(leaf)
  {
    var dot := LastIndex(leaf, '.');
    if dot.None? {
      return None;
    }
    var ext := leaf[dot.value + 1..];
    var replacement, matched := '?', false;
    assert COMPRESSED_EXTENSIONS[0] == Compressed("pd_", 'b') && COMPRESSED_EXTENSIONS[1] == Compressed("dl_", 'l')
        && COMPRESSED_EXTENSIONS[2] == Compressed("ex_", 'e');
    for i := 0 to |COMPRESSED_EXTENSIONS|
      invariant !matched
      invariant forall j :: 0 <= j < i ==> !EqualFold(ext, COMPRESSED_EXTENSIONS[j].suffix)
    {
      if EqualFold(ext, COMPRESSED_EXTENSIONS[i].suffix) {
        assert i == 0 || i == 1 || i == 2;
        replacement, matched := COMPRESSED_EXTENSIONS[i].replacement, true;
        assert Replacement(ext) == Some(replacement);
        break;
      }
    }
    if !matched {
      return None;
    }
    var upper := ScanUpper(TrimUnderscores(ext));
    if upper {
      replacement := (replacement as int - 32) as char;
    }
    var b := "";
    b := b + leaf[..|leaf| - 1];
    b := b + [replacement];
    assert "" + leaf[..|leaf| - 1] == leaf[..|leaf| - 1];
    return Some(b);
  }

  // ---- the grammar ----

  predicate IsSourceBundle(name: string) {
    HasSuffix(ToLower(name), SUFFIX_SOURCE_BUNDLE)
  }

  predicate NamesPdb(name: string) {
    HasSuffix(ToLower(name), EXT_PDB)
  }

  function ElfRequest(buildId: string, filename: string, ft: FileType): Option<Request> {
    if !IsHex(buildId) then None
    else
      var id := ElfDebugId(buildId);
      Some(Request(if id.Some? then id.value else "", ToLower(buildId), filename, ft))
  }

  function MachRequest(uuid: string, filename: string, ft: FileType): Option<Request> {
    var u := NormalizeUuid(uuid);
    if u.None? then None else Some(Request(u.value.dashed, u.value.simple, filename, ft))
  }

  function BaseIdentity(sig: string, filename: string, pdbHint: bool): Option<Request> {
    if HasPrefix(sig, PREFIX_ELF_DEBUG) then ElfRequest(sig[|PREFIX_ELF_DEBUG|..], filename, FileELFDebug)
    else if HasPrefix(sig, PREFIX_ELF_CODE) then ElfRequest(sig[|PREFIX_ELF_CODE|..], filename, FileELFCode)
    else if HasPrefix(sig, PREFIX_MACH_DEBUG) then MachRequest(sig[|PREFIX_MACH_DEBUG|..], filename, FileMachDebug)
    else if HasPrefix(sig, PREFIX_MACH_CODE) then MachRequest(sig[|PREFIX_MACH_CODE|..], filename, FileMachCode)
    else if pdbHint then
      var id := NormalizePdb(sig);
      if id.None? then None else Some(Request(id.value, "", filename, FilePDB))
    else if sig == "" then None
    else Some(Request("", sig, filename, FilePE))
  }

  function Parse(leading: string, sig: string, trailing: string): Option<Parsed> {
    var inner := UncompressLeaf(trailing);
    if inner.Some? then
      var req := BaseIdentity(sig, inner.value, NamesPdb(inner.value));
      if req.None? then None else Some(Parsed(req.value, Cab))
    else if IsSourceBundle(trailing) then
      var req := BaseIdentity(sig, trailing, true);
      if req.None? then None else Some(Parsed(req.value.(fileType := FileSourceBundle), Zip))
    else
      var req := BaseIdentity(sig, trailing, NamesPdb(leading));
      if req.None? then None else Some(Parsed(req.value, OctetStream))
  }

  // ---- compressed and plain forms meet ----

  lemma {:induction false} LastIndexFrom(s: string, c: char, at: nat)
    requires at < |s| && s[at] == c && c !in s[at + 1..]
    ensures LastIndex(s, c) == Some(at)
    decreases |s|
  {
    if at < |s| - 1 {
      assert s[|s| - 1] == s[at + 1..][|s| - at - 2];
      assert s[..|s| - 1][at + 1..] == s[at + 1..][..|s| - at - 2];
      LastIndexFrom(s[..|s| - 1], c, at);
    }
  }

  /** Exactly one shape of leaf is compressed, and its plain form differs in the last character only. */
  lemma LeafShape(leaf: string)
    requires UncompressLeaf(leaf).Some?
    ensures var plain := UncompressLeaf(leaf).value;
            && |leaf| >= 4 && |plain| == |leaf| && leaf[|leaf| - 4] == plain[|leaf| - 4] == '.'
            && leaf[|leaf| - 1] == '_' && leaf == plain[..|plain| - 1] + "_"
            && LowerChar(plain[|plain| - 1]) in "ble"
            && Extension(plain) == Some(plain[|plain| - 3..])
  {
    var dot := LastIndex(leaf, '.').value;
    var ext := leaf[dot + 1..];
    var plain := UncompressLeaf(leaf).value;
    assert |ext| == |ToLower(ext)| == 3;
    assert ToLower(ext)[2] == '_';
    assert LowerChar(ext[2]) == '_';
    assert dot == |leaf| - 4 && ext[2] == leaf[|leaf| - 1];
    assert leaf == leaf[..|leaf| - 1] + [leaf[|leaf| - 1]];
    assert plain[dot + 1..] == [ext[0], ext[1], plain[|plain| - 1]];
    assert '.' !in plain[dot + 1..];
    LastIndexFrom(plain, '.', dot);
  }

  lemma SuffixLast(s: string, t: string)
    requires t != ""
    ensures HasSuffix(s, t) ==> s != "" && s[|s| - 1] == t[|t| - 1]
  {
    if HasSuffix(s, t) {
      assert s[|s| - |t|..][|t| - 1] == s[|s| - 1];
    }
  }

  /** A plain form is never itself compressed nor a source bundle, and its leaf can be recovered. */
  lemma PlainIsFinal(leaf: string)
    requires UncompressLeaf(leaf).Some?
    ensures var plain := UncompressLeaf(leaf).value;
            && UncompressLeaf(plain).None?
            && !IsSourceBundle(plain)
            && leaf == plain[..|plain| - 1] + "_"
  {
    LeafShape(leaf);
    var plain := UncompressLeaf(leaf).value;
    var n := |plain|;
    NoReplacement(plain[n - 3..]);
    assert ToLower(plain)[n - 1] == LowerChar(plain[n - 1]) != 'p';
    SuffixLast(ToLower(plain), SUFFIX_SOURCE_BUNDLE);
  }

  lemma NoReplacement(ext: string)
    requires |ext| == 3 && LowerChar(ext[2]) in "ble"
    ensures Replacement(ext).None?
  {
    assert ToLower(ext)[2] == LowerChar(ext[2]) != '_';
    assert ToLower("pd_")[2] == ToLower("dl_")[2] == ToLower("ex_")[2] == '_';
  }

  /**
    A compressed leaf and its plain form ask for the same object: with one signature they give
    the same request, or both fail, and only the serving decision differs. The leading names
    may differ from the trailing ones in case, which is all the handler checks.
  */
  lemma FormsMeet(leadC: string, leaf: string, leadP: string, sig: string)
    requires UncompressLeaf(leaf).Some?
    requires EqualFold(leadP, UncompressLeaf(leaf).value)
    ensures var c, p := Parse(leadC, sig, leaf), Parse(leadP, sig, UncompressLeaf(leaf).value);
            && (c.None? <==> p.None?)
            && (c.Some? ==> c.value.req == p.value.req && c.value.serve == Cab && p.value.serve == OctetStream)
  {
    PlainIsFinal(leaf);
  }
}
