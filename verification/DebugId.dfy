/** Normalisation of PDB, ELF and Mach-O identifiers to debug IDs, and what it preserves. */
module DebugId {
  import opened Prelude
  import opened Text

  const UUID_HEX_LEN: nat := 32
  const UUID_BYTE_LEN: nat := 16

  /** The canonical 8-4-4-4-12 form. */
  function Dashed(h: string): (d: string)
    requires |h| == 32
    ensures |d| == 36
  {
    h[..8] + "-" + h[8..12] + "-" + h[12..16] + "-" + h[16..20] + "-" + h[20..]
  }

  function Undash(d: string): (h: string)
    requires |d| == 36
    ensures |h| == 32
  {
    d[..8] + d[9..13] + d[14..18] + d[19..23] + d[24..]
  }

  lemma UndashDashed(h: string)
    requires |h| == 32
    ensures Undash(Dashed(h)) == h
  {
    var d := Dashed(h);
    assert d[..8] == h[..8] && d[9..13] == h[8..12] && d[14..18] == h[12..16] && d[19..23] == h[16..20];
    assert d[24..] == h[20..];
    assert h == h[..8] + h[8..12] + h[12..16] + h[16..20] + h[20..];
  }

  function DashUuid(h: string): Option<string> {
    if |h| != UUID_HEX_LEN || !IsHex(h) then None else Some(Dashed(ToLower(h)))
  }

  /** `dashUUID`: takes 32 hexadecimal digits, and gives them back in lower case around dashes at four fixed places. */
  method BuildDashUuid(h: string) returns (r: Option<string>)
    ensures r.Some? <==> |h| == 32 && AllHex(h)
    ensures r.Some? ==>
              && |r.value| == 36 && Undash(r.value) == ToLower(h)
              && r.value[8] == r.value[13] == r.value[18] == r.value[23] == '-'
    ensures r == DashUuid(h)
  {
    var hex := ScanHex(h);
    if |h| != UUID_HEX_LEN || !hex {
      return None;
    }
    var low := ToLower(h);
    var b := "";
    b := b + low[..8];
    b := b + "-";
    b := b + low[8..12];
    b := b + "-";
    b := b + low[12..16];
    b := b + "-";
    b := b + low[16..20];
    b := b + "-";
    b := b + low[20..];
    assert "" + low[..8] == low[..8];
    UndashDashed(low);
    return Some(b);
  }

  function NormalizePdb(sig: string): Option<string> {
    if |sig| < UUID_HEX_LEN then None
    else
      var uuid := DashUuid(sig[..32]);
      var age := ToLower(sig[32..]);
      if uuid.None? || (age != "" && !IsHex(age)) then None
      else if TrimZeros(age) == "" then uuid
      else Some(uuid.value + "-" + TrimZeros(age))
  }

  /** The GUID bytes with the first three fields swapped between little-endian and display order. */
  function SwapGuid(b: Bytes): (s: Bytes)
    requires |b| == 16
    ensures |s| == 16
  {
    [b[3], b[2], b[1], b[0], b[5], b[4], b[7], b[6]] + b[8..]
  }

  function ElfDebugId(buildId: string): Option<string> {
    var b := HexDecode(buildId);
    if b.None? || |b.value| < UUID_BYTE_LEN then None
    else DashUuid(HexEncode(SwapGuid(b.value[..16])))
  }

  function StripDashes(s: string): (r: string)
    ensures '-' !in r
  {
    if s == "" then "" else (if s[0] == '-' then "" else s[..1]) + StripDashes(s[1..])
  }

  datatype Uuid = Uuid(simple: string, dashed: string)

  function NormalizeUuid(s: string): Option<Uuid> {
    var simple := ToLower(StripDashes(s));
    if |simple| != UUID_HEX_LEN || !IsHex(simple) then None
    else Some(Uuid(simple, Dashed(simple)))
  }

  // ---- PDB signatures ----

  lemma PdbAccepts(sig: string)
    ensures NormalizePdb(sig).Some? <==> |sig| >= 32 && AllHex(sig)
  {
    if |sig| >= 32 {
      LowerHex(sig[32..]);
      assert sig == sig[..32] + sig[32..];
    }
  }

  /**
    PDB canonicalisation is exact: two signatures share a debug ID if and only if their GUIDs
    are the same hexadecimal value and their ages are the same unbounded hexadecimal number.
  */
  lemma PdbExact(s: string, t: string)
    requires NormalizePdb(s).Some? && NormalizePdb(t).Some?
    ensures |s| >= 32 && |t| >= 32 && AllHex(s) && AllHex(t)
    ensures NormalizePdb(s) == NormalizePdb(t) <==>
              HexValue(s[..32]) == HexValue(t[..32]) && HexValue(s[32..]) == HexValue(t[32..])
  {
    PdbAccepts(s);
    PdbAccepts(t);
    PdbParts(s);
    PdbParts(t);
    var g, h := ToLower(s[..32]), ToLower(t[..32]);
    var a, b := TrimZeros(ToLower(s[32..])), TrimZeros(ToLower(t[32..]));
    UndashDashed(g);
    UndashDashed(h);
    if HexValue(g) == HexValue(h) {
      NumeralUnique(g, h);
    }
    if HexValue(a) == HexValue(b) {
      NumeralUnique(a, b);
    }
    PairedText(Dashed(g), a, Dashed(h), b);
  }

  /** GUID and age separated; neither canonical part loses any value. */
  lemma PdbParts(s: string)
    requires |s| >= 32 && AllHex(s)
    ensures var g, a := ToLower(s[..32]), TrimZeros(ToLower(s[32..]));
            && LowerHexText(g) && AllHex(g) && HexValue(g) == HexValue(s[..32])
            && LowerHexText(a) && AllHex(a) && HexValue(a) == HexValue(s[32..])
            && (a == "" || a[0] != '0')
            && NormalizePdb(s) == Some(Dashed(g) + Appendix(a))
  {
    LowerHex(s[..32]);
    LowerHex(s[32..]);
    LowerHexValue(s[..32]);
    LowerHexValue(s[32..]);
    ValueDropsZeros(ToLower(s[32..]));
    var g, a := ToLower(s[..32]), TrimZeros(ToLower(s[32..]));
    assert DashUuid(s[..32]) == Some(Dashed(g));
    assert Dashed(g) + "" == Dashed(g);
    assert Dashed(g) + "-" + a == Dashed(g) + ("-" + a);
  }

  function Appendix(age: string): string {
    if age == "" then "" else "-" + age
  }

  lemma PairedText(x: string, a: string, y: string, b: string)
    requires |x| == |y|
    ensures x + Appendix(a) == y + Appendix(b) <==> x == y && a == b
  {
    if x + Appendix(a) == y + Appendix(b) {
      assert x == (x + Appendix(a))[..|x|] == y;
      assert Appendix(a) == (x + Appendix(a))[|x|..] == Appendix(b);
      assert a != "" ==> Appendix(a)[1..] == a;
      assert b != "" ==> Appendix(b)[1..] == b;
    }
  }

  // ---- ELF build IDs ----

  lemma SwapTwice(b: Bytes)
    requires |b| == 16
    ensures SwapGuid(SwapGuid(b)) == b
  {
  }

  /** An ELF debug ID gives back exactly the first 16 bytes of the build ID. */
  lemma ElfReversible(buildId: string)
    requires ElfDebugId(buildId).Some?
    ensures var b, id := HexDecode(buildId).value, ElfDebugId(buildId).value;
            && |id| == 36
            && HexDecode(Undash(id)).Some? && |HexDecode(Undash(id)).value| == 16
            && SwapGuid(HexDecode(Undash(id)).value) == b[..16]
  {
    var b := HexDecode(buildId).value;
    var h := HexEncode(SwapGuid(b[..16]));
    EncodedIsHex(SwapGuid(b[..16]));
    assert ToLower(h) == h;
    UndashDashed(h);
    DecodeEncode(SwapGuid(b[..16]));
    SwapTwice(b[..16]);
  }

  lemma ElfAccepts(buildId: string)
    ensures ElfDebugId(buildId).Some? <==> |buildId| >= 32 && |buildId| % 2 == 0 && AllHex(buildId)
  {
    var b := HexDecode(buildId);
    if b.Some? && |b.value| >= 16 {
      EncodedIsHex(SwapGuid(b.value[..16]));
    }
  }

  /** Two build IDs share a debug ID if and only if their first 16 bytes agree, whatever their tails. */
  lemma ElfExact(s: string, t: string)
    requires ElfDebugId(s).Some? && ElfDebugId(t).Some?
    ensures ElfDebugId(s) == ElfDebugId(t) <==> HexDecode(s).value[..16] == HexDecode(t).value[..16]
  {
    ElfReversible(s);
    ElfReversible(t);
  }

  lemma ElfIgnoresCase(s: string)
    requires ElfDebugId(s).Some?
    ensures ElfDebugId(ToLower(s)) == ElfDebugId(s)
  {
    DecodeIgnoresCase(s);
  }

  // ---- Mach-O UUIDs ----

  lemma {:induction false} StripNothing(s: string)
    requires '-' !in s
    ensures StripDashes(s) == s
  {
    if s != "" {
      StripNothing(s[1..]);
    }
  }

  lemma StripDashed(h: string)
    requires |h| == 32 && '-' !in h
    ensures StripDashes(Dashed(h)) == h
  {
    hide StripDashes;
    var p0, p1, p2, p3, p4 := h[..8], h[8..12], h[12..16], h[16..20], h[20..];
    StripJoin(p0, p1 + "-" + (p2 + "-" + (p3 + "-" + p4)));
    StripJoin(p1, p2 + "-" + (p3 + "-" + p4));
    StripJoin(p2, p3 + "-" + p4);
    StripJoin(p3, p4);
    StripNothing(p4);
    assert Dashed(h) == p0 + "-" + (p1 + "-" + (p2 + "-" + (p3 + "-" + p4)));
    assert h == p0 + (p1 + (p2 + (p3 + p4)));
  }

  lemma {:induction false} StripJoin(a: string, b: string)
    requires '-' !in a
    ensures StripDashes(a + "-" + b) == a + StripDashes(b)
  {
    if a == "" {
      assert (a + "-" + b)[1..] == b;
    } else {
      assert (a + "-" + b)[1..] == a[1..] + "-" + b;
      StripJoin(a[1..], b);
    }
  }

  /** Mach-O: dashes and case are all that is forgotten, and the dashed form normalises to itself. */
  lemma MachExact(s: string, t: string)
    requires NormalizeUuid(s).Some? && NormalizeUuid(t).Some?
    ensures NormalizeUuid(s).value.dashed == NormalizeUuid(t).value.dashed <==>
              ToLower(StripDashes(s)) == ToLower(StripDashes(t))
    ensures NormalizeUuid(NormalizeUuid(s).value.dashed) == NormalizeUuid(s)
  {
    var u, v := NormalizeUuid(s).value, NormalizeUuid(t).value;
    UndashDashed(u.simple);
    UndashDashed(v.simple);
    LowerHex(StripDashes(s));
    StripDashed(u.simple);
    assert ToLower(u.simple) == u.simple;
  }
}
