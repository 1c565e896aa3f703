/**
  The byte layout of a single-folder, single-file MSZIP cabinet ([MS-CAB] sections
  2.1 to 2.4), stated as plain functions of the file name and the payload.
  `CabWriter` streams these bytes imperatively; `CabDecoder` reads them back.
*/
module CabFormat {
  import opened Prelude

  const CF_HEADER_SIZE: nat := 36
  const CF_FOLDER_SIZE: nat := 8
  const CF_FILE_FIXED_SIZE: nat := 16
  const CF_DATA_HEADER_LEN: nat := 8
  const STORED_HEADER_LEN: nat := 5
  const STORED_FINAL_BYTE: Byte := 0x01
  const OFF_CB_CABINET: nat := 8
  const OFF_C_CFDATA: nat := CF_HEADER_SIZE + 4
  const MAX_BLOCK: nat := 32768
  const MAX_BLOCKS: nat := 0xFFFF
  const MAX_FOLDER: nat := MAX_BLOCKS * MAX_BLOCK
  const COFF_FILES: nat := CF_HEADER_SIZE + CF_FOLDER_SIZE
  const COMPRESSION_MSZIP: nat := 1
  const DOS_DATE: nat := 0x0021
  const DOS_TIME: nat := 0x0000
  const ATTRIB_ARCHIVE: nat := 0x20
  const HEADER_SIGNATURE: Bytes := [0x4D, 0x53, 0x43, 0x46]
  const MSZIP_SIGNATURE: Bytes := [0x43, 0x4B]
  /** The longest name for which `cbCabinet` still fits in 32 bits, whatever the payload. */
  const MAX_NAME: nat := MAX_U32 - 61 - MAX_BLOCKS * (CF_DATA_HEADER_LEN + 2 + STORED_HEADER_LEN + MAX_BLOCK)

  /** A file that begins with the signature. */
  predicate IsCab(b: Bytes) {
    HEADER_SIGNATURE <= b
  }

  // ---- little-endian fields; like the Go conversions, an oversized value is truncated ----

  function LE16(x: nat): (s: Bytes)
    ensures |s| == 2
  {
    [x % 256, x / 256 % 256]
  }

  function LE32(x: nat): (s: Bytes)
    ensures |s| == 4
  {
    [x % 256, x / 256 % 256, x / 65536 % 256, x / 16777216 % 256]
  }

  function U16(s: Bytes, at: nat): nat
    requires at + 2 <= |s|
  {
    s[at] as int + 256 * (s[at + 1] as int)
  }

  function U32(s: Bytes, at: nat): nat
    requires at + 4 <= |s|
  {
    s[at] as int + 256 * (s[at + 1] as int) + 65536 * (s[at + 2] as int) + 16777216 * (s[at + 3] as int)
  }

  lemma FieldReads16(s: Bytes, at: nat, x: nat)
    requires at + 2 <= |s| && s[at..at + 2] == LE16(x) && x <= MAX_U16
    ensures U16(s, at) == x
  {
    var w := s[at..at + 2];
    assert s[at] == w[0] && s[at + 1] == w[1];
  }

  lemma FieldReads32(s: Bytes, at: nat, x: nat)
    requires at + 4 <= |s| && s[at..at + 4] == LE32(x) && x <= MAX_U32
    ensures U32(s, at) == x
  {
    var w := s[at..at + 4];
    assert s[at] == w[0] && s[at + 1] == w[1] && s[at + 2] == w[2] && s[at + 3] == w[3];
    FourBytes(x);
  }

  lemma FourBytes(x: nat)
    requires x <= MAX_U32
    ensures x % 256 + 256 * (x / 256 % 256) + 65536 * (x / 65536 % 256) + 16777216 * (x / 16777216 % 256) == x
  {
  }

  lemma SubSlice(file: Bytes, off: nat, b: Bytes, i: nat, j: nat)
    requires off + |b| <= |file| && file[off..off + |b|] == b && i <= j <= |b|
    ensures file[off + i..off + j] == b[i..j]
  {
    forall k | 0 <= k < j - i ensures file[off + i..off + j][k] == b[i..j][k] {
      assert file[off..off + |b|][i + k] == file[off + i + k];
    }
  }

  // ---- file names ----

  predicate ValidName(name: string) {
    name != "" && forall i :: 0 <= i < |name| ==> ' ' <= name[i] <= '~'
  }

  function NameBytes(name: string): (s: Bytes)
    requires ValidName(name)
    ensures |s| == |name|
    ensures forall i :: 0 <= i < |name| ==> s[i] == name[i] as int
  {
    seq(|name|, i requires 0 <= i < |name| => name[i] as int)
  }

  // ---- the compressor ----

  /** `compress/flate` seen from outside: a deterministic compressor and a decompressor. */
  datatype Codec = Codec(deflate: Bytes -> Bytes, inflate: Bytes -> Option<Bytes>)

  /** Section 3.2.4 of RFC 1951: one final stored block. */
  function StoredBlock(data: Bytes): (s: Bytes)
    requires |data| <= MAX_U16
    ensures |s| == STORED_HEADER_LEN + |data|
  {
    [STORED_FINAL_BYTE] + LE16(|data|) + LE16(MAX_U16 - |data|) + data
  }

  /** Reads a final stored block, checking NLEN against LEN. */
  function InflateStored(s: Bytes): Option<Bytes> {
    if |s| < STORED_HEADER_LEN || s[0] != STORED_FINAL_BYTE then None
    else if U16(s, 1) + U16(s, 3) != MAX_U16 then None
    else if |s| < STORED_HEADER_LEN + U16(s, 1) then None
    else Some(s[STORED_HEADER_LEN..STORED_HEADER_LEN + U16(s, 1)])
  }

  /** All that is asked of a codec: inflate undoes deflate and understands stored blocks. */
  ghost predicate ValidCodec(c: Codec) {
    && (forall data: Bytes {:trigger c.deflate(data)} :: |data| <= MAX_BLOCK ==> c.inflate(c.deflate(data)) == Some(data))
    && (forall s: Bytes :: InflateStored(s).Some? ==> c.inflate(s) == InflateStored(s))
  }

  lemma StoredRoundTrip(data: Bytes)
    requires |data| <= MAX_U16
    ensures InflateStored(StoredBlock(data)) == Some(data)
  {
    var s := StoredBlock(data);
    assert s[1..3] == LE16(|data|) && s[3..5] == LE16(MAX_U16 - |data|);
    assert s[5..5 + |data|] == data;
    FieldReads16(s, 1, |data|);
    FieldReads16(s, 3, MAX_U16 - |data|);
  }

  // ---- data blocks ----

  /** What one CFDATA block may carry. */
  type Chunk = d: Bytes | |d| <= 32768 witness []

  /** The CFDATA payload of one chunk: "CK", then deflate data or, when that is no gain, a stored block. */
  function Payload(c: Codec, data: Chunk): (p: Bytes)
    ensures 2 <= |p| <= 2 + STORED_HEADER_LEN + |data|
  {
    MSZIP_SIGNATURE +
    if |c.deflate(data)| > STORED_HEADER_LEN + |data| then StoredBlock(data) else c.deflate(data)
  }

  lemma PayloadInflates(c: Codec, data: Chunk)
    requires ValidCodec(c)
    ensures Payload(c, data)[..2] == MSZIP_SIGNATURE
    ensures c.inflate(Payload(c, data)[2..]) == Some(data)
  {
    var body := Payload(c, data)[2..];
    if |c.deflate(data)| > STORED_HEADER_LEN + |data| {
      StoredRoundTrip(data);
      assert body == StoredBlock(data);
    } else {
      assert body == c.deflate(data);
    }
  }

  /** A whole CFDATA block; the checksum is left zero. */
  function DataBlock(c: Codec, data: Chunk): (b: Bytes)
    ensures |b| == CF_DATA_HEADER_LEN + |Payload(c, data)|
  {
    LE32(0) + LE16(|Payload(c, data)|) + LE16(|data|) + Payload(c, data)
  }

  function Emit(c: Codec, chunks: seq<Chunk>): Bytes {
    if chunks == [] then [] else DataBlock(c, chunks[0]) + Emit(c, chunks[1..])
  }

  function Flatten(chunks: seq<Chunk>): Bytes {
    if chunks == [] then [] else chunks[0] + Flatten(chunks[1..])
  }

  /** How a payload is cut into blocks; an empty payload still gets one. */
  function Chunks(data: Bytes): (cs: seq<Chunk>)
    ensures cs != []
  {
    if |data| <= MAX_BLOCK then [data] else [data[..MAX_BLOCK]] + Chunks(data[MAX_BLOCK..])
  }

  /** The number of blocks, in closed form. */
  function BlockCount(size: nat): nat {
    if size == 0 then 1 else (size + 32767) / 32768
  }

  predicate AllFull(chunks: seq<Chunk>) {
    forall i :: 0 <= i < |chunks| ==> |chunks[i]| == MAX_BLOCK
  }

  /** Cutting is lossless, uses the predicted number of blocks, and only the last one may be short. */
  lemma {:induction false} ChunksExact(data: Bytes)
    ensures var cs := Chunks(data);
            && Flatten(cs) == data
            && |cs| == BlockCount(|data|)
            && AllFull(cs[..|cs| - 1])
            && (data != [] ==> cs[|cs| - 1] != [])
  {
    if |data| > MAX_BLOCK {
      var rest := data[MAX_BLOCK..];
      ChunksExact(rest);
      assert Chunks(data)[1..] == Chunks(rest);
      assert data[..MAX_BLOCK] + rest == data;
      assert BlockCount(|data|) == 1 + BlockCount(|rest|);
    } else {
      assert [data][1..] == [];
      assert data + [] == data;
    }
  }

  /** Full chunks followed by a last one are exactly how their concatenation is cut. */
  lemma {:induction false} ChunksUnique(full: seq<Chunk>, last: Chunk)
    requires AllFull(full) && (full != [] ==> last != [])
    ensures Chunks(Flatten(full) + last) == full + [last]
  {
    if full == [] {
      assert [] + last == last;
    } else {
      ChunksUnique(full[1..], last);
      var data := Flatten(full) + last;
      assert data == full[0] + (Flatten(full[1..]) + last);
      assert |data| > MAX_BLOCK by {
        if |full| > 1 {
          assert Flatten(full[1..]) == full[1..][0] + Flatten(full[1..][1..]);
        }
      }
      assert data[..MAX_BLOCK] == full[0] && data[MAX_BLOCK..] == Flatten(full[1..]) + last;
      assert full + [last] == [full[0]] + (full[1..] + [last]);
    }
  }

  lemma {:induction false} FlattenSnoc(chunks: seq<Chunk>, x: Chunk)
    ensures Flatten(chunks + [x]) == Flatten(chunks) + x
  {
    if chunks == [] {
      assert ([x])[1..] == [];
      assert x + [] == [] + x;
    } else {
      assert (chunks + [x])[1..] == chunks[1..] + [x];
      FlattenSnoc(chunks[1..], x);
      assert chunks[0] + (Flatten(chunks[1..]) + x) == chunks[0] + Flatten(chunks[1..]) + x;
    }
  }

  lemma {:induction false} EmitSnoc(c: Codec, chunks: seq<Chunk>, x: Chunk)
    ensures Emit(c, chunks + [x]) == Emit(c, chunks) + DataBlock(c, x)
  {
    var b := DataBlock(c, x);
    if chunks == [] {
      assert ([x])[1..] == [];
      assert b + [] == [] + b;
    } else {
      assert (chunks + [x])[1..] == chunks[1..] + [x];
      EmitSnoc(c, chunks[1..], x);
      var h, t := DataBlock(c, chunks[0]), Emit(c, chunks[1..]);
      assert h + (t + b) == h + t + b;
    }
  }

  // ---- the fixed structures ----

  function Header(total: nat): (s: Bytes)
    ensures |s| == CF_HEADER_SIZE
  {
    HEADER_SIGNATURE + LE32(0) + LE32(total) + LE32(0) + LE32(COFF_FILES) + LE32(0)
    + [3, 1] + LE16(1) + LE16(1) + LE16(0) + LE16(0) + LE16(0)
  }

  function Folder(firstData: nat, blocks: nat): (s: Bytes)
    ensures |s| == CF_FOLDER_SIZE
  {
    LE32(firstData) + LE16(blocks) + LE16(COMPRESSION_MSZIP)
  }

  function FileEntry(size: nat, name: Bytes): (s: Bytes)
    ensures |s| == CF_FILE_FIXED_SIZE + |name| + 1
  {
    LE32(size) + LE32(0) + LE16(0) + LE16(DOS_DATE) + LE16(DOS_TIME) + LE16(ATTRIB_ARCHIVE) + name + [0]
  }

  function FirstData(name: string): nat {
    COFF_FILES + CF_FILE_FIXED_SIZE + |name| + 1
  }

  /** Everything before the first CFDATA block. */
  function Preamble(name: string, size: nat, total: nat, blocks: nat): (s: Bytes)
    requires ValidName(name)
    ensures |s| == FirstData(name)
  {
    Header(total) + Folder(FirstData(name), blocks) + FileEntry(size, NameBytes(name))
  }

  function CabinetSize(c: Codec, name: string, data: Bytes): nat {
    FirstData(name) + |Emit(c, Chunks(data))|
  }

  /** The finished cabinet. */
  function Cabinet(c: Codec, name: string, data: Bytes): (s: Bytes)
    requires ValidName(name)
    ensures |s| == CabinetSize(c, name, data)
  {
    Preamble(name, |data|, CabinetSize(c, name, data), BlockCount(|data|)) + Emit(c, Chunks(data))
  }

  // ---- nothing is truncated ----

  lemma {:induction false} EmitSize(c: Codec, chunks: seq<Chunk>)
    ensures |Emit(c, chunks)| <= |chunks| * 32783
  {
    if chunks != [] {
      EmitSize(c, chunks[1..]);
    }
  }

  /** No field of a cabinet that respects the folder limit is truncated. */
  lemma NoTruncation(c: Codec, name: string, data: Bytes)
    requires |data| <= MAX_FOLDER
    ensures |Chunks(data)| == BlockCount(|data|) <= MAX_BLOCKS
    ensures BlockCount(|data|) == MAX_BLOCKS <==> MAX_FOLDER - MAX_BLOCK < |data|
    ensures forall i :: 0 <= i < |Chunks(data)| ==> |Payload(c, Chunks(data)[i])| <= 32775 <= MAX_U16
    ensures CabinetSize(c, name, data) <= 61 + |name| + MAX_BLOCKS * 32783
    ensures |name| <= MAX_NAME ==> CabinetSize(c, name, data) <= MAX_U32
  {
    ChunksExact(data);
    EmitSize(c, Chunks(data));
  }
}
