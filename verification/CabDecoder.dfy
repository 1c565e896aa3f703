/**
  An independent reader for cabinets, shaped like the extractor the repository's
  tests use, and the proof that it inverts `CabFormat.Cabinet`.
*/
module CabDecoder {
  import opened Prelude
  import opened CabFormat

  datatype Extracted = Extracted(name: string, payload: Bytes)

  /** The index of the first zero byte at or after `at`. */
  function FindNul(data: Bytes, at: nat): (r: Option<nat>)
    ensures r.Some? ==> at <= r.value < |data| && data[r.value] == 0
    decreases |data| - at
  {
    if at >= |data| then None else if data[at] == 0 then Some(at) else FindNul(data, at + 1)
  }

  function Text(s: Bytes): string {
    seq(|s|, i requires 0 <= i < |s| => s[i] as char)
  }

  /** Inflates `count` CFDATA blocks starting at `off`; each block is inflated on its own. */
  function DecodeBlocks(c: Codec, data: Bytes, off: nat, count: nat): Option<Bytes>
    decreases count
  {
    if count == 0 then Some([])
    else if off + CF_DATA_HEADER_LEN > |data| then None
    else
      var cbData, cbUncomp := U16(data, off + 4), U16(data, off + 6);
      var next := off + CF_DATA_HEADER_LEN + cbData;
      if next > |data| || cbData < 2 then None
      else
        var block := data[off + CF_DATA_HEADER_LEN..next];
        if block[..2] != MSZIP_SIGNATURE then None
        else
          var raw := c.inflate(block[2..]);
          if raw.None? || |raw.value| < cbUncomp then None
          else
            var rest := DecodeBlocks(c, data, next, count - 1);
            if rest.None? then None else Some(raw.value[..cbUncomp] + rest.value)
  }

  function Decode(c: Codec, data: Bytes): Option<Extracted> {
    if |data| < COFF_FILES then None
    else if U16(data, 42) != COMPRESSION_MSZIP then None
    else
      var coffFiles := U32(data, 16);
      var nameStart := coffFiles + CF_FILE_FIXED_SIZE;
      if nameStart > |data| then None
      else
        var nul := FindNul(data, nameStart);
        if nul.None? then None
        else
          var payload := DecodeBlocks(c, data, U32(data, 36), U16(data, 40));
          if payload.None? || U32(data, coffFiles) != |payload.value| then None
          else Some(Extracted(Text(data[nameStart..nul.value]), payload.value))
  }

  // ---- the round trip ----

  lemma {:induction false} FindNulSkips(data: Bytes, at: nat, end: nat)
    requires at <= end < |data| && data[end] == 0
    requires forall i :: at <= i < end ==> data[i] != 0
    ensures FindNul(data, at) == Some(end)
    decreases end - at
  {
    if at < end {
      FindNulSkips(data, at + 1, end);
    }
  }

  lemma TextOfNameBytes(name: string)
    requires ValidName(name)
    ensures Text(NameBytes(name)) == name
  {
  }

  /** The bytes `b` sit in `file` at offset `off`. */
  ghost predicate At(file: Bytes, off: nat, b: Bytes) {
    off + |b| <= |file| && file[off..off + |b|] == b
  }

  lemma SplitAt(file: Bytes, off: nat, b: Bytes, tail: Bytes)
    requires At(file, off, b + tail)
    ensures At(file, off, b) && At(file, off + |b|, tail)
  {
    SubSlice(file, off, b + tail, 0, |b|);
    SubSlice(file, off, b + tail, |b|, |b| + |tail|);
  }

  lemma DataBlockParts(c: Codec, chunk: Chunk)
    ensures var b, p := DataBlock(c, chunk), Payload(c, chunk);
            b[4..6] == LE16(|p|) && b[6..8] == LE16(|chunk|) && b[8..8 + |p|] == p
  {
  }

  /** The header fields and the payload of a CFDATA block, wherever it sits. */
  lemma BlockReads(c: Codec, file: Bytes, off: nat, b: Bytes, chunk: Chunk)
    requires b == DataBlock(c, chunk)
    requires At(file, off, b)
    ensures |b| == 8 + |Payload(c, chunk)|
    ensures U16(file, off + 4) == |Payload(c, chunk)|
    ensures U16(file, off + 6) == |chunk|
    ensures file[off + 8..off + 8 + |Payload(c, chunk)|] == Payload(c, chunk)
  {
    hide DataBlock, Payload, LE16, U16;
    var p := |Payload(c, chunk)|;
    DataBlockParts(c, chunk);
    SubSlice(file, off, b, 4, 6);
    SubSlice(file, off, b, 6, 8);
    SubSlice(file, off, b, 8, 8 + p);
    FieldReads16(file, off + 4, p);
    FieldReads16(file, off + 6, |chunk|);
  }

  /** One decoding step consumes one block and yields its chunk, using no other block. */
  lemma DecodeStep(c: Codec, file: Bytes, off: nat, p: Bytes, chunk: Bytes, count: nat)
    requires off + 8 + |p| <= |file| && file[off + 8..off + 8 + |p|] == p
    requires U16(file, off + 4) == |p| && U16(file, off + 6) == |chunk|
    requires |p| >= 2 && p[..2] == MSZIP_SIGNATURE && c.inflate(p[2..]) == Some(chunk)
    ensures var rest := DecodeBlocks(c, file, off + 8 + |p|, count);
            DecodeBlocks(c, file, off, count + 1) == if rest.None? then None else Some(chunk + rest.value)
  {
    assert chunk[..|chunk|] == chunk;
  }

  lemma BlockDecodes(c: Codec, file: Bytes, off: nat, b: Bytes, chunk: Chunk, count: nat)
    requires ValidCodec(c) && b == DataBlock(c, chunk) && At(file, off, b)
    ensures var rest := DecodeBlocks(c, file, off + |b|, count);
            DecodeBlocks(c, file, off, count + 1) == if rest.None? then None else Some(chunk + rest.value)
  {
    hide DataBlock, Payload, DecodeBlocks, ValidCodec, U16;
    BlockReads(c, file, off, b, chunk);
    PayloadInflates(c, chunk);
    DecodeStep(c, file, off, Payload(c, chunk), chunk, count);
  }

  lemma EmitParts(c: Codec, chunks: seq<Chunk>)
    requires chunks != []
    ensures Emit(c, chunks) == DataBlock(c, chunks[0]) + Emit(c, chunks[1..])
    ensures Flatten(chunks) == chunks[0] + Flatten(chunks[1..])
  {
  }

  lemma NothingEmitted(c: Codec, file: Bytes, off: nat)
    ensures DecodeBlocks(c, file, off, 0) == Some(Flatten([]))
  {
  }

  /** Emitted chunks decode to their concatenation, wherever they sit in a file. */
  lemma {:induction false} EmitDecodes(c: Codec, file: Bytes, off: nat, chunks: seq<Chunk>)
    requires ValidCodec(c) && At(file, off, Emit(c, chunks))
    ensures DecodeBlocks(c, file, off, |chunks|) == Some(Flatten(chunks))
    decreases |chunks|
  {
    hide DataBlock, ValidCodec, Emit, Flatten, DecodeBlocks, At;
    if chunks == [] {
      NothingEmitted(c, file, off);
    } else {
      var x, rest := chunks[0], chunks[1..];
      var b, tail := DataBlock(c, x), Emit(c, rest);
      EmitParts(c, chunks);
      SplitAt(file, off, b, tail);
      EmitDecodes(c, file, off + |b|, rest);
      BlockDecodes(c, file, off, b, x, |rest|);
    }
  }

  /** What the fixed structures of a cabinet say, field by field. */
  lemma PreambleReads(name: string, size: nat, total: nat, blocks: nat, post: Bytes)
    requires ValidName(name) && size <= MAX_U32 && total <= MAX_U32 && blocks <= MAX_U16
    requires FirstData(name) <= MAX_U32
    ensures var s := Preamble(name, size, total, blocks) + post;
            && s[..4] == HEADER_SIGNATURE
            && U32(s, OFF_CB_CABINET) == total
            && U32(s, 16) == COFF_FILES
            && U32(s, 36) == FirstData(name)
            && U16(s, OFF_C_CFDATA) == blocks
            && U16(s, 42) == COMPRESSION_MSZIP
            && U32(s, COFF_FILES) == size
            && s[60..60 + |name|] == NameBytes(name)
            && s[60 + |name|] == 0
  {
    hide Header, Folder, FileEntry, LE16, LE32, U16, U32;
    var s := Preamble(name, size, total, blocks) + post;
    var h, f, e := Header(total), Folder(FirstData(name), blocks), FileEntry(size, NameBytes(name));
    StructureFields(total, FirstData(name), blocks, size, NameBytes(name));
    assert s[0..36] == h && s[36..44] == f && s[44..44 + |e|] == e;
    SubSlice(s, 0, h, 0, 4);
    SubSlice(s, 0, h, 8, 12);
    SubSlice(s, 0, h, 16, 20);
    SubSlice(s, 36, f, 0, 4);
    SubSlice(s, 36, f, 4, 6);
    SubSlice(s, 36, f, 6, 8);
    SubSlice(s, 44, e, 0, 4);
    SubSlice(s, 44, e, 16, 16 + |name|);
    FieldReads32(s, 8, total);
    FieldReads32(s, 16, COFF_FILES);
    FieldReads32(s, 36, FirstData(name));
    FieldReads16(s, 40, blocks);
    FieldReads16(s, 42, COMPRESSION_MSZIP);
    FieldReads32(s, 44, size);
  }

  lemma StructureFields(total: nat, first: nat, blocks: nat, size: nat, name: Bytes)
    ensures var h := Header(total);
            h[0..4] == HEADER_SIGNATURE && h[8..12] == LE32(total) && h[16..20] == LE32(COFF_FILES)
    ensures var f := Folder(first, blocks);
            f[0..4] == LE32(first) && f[4..6] == LE16(blocks) && f[6..8] == LE16(COMPRESSION_MSZIP)
    ensures var e := FileEntry(size, name);
            e[0..4] == LE32(size) && e[16..16 + |name|] == name && e[16 + |name|] == 0
  {
  }

  lemma NameReads(file: Bytes, at: nat, name: string)
    requires ValidName(name) && at + |name| < |file|
    requires file[at..at + |name|] == NameBytes(name) && file[at + |name|] == 0
    ensures FindNul(file, at) == Some(at + |name|)
    ensures Text(file[at..at + |name|]) == name
  {
    forall i | at <= i < at + |name| ensures file[i] != 0 {
      assert file[i] == file[at..at + |name|][i - at];
    }
    FindNulSkips(file, at, at + |name|);
    TextOfNameBytes(name);
  }

  /**
    The round trip, together with what the three length fields record. The bound on the
    name is the one the code leaves implicit when it narrows the total to 32 bits.
  */
  lemma RoundTrip(c: Codec, name: string, data: Bytes)
    requires ValidCodec(c) && ValidName(name) && |name| <= MAX_NAME && |data| <= MAX_FOLDER
    ensures var cabinet := Cabinet(c, name, data);
            && Decode(c, cabinet) == Some(Extracted(name, data))
            && cabinet[..4] == HEADER_SIGNATURE
            && U32(cabinet, OFF_CB_CABINET) == |cabinet|
            && U16(cabinet, OFF_C_CFDATA) == BlockCount(|data|)
            && U32(cabinet, COFF_FILES) == |data|
  {
    hide Preamble, Emit, Chunks, ValidCodec, DecodeBlocks, NameBytes, Text, FindNul, U16, U32, MAX_NAME;
    var n := BlockCount(|data|);
    var total := CabinetSize(c, name, data);
    var pre := Preamble(name, |data|, total, n);
    var cabinet := Cabinet(c, name, data);
    NoTruncation(c, name, data);
    PreambleReads(name, |data|, total, n, Emit(c, Chunks(data)));
    ChunksExact(data);
    EmitDecodes(c, cabinet, |pre|, Chunks(data));
    NameReads(cabinet, 60, name);
  }

  // ---- the codec assumption is not vacuous ----

  /** The compressor that only ever stores: its output never shrinks. */
  function StoredCodec(): Codec {
    Codec(data => if |data| <= MAX_U16 then StoredBlock(data) else [], s => InflateStored(s))
  }

  /** A codec that expands: it appends junk, so `Payload` always falls back to a stored block. */
  function PaddedCodec(): Codec {
    Codec(data => if |data| <= MAX_U16 then StoredBlock(data) + [0] else [], s => InflateStored(s))
  }

  lemma StoredAndMore(data: Bytes, junk: Bytes)
    requires |data| <= MAX_U16
    ensures InflateStored(StoredBlock(data) + junk) == Some(data)
  {
    StoredRoundTrip(data);
    var s := StoredBlock(data);
    assert (s + junk)[..|s|] == s;
    assert (s + junk)[STORED_HEADER_LEN..|s|] == s[STORED_HEADER_LEN..|s|];
  }

  lemma StoredCodecValid()
    ensures ValidCodec(StoredCodec())
  {
    forall data: Bytes | |data| <= MAX_BLOCK
      ensures StoredCodec().inflate(StoredCodec().deflate(data)) == Some(data)
    {
      StoredRoundTrip(data);
    }
  }

  lemma PaddedCodecValid()
    ensures ValidCodec(PaddedCodec())
  {
    forall data: Bytes | |data| <= MAX_BLOCK
      ensures PaddedCodec().inflate(PaddedCodec().deflate(data)) == Some(data)
    {
      StoredAndMore(data, [0]);
    }
  }

  /** There are compressors that satisfy the assumption: one whose output is used, and one whose output is too long. */
  lemma CodecsExist(chunk: Chunk)
    ensures ValidCodec(StoredCodec()) && ValidCodec(PaddedCodec())
    ensures |StoredCodec().deflate(chunk)| <= STORED_HEADER_LEN + |chunk|
    ensures Payload(StoredCodec(), chunk) == MSZIP_SIGNATURE + StoredCodec().deflate(chunk)
    ensures |PaddedCodec().deflate(chunk)| > STORED_HEADER_LEN + |chunk|
    ensures Payload(PaddedCodec(), chunk) == MSZIP_SIGNATURE + StoredBlock(chunk) != MSZIP_SIGNATURE + PaddedCodec().deflate(chunk)
  {
    StoredCodecValid();
    PaddedCodecValid();
    hide ValidCodec;
  }

  // ---- how long a name may be ----

  /** With the stored codec every block is as long as a block can be. */
  lemma {:induction false} StoredEmitSize(chunks: seq<Chunk>)
    ensures |Emit(StoredCodec(), chunks)| == 15 * |chunks| + |Flatten(chunks)|
  {
    if chunks != [] {
      StoredEmitSize(chunks[1..]);
    }
  }

  predicate HeaderTellsSize(c: Codec, name: string, data: Bytes)
    requires ValidName(name)
  {
    var cabinet := Cabinet(c, name, data);
    |cabinet| >= 12 && U32(cabinet, OFF_CB_CABINET) == |cabinet|
  }

  lemma FullFolder(name: string, data: Bytes)
    requires ValidName(name) && |data| == MAX_FOLDER
    ensures CabinetSize(StoredCodec(), name, data) == 61 + |name| + MAX_BLOCKS * 32783
  {
    hide Emit, Chunks, Flatten, StoredCodec;
    ChunksExact(data);
    StoredEmitSize(Chunks(data));
    assert BlockCount(MAX_FOLDER) == MAX_BLOCKS;
  }

  /** `cbCabinet` is true for every compressor and payload exactly up to the bound on the name; the code leaves it implicit. */
  lemma NameBoundExact(name: string)
    requires ValidName(name)
    ensures (forall c: Codec, data: Bytes :: ValidCodec(c) && |data| <= MAX_FOLDER ==> HeaderTellsSize(c, name, data))
            <==> |name| <= MAX_NAME
  {
    if |name| <= MAX_NAME {
      forall c: Codec, data: Bytes | ValidCodec(c) && |data| <= MAX_FOLDER ensures HeaderTellsSize(c, name, data) {
        hide ValidCodec, Cabinet, Decode, U32, U16, MAX_NAME;
        RoundTrip(c, name, data);
      }
    } else {
      hide ValidCodec, StoredCodec, Cabinet, Emit, Chunks;
      var data: Bytes := seq(MAX_FOLDER, _ => 0);
      FullFolder(name, data);
      StoredCodecValid();
      assert !HeaderTellsSize(StoredCodec(), name, data);
    }
  }
}
