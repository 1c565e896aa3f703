/**
  The streaming cabinet writer: fixed structures with placeholders first, then one
  CFDATA block per 32 KiB chunk, then two fields patched by seeking back.
*/
module CabWriter {
  import opened Prelude
  import opened Streams
  import opened CabFormat

  datatype CabError = FileTooLarge | BadName | SizeMismatch | ReadFailed | SinkFailed

  // ---- what Write does, as functions of its inputs ----

  /** The bytes the block loop accepts: a tail cut off by an error wrapping `io.EOF` is dropped. */
  function Delivered(data: Bytes, end: ReadEnd): Bytes {
    if end == WrappedEnd then data[..|data| - |data| % 32768] else data
  }

  function BodyError(data: Bytes, end: ReadEnd, size: nat): Option<CabError> {
    if |data| / 32768 > MAX_BLOCKS then Some(FileTooLarge)
    else if end == ReadFault then Some(ReadFailed)
    else if |Delivered(data, end)| > MAX_FOLDER then Some(FileTooLarge)
    else if |Delivered(data, end)| != size then Some(SizeMismatch)
    else None
  }

  function WriteError(name: string, size: int, data: Bytes, end: ReadEnd): Option<CabError> {
    if size < 0 || size > MAX_FOLDER then Some(FileTooLarge)
    else if !ValidName(name) then Some(BadName)
    else BodyError(data, end, size)
  }

  /** The bytes left after back-patching, when writing began at `pos` of a buffer `b`. */
  function Written(c: Codec, name: string, data: Bytes, b: Bytes, pos: nat): Bytes
    requires ValidName(name)
  {
    Patched(Overwrite(b, pos, Preamble(name, |data|, 0, 0) + Emit(c, Chunks(data))),
            CabinetSize(c, name, data), BlockCount(|data|))
  }

  function Patched(b: Bytes, total: nat, blocks: nat): Bytes {
    Overwrite(Overwrite(b, OFF_CB_CABINET, LE32(total)), OFF_C_CFDATA, LE16(blocks))
  }

  /** On a healthy sink, `Write` succeeds exactly when the name, the size and the reader are in order. */
  lemma SucceedsExactly(name: string, size: int, data: Bytes, end: ReadEnd)
    ensures WriteError(name, size, data, end).None? <==>
              && ValidName(name)
              && 0 <= size <= 65535 * 32768
              && end != ReadFault
              && |Delivered(data, end)| == size
    ensures end != WrappedEnd || |data| % 32768 == 0 ==> Delivered(data, end) == data
  {
    assert |data| / 32768 > MAX_BLOCKS ==> |Delivered(data, end)| > MAX_FOLDER;
    assert data[..|data|] == data;
  }

  /**
    The size check promises that the reader yielded exactly `size` bytes. It holds unless the
    reader ends, in the middle of a chunk, with an error wrapping `io.EOF`: the partial chunk
    is then dropped, and a declared size that matches the remainder is accepted.
  */
  lemma SizeCheckExact(name: string, data: Bytes, end: ReadEnd)
    requires ValidName(name)
    ensures (forall size: int :: WriteError(name, size, data, end).None? ==> size == |data|)
            <==> !(end == WrappedEnd && |data| % 32768 != 0 && |data| < 65536 * 32768)
  {
    var d := |Delivered(data, end)|;
    forall size: int ensures WriteError(name, size, data, end).None? ==> size == d {
      SucceedsExactly(name, size, data, end);
    }
    SucceedsExactly(name, d, data, end);
    if end == WrappedEnd && |data| % 32768 != 0 && |data| < 65536 * 32768 {
      assert d <= 65535 * 32768;
      assert WriteError(name, d, data, end).None? && d != |data|;
    } else {
      forall size: int | WriteError(name, size, data, end).None? ensures size == |data| {
        SucceedsExactly(name, size, data, end);
      }
    }
  }

  lemma TruncatedTailAccepted(name: string)
    requires ValidName(name)
    ensures WriteError(name, 0, [7], WrappedEnd).None?
  {
  }

  /** From an empty output, back-patching turns the draft into the finished cabinet. */
  lemma FreshOutput(c: Codec, name: string, data: Bytes)
    requires ValidName(name)
    ensures Written(c, name, data, [], 0) == Cabinet(c, name, data)
  {
    var total, n := CabinetSize(c, name, data), BlockCount(|data|);
    var rest := FileEntry(|data|, NameBytes(name)) + Emit(c, Chunks(data));
    PatchHeader(total);
    PatchFolder(FirstData(name), n);
    PatchTwoFields(Header(0), Header(total), Folder(FirstData(name), 0), Folder(FirstData(name), n), rest,
                   LE32(total), LE16(n));
    DraftParts(c, name, data, 0, 0, rest);
    DraftParts(c, name, data, total, n, rest);
    OverwriteEmpty(Preamble(name, |data|, 0, 0) + Emit(c, Chunks(data)));
  }

  lemma DraftParts(c: Codec, name: string, data: Bytes, total: nat, n: nat, rest: Bytes)
    requires ValidName(name)
    requires rest == FileEntry(|data|, NameBytes(name)) + Emit(c, Chunks(data))
    ensures Preamble(name, |data|, total, n) + Emit(c, Chunks(data))
            == Header(total) + Folder(FirstData(name), n) + rest
  {
    Regroup(Header(total), Folder(FirstData(name), n), FileEntry(|data|, NameBytes(name)), Emit(c, Chunks(data)));
  }

  lemma Regroup(h: Bytes, f: Bytes, e: Bytes, tail: Bytes)
    ensures h + f + e + tail == h + f + (e + tail)
  {
  }

  lemma OverwriteEmpty(p: Bytes)
    ensures Overwrite([], 0, p) == p
  {
  }

  lemma PatchTwoFields(h0: Bytes, h1: Bytes, f0: Bytes, f1: Bytes, rest: Bytes, p: Bytes, q: Bytes)
    requires |h0| == 36 && |f0| == 8 && |p| == 4 && |q| == 2
    requires Overwrite(h0, 8, p) == h1 && Overwrite(f0, 4, q) == f1
    ensures Overwrite(Overwrite(h0 + f0 + rest, 8, p), 40, q) == h1 + f1 + rest
  {
    OverwriteInside([], h0, f0 + rest, 8, p);
    assert [] + h0 + (f0 + rest) == h0 + f0 + rest;
    assert [] + h1 + (f0 + rest) == h1 + f0 + rest;
    OverwriteInside(h1, f0, rest, 4, q);
  }

  lemma PatchHeader(total: nat)
    ensures Overwrite(Header(0), 8, LE32(total)) == Header(total)
  {
  }

  lemma PatchFolder(first: nat, n: nat)
    ensures Overwrite(Folder(first, 0), 4, LE16(n)) == Folder(first, n)
  {
  }

  lemma OverwriteInside(pre: Bytes, mid: Bytes, post: Bytes, at: nat, p: Bytes)
    requires at + |p| <= |mid|
    ensures Overwrite(pre + mid + post, |pre| + at, p) == pre + Overwrite(mid, at, p) + post
  {
  }

  /** Over a longer old file the cabinet keeps stale bytes: `cbCabinet` is the file length iff none were left. */
  lemma StaleTail(c: Codec, name: string, data: Bytes, b: Bytes)
    requires ValidName(name)
    ensures CabinetSize(c, name, data) == |Written(c, name, data, b, 0)| <==> |b| <= CabinetSize(c, name, data)
  {
  }

  // ---- the implementation ----

  method PutU16(h: array<Byte>, at: nat, x: nat)
    requires at + 2 <= h.Length
    modifies h
    ensures h[at..at + 2] == LE16(x)
    ensures forall i :: 0 <= i < at || at + 2 <= i < h.Length ==> h[i] == old(h[i])
  {
    h[at], h[at + 1] := x % 256, x / 256 % 256;
  }

  method PutU32(h: array<Byte>, at: nat, x: nat)
    requires at + 4 <= h.Length
    modifies h
    ensures h[at..at + 4] == LE32(x)
    ensures forall i :: 0 <= i < at || at + 4 <= i < h.Length ==> h[i] == old(h[i])
  {
    h[at], h[at + 1] := x % 256, x / 256 % 256;
    h[at + 2], h[at + 3] := x / 65536 % 256, x / 16777216 % 256;
  }

  /** A writer with one sticky error, so that a fixed layout can be written without checks in between. */
  class ErrWriter {
    const w: Sink
    var err: bool

    constructor (w: Sink)
      ensures this.w == w && !err
    {
      this.w, err := w, false;
    }

    /** The effect of writing `p`, in one or several calls. */
    twostate predicate Wrote(p: Bytes)
      reads this, w
    {
      && (old(err) ==> err)
      && (!err ==> w.buf == Overwrite(old(w.buf), old(w.pos), p) && w.pos == old(w.pos) + |p|)
      && (old(w.Healthy()) && !old(err) ==> !err && w.Healthy())
    }

    method Write(p: Bytes)
      modifies this, w
      ensures Wrote(p)
    {
      if err {
        return;
      }
      var ok := w.Write(p);
      err := !ok;
    }
  }

  /** Validates a name byte by byte and terminates it with a zero. */
  method EncodeName(name: string) returns (out: Option<Bytes>)
    ensures out == if ValidName(name) then Some(NameBytes(name) + [0]) else None
  {
    if name == "" {
      return None;
    }
    var bytes: Bytes := [];
    for i := 0 to |name|
      invariant |bytes| == i
      invariant forall j :: 0 <= j < i ==> ' ' <= name[j] <= '~' && bytes[j] == name[j] as int
    {
      if name[i] < ' ' || name[i] > '~' {
        return None;
      }
      bytes := bytes + [name[i] as int];
    }
    assert bytes == NameBytes(name);
    return Some(bytes + [0]);
  }

  method WriteHeader(w: ErrWriter, coffFiles: nat)
    requires coffFiles == COFF_FILES
    modifies w, w.w
    ensures w.Wrote(Header(0))
  {
    hide LE16, LE32, Overwrite, Header;
    var h := new Byte[36](_ => 0);
    h[0], h[1], h[2], h[3] := HEADER_SIGNATURE[0], HEADER_SIGNATURE[1], HEADER_SIGNATURE[2], HEADER_SIGNATURE[3];
    PutU32(h, 16, coffFiles);
    h[24], h[25] := 3, 1;
    PutU16(h, 26, 1);
    PutU16(h, 28, 1);
    var s := h[..];
    assert s[..4] == HEADER_SIGNATURE && s[24..26] == [3, 1];
    assert s[16..20] == LE32(coffFiles) && s[26..28] == LE16(1) && s[28..30] == LE16(1);
    HeaderParts(s);
    w.Write(s);
  }

  lemma HeaderParts(h: Bytes)
    requires |h| == 36 && h[..4] == HEADER_SIGNATURE && h[16..20] == LE32(COFF_FILES)
    requires h[24..26] == [3, 1] && h[26..28] == LE16(1) && h[28..30] == LE16(1)
    requires forall i :: 4 <= i < 16 || 20 <= i < 24 || 30 <= i < 36 ==> h[i] == 0
    ensures h == Header(0)
  {
    assert h == h[..4] + h[4..8] + h[8..12] + h[12..16] + h[16..20] + h[20..24]
                + h[24..26] + h[26..28] + h[28..30] + h[30..32] + h[32..34] + h[34..36];
  }

  method WriteFolder(w: ErrWriter, firstData: nat)
    modifies w, w.w
    ensures w.Wrote(Folder(firstData, 0))
  {
    var f := new Byte[8](_ => 0);
    PutU32(f, 0, firstData);
    PutU16(f, 6, COMPRESSION_MSZIP);
    assert f[0..4] == LE32(firstData) && f[6..8] == LE16(COMPRESSION_MSZIP) && f[4..6] == LE16(0);
    assert f[..] == f[0..4] + f[4..6] + f[6..8];
    assert f[..] == Folder(firstData, 0);
    w.Write(f[..]);
  }

  method WriteFile(w: ErrWriter, size: nat, name: Bytes, ghost bare: Bytes)
    requires name == bare + [0]
    modifies w, w.w
    ensures w.Wrote(FileEntry(size, bare))
  {
    hide LE16, LE32, Overwrite, FileEntry;
    var f := new Byte[CF_FILE_FIXED_SIZE + |name|](_ => 0);
    PutU32(f, 0, size);
    PutU16(f, 10, DOS_DATE);
    PutU16(f, 12, DOS_TIME);
    PutU16(f, 14, ATTRIB_ARCHIVE);
    forall i | 0 <= i < |name| {
      f[16 + i] := name[i];
    }
    var s := f[..];
    assert s[..4] == LE32(size) && s[10..12] == LE16(DOS_DATE) && s[12..14] == LE16(DOS_TIME);
    assert s[14..16] == LE16(ATTRIB_ARCHIVE) && s[16..] == name;
    FileEntryParts(s, size, name, bare);
    w.Write(s);
  }

  lemma FileEntryParts(f: Bytes, size: nat, name: Bytes, bare: Bytes)
    requires name == bare + [0] && |f| == 16 + |name|
    requires f[..4] == LE32(size) && f[10..12] == LE16(DOS_DATE) && f[12..14] == LE16(DOS_TIME)
    requires f[14..16] == LE16(ATTRIB_ARCHIVE) && f[16..] == name
    requires forall i :: 4 <= i < 10 ==> f[i] == 0
    ensures f == FileEntry(size, bare)
  {
    assert f == f[..4] + f[4..8] + f[8..10] + f[10..12] + f[12..14] + f[14..16] + f[16..];
  }

  /** The compressor with its two reused buffers. */
  class MszipWriter {
    const codec: Codec
    var sink: Bytes
    var out: Bytes

    constructor (codec: Codec)
      ensures this.codec == codec
    {
      this.codec, sink, out := codec, [], [];
    }

    /** The payload depends on the chunk alone, whatever earlier calls left in the buffers. */
    method Block(data: Chunk) returns (payload: Bytes)
      modifies this
      ensures payload == Payload(codec, data)
    {
      sink := [];
      sink := sink + codec.deflate(data);
      out := [];
      out := out + MSZIP_SIGNATURE;
      if |sink| > STORED_HEADER_LEN + |data| {
        WriteStored(data);
      } else {
        out := out + sink;
      }
      return out;
    }

    method WriteStored(data: Chunk)
      modifies this`out
      ensures out == old(out) + StoredBlock(data)
    {
      out := out + [STORED_FINAL_BYTE];
      var lens := new Byte[4](_ => 0);
      PutU16(lens, 0, |data|);
      PutU16(lens, 2, MAX_U16 - |data|);
      assert lens[0..2] == LE16(|data|) && lens[..] == lens[0..2] + lens[2..4];
      out := out + lens[..];
      out := out + data;
    }
  }

  /** One chunk of input; `io.EOF` in any wrapping counts as a clean end with nothing read. */
  method ReadChunk(r: Reader, buf: array<Byte>) returns (n: nat, eof: bool, failed: bool)
    requires buf.Length == MAX_BLOCK
    modifies r`rest, r`plan, buf
    ensures var have := |old(r.rest)|;
            && failed == (have < MAX_BLOCK && r.end == ReadFault)
            && (!failed ==>
                  && eof == (have < MAX_BLOCK)
                  && n == (if have >= MAX_BLOCK then MAX_BLOCK else if r.end == WrappedEnd then 0 else have)
                  && buf[..n] == old(r.rest)[..n]
                  && (!eof ==> r.rest == old(r.rest)[n..]))
  {
    var k, err := ReadFull(r, buf);
    match err
    case None => return k, false, false;
    case Some(EndOfFile) | Some(WrappedEnd) => return 0, true, false;
    case Some(UnexpectedEnd) => return k, true, false;
    case Some(ReadFault) => return 0, false, true;
  }

  lemma {:induction false} FlattenFull(cs: seq<Chunk>)
    requires AllFull(cs)
    ensures |Flatten(cs)| == 32768 * |cs|
  {
    if cs != [] {
      FlattenFull(cs[1..]);
    }
  }

  lemma DivMod(n: nat, k: nat, r: nat)
    requires n == 32768 * k + r && r < 32768
    ensures n / 32768 == k && n % 32768 == r
  {
  }

  /** When the input ends after `cs` full chunks, the blocks written are the chunks of what was delivered. */
  lemma InputEnds(cs: seq<Chunk>, all: Bytes, rest: Bytes, last: Chunk, end: ReadEnd)
    requires AllFull(cs) && all == Flatten(cs) + rest && |rest| < MAX_BLOCK
    requires last == if end == WrappedEnd then [] else rest
    ensures Delivered(all, end) == Flatten(cs) + last
    ensures Chunks(Delivered(all, end)) == if last != [] || cs == [] then cs + [last] else cs
  {
    FlattenFull(cs);
    DivMod(|all|, |cs|, |rest|);
    assert all[..|all| - |rest|] == Flatten(cs) == Flatten(cs) + [];
    assert Delivered(all, end) == Flatten(cs) + last;
    hide Delivered, Chunks, Flatten;
    if last != [] || cs == [] {
      ChunksUnique(cs, last);
    } else {
      var init, x := cs[..|cs| - 1], cs[|cs| - 1];
      ChunksUnique(init, x);
      FlattenSnoc(init, x);
      assert init + [x] == cs;
    }
  }

  /** The verdict at the end of the input, once the number of blocks is known to be in range. */
  lemma EndVerdict(cs: seq<Chunk>, all: Bytes, rest: Bytes, end: ReadEnd, size: nat)
    requires AllFull(cs) && all == Flatten(cs) + rest && |rest| < MAX_BLOCK && end != ReadFault
    requires |cs| < MAX_BLOCKS || (|cs| == MAX_BLOCKS && (rest == [] || end == WrappedEnd))
    ensures BodyError(all, end, size) == if |Delivered(all, end)| == size then None else Some(SizeMismatch)
  {
    FlattenFull(cs);
    DivMod(|all|, |cs|, |rest|);
  }

  lemma Consume(cs: seq<Chunk>, rest: Bytes, n: nat)
    requires n <= |rest| && n <= MAX_BLOCK
    ensures Flatten(cs + [rest[..n]]) == Flatten(cs) + rest[..n]
    ensures Flatten(cs + [rest[..n]]) + rest[n..] == Flatten(cs) + rest
  {
    FlattenSnoc(cs, rest[..n]);
    assert rest[..n] + rest[n..] == rest;
    assert Flatten(cs) + rest[..n] + rest[n..] == Flatten(cs) + (rest[..n] + rest[n..]);
  }

  /** A fault, or a block too many, after `cs` full chunks: which error the contract names. */
  lemma InputRefused(cs: seq<Chunk>, all: Bytes, rest: Bytes, end: ReadEnd, size: nat)
    requires AllFull(cs) && |cs| <= MAX_BLOCKS && all == Flatten(cs) + rest
    ensures |rest| < MAX_BLOCK && end == ReadFault ==> BodyError(all, end, size) == Some(ReadFailed)
    ensures |cs| == MAX_BLOCKS && rest != [] && (|rest| >= MAX_BLOCK || (end != WrappedEnd && end != ReadFault))
            ==> BodyError(all, end, size) == Some(FileTooLarge)
  {
    FlattenFull(cs);
    if |rest| < MAX_BLOCK {
      DivMod(|all|, |cs|, |rest|);
    }
  }

  /** What one turn of the block loop may conclude from the chunk it has read. */
  lemma ChunkVerdict(cs: seq<Chunk>, all: Bytes, rest: Bytes, end: ReadEnd, size: nat, eof: bool, failed: bool, chunk: Chunk)
    requires AllFull(cs) && |cs| <= MAX_BLOCKS && all == Flatten(cs) + rest
    requires failed == (|rest| < MAX_BLOCK && end == ReadFault)
    requires !failed ==> eof == (|rest| < MAX_BLOCK)
                         && chunk == (if |rest| >= MAX_BLOCK then rest[..MAX_BLOCK] else if end == WrappedEnd then [] else rest)
    ensures failed ==> BodyError(all, end, size) == Some(ReadFailed)
    ensures !failed && !eof ==> AllFull(cs + [chunk]) && all == Flatten(cs + [chunk]) + rest[|chunk|..]
    ensures !failed ==> |Flatten(cs + [chunk])| == |Flatten(cs)| + |chunk|
    ensures !failed && |cs| == MAX_BLOCKS && chunk != [] ==> BodyError(all, end, size) == Some(FileTooLarge)
    ensures !failed && eof && !(|cs| == MAX_BLOCKS && chunk != []) ==>
              && BodyError(all, end, size) == (if |Flatten(cs)| + |chunk| == size then None else Some(SizeMismatch))
              && Chunks(Delivered(all, end)) == if chunk != [] || cs == [] then cs + [chunk] else cs
  {
    hide BodyError, Chunks, Delivered, Flatten;
    InputRefused(cs, all, rest, end, size);
    if !failed {
      FlattenSnoc(cs, chunk);
      if eof {
        InputEnds(cs, all, rest, chunk, end);
        if |cs| < MAX_BLOCKS || chunk == [] {
          EndVerdict(cs, all, rest, end, size);
        }
      } else {
        Consume(cs, rest, MAX_BLOCK);
      }
    }
  }

  /** The sink after the blocks `cs` have been written from `pos0` of `buf0` on. */
  ghost predicate BlocksOut(c: Codec, cs: seq<Chunk>, buf0: Bytes, pos0: nat, buf: Bytes, pos: nat) {
    && pos == pos0 + |Emit(c, cs)|
    && buf == if cs == [] then buf0 else Overwrite(buf0, pos0, Emit(c, cs))
  }

  lemma OneMoreBlock(c: Codec, cs: seq<Chunk>, x: Chunk, buf0: Bytes, pos0: nat, buf: Bytes, pos: nat)
    requires BlocksOut(c, cs, buf0, pos0, buf, pos)
    ensures var b := DataBlock(c, x);
            && BlocksOut(c, cs + [x], buf0, pos0, Overwrite(buf, pos, b), pos + |b|)
            && |Emit(c, cs + [x])| == |Emit(c, cs)| + |b|
  {
    hide Overwrite, DataBlock;
    EmitSnoc(c, cs, x);
    OverwriteTwice(buf0, pos0, Emit(c, cs), DataBlock(c, x));
    assert [] + DataBlock(c, x) == DataBlock(c, x);
  }

  /** Writes one CFDATA block through the reused header buffer. */
  method WriteBlock(w: ErrWriter, hdr: array<Byte>, codec: Codec, chunk: Chunk, payload: Bytes)
    requires hdr.Length == CF_DATA_HEADER_LEN && payload == Payload(codec, chunk)
    modifies w, w.w, hdr
    ensures w.Wrote(DataBlock(codec, chunk))
  {
    hide Overwrite, Payload, LE16, LE32;
    PutU32(hdr, 0, 0);
    PutU16(hdr, 4, |payload|);
    PutU16(hdr, 6, |chunk|);
    assert hdr[0..4] == LE32(0) && hdr[4..6] == LE16(|payload|) && hdr[6..8] == LE16(|chunk|);
    assert hdr[..] == hdr[0..4] + hdr[4..6] + hdr[6..8];
    OverwriteTwice(w.w.buf, w.w.pos, hdr[..], payload);
    w.Write(hdr[..]);
    w.Write(payload);
  }

  /** The same, with the effect added to the blocks already out. */
  method AppendBlock(w: ErrWriter, hdr: array<Byte>, codec: Codec, chunk: Chunk, payload: Bytes,
                     ghost cs: seq<Chunk>, ghost buf0: Bytes, ghost pos0: nat)
    requires hdr.Length == CF_DATA_HEADER_LEN && payload == Payload(codec, chunk)
    requires !w.err && BlocksOut(codec, cs, buf0, pos0, w.w.buf, w.w.pos)
    modifies w, w.w, hdr
    ensures !w.err ==> BlocksOut(codec, cs + [chunk], buf0, pos0, w.w.buf, w.w.pos)
    ensures |Emit(codec, cs + [chunk])| == |Emit(codec, cs)| + CF_DATA_HEADER_LEN + |payload|
    ensures old(w.w.Healthy()) ==> !w.err && w.w.Healthy()
  {
    hide Overwrite, Payload, DataBlock, BlocksOut, Emit;
    OneMoreBlock(codec, cs, chunk, buf0, pos0, w.w.buf, w.w.pos);
    WriteBlock(w, hdr, codec, chunk, payload);
  }

  lemma SinkIsThere(c: Codec, cs: seq<Chunk>, buf0: Bytes, pos0: nat, buf: Bytes, pos: nat)
    requires BlocksOut(c, cs, buf0, pos0, buf, pos) && cs != []
    ensures buf == Overwrite(buf0, pos0, Emit(c, cs)) && pos == pos0 + |Emit(c, cs)|
  {
  }

  lemma SinkBefore(c: Codec, buf: Bytes, pos: nat)
    ensures BlocksOut(c, [], buf, pos, buf, pos) && Emit(c, []) == [] == Flatten([])
  {
  }

  datatype BodyResult = Failed(error: CabError) | Streamed(blocks: nat, total: nat)

  /** Compresses a chunk and writes its block, unless there are as many blocks as can be counted. */
  method EmitChunk(w: ErrWriter, mw: MszipWriter, hdr: array<Byte>, chunk: Chunk, blocks: nat,
                   ghost cs: seq<Chunk>, ghost buf0: Bytes, ghost pos0: nat)
    returns (error: Option<CabError>, length: nat)
    requires hdr.Length == CF_DATA_HEADER_LEN && blocks == |cs|
    requires !w.err && BlocksOut(mw.codec, cs, buf0, pos0, w.w.buf, w.w.pos)
    modifies w, w.w, hdr, mw
    ensures error == Some(FileTooLarge) <==> blocks == MAX_BLOCKS
    ensures error.Some? && blocks != MAX_BLOCKS ==> error.value == SinkFailed && !old(w.w.Healthy())
    ensures error.None? ==> !w.err && BlocksOut(mw.codec, cs + [chunk], buf0, pos0, w.w.buf, w.w.pos)
    ensures error.None? ==> |Emit(mw.codec, cs + [chunk])| == |Emit(mw.codec, cs)| + length
    ensures old(w.w.Healthy()) ==> w.w.Healthy()
  {
    hide BlocksOut, Emit, Payload, DataBlock;
    var payload := mw.Block(chunk);
    length := CF_DATA_HEADER_LEN + |payload|;
    if blocks == MAX_BLOCKS {
      return Some(FileTooLarge), length;
    }
    AppendBlock(w, hdr, mw.codec, chunk, payload, cs, buf0, pos0);
    error := if w.err then Some(SinkFailed) else None;
  }

  method StreamBody(w: ErrWriter, r: Reader, codec: Codec, firstData: nat, size: nat) returns (res: BodyResult)
    requires !w.err && size <= MAX_FOLDER
    modifies w, w.w, r`rest, r`plan
    ensures res.Failed? && res.error != SinkFailed ==> BodyError(old(r.rest), r.end, size) == Some(res.error)
    ensures res.Streamed? ==> BodyError(old(r.rest), r.end, size).None?
    ensures res.Streamed? ==> var cs := Chunks(Delivered(old(r.rest), r.end));
                              && res.blocks == |cs| <= MAX_BLOCKS
                              && res.total == firstData + |Emit(codec, cs)|
                              && !w.err && w.Wrote(Emit(codec, cs))
    ensures old(w.w.Healthy()) ==> w.w.Healthy() && (res.Failed? ==> res.error != SinkFailed)
  {
    hide Overwrite, DataBlock, Payload, Delivered, BodyError, Chunks, BlocksOut, Emit, Flatten;
    var mw := new MszipWriter(codec);
    var buf := new Byte[MAX_BLOCK](_ => 0);
    var hdr := new Byte[CF_DATA_HEADER_LEN](_ => 0);
    var blocks: nat, total, seen := 0, firstData, 0;
    ghost var all, buf0, pos0 := r.rest, w.w.buf, w.w.pos;
    ghost var cs: seq<Chunk> := [];
    SinkBefore(codec, buf0, pos0);
    while true
      invariant AllFull(cs) && blocks == |cs| <= MAX_BLOCKS
      invariant all == Flatten(cs) + r.rest && seen == |Flatten(cs)|
      invariant total == firstData + |Emit(codec, cs)|
      invariant !w.err && BlocksOut(codec, cs, buf0, pos0, w.w.buf, w.w.pos)
      invariant old(w.w.Healthy()) ==> w.w.Healthy()
      decreases |r.rest|
    {
      ghost var rest := r.rest;
      var n, eof, failed := ReadChunk(r, buf);
      var chunk: Chunk := if failed then [] else buf[..n];
      ChunkVerdict(cs, all, rest, r.end, size, eof, failed, chunk);
      if failed {
        return Failed(ReadFailed);
      }
      seen := seen + n;
      if n > 0 || blocks == 0 {
        var error, length := EmitChunk(w, mw, hdr, chunk, blocks, cs, buf0, pos0);
        if error.Some? {
          return Failed(error.value);
        }
        blocks, total, cs := blocks + 1, total + length, cs + [chunk];
      }
      if eof {
        break;
      }
    }
    SinkIsThere(codec, cs, buf0, pos0, w.w.buf, w.w.pos);
    if seen != size {
      return Failed(SizeMismatch);
    }
    return Streamed(blocks, total);
  }

  /** Back-fills the two fields only known after the body; leaves the position at the end. */
  method Patch(out: Sink, total: nat, blocks: nat) returns (ok: bool)
    modifies out
    ensures ok ==> out.buf == Patched(old(out.buf), total, blocks) && out.pos == |out.buf|
    ensures old(out.Healthy()) ==> ok && out.Healthy()
  {
    var b4 := new Byte[4](_ => 0);
    PutU32(b4, 0, total);
    assert b4[..] == LE32(total);
    ok := out.SeekStart(OFF_CB_CABINET);
    if !ok {
      return;
    }
    ok := out.Write(b4[..]);
    if !ok {
      return;
    }
    var b2 := new Byte[2](_ => 0);
    PutU16(b2, 0, blocks);
    assert b2[..] == LE16(blocks);
    ok := out.SeekStart(OFF_C_CFDATA);
    if !ok {
      return;
    }
    ok := out.Write(b2[..]);
    if !ok {
      return;
    }
    ok := out.SeekEnd();
  }

  /** The header, the folder and the file entry, with zeros for the two patched fields. */
  method WriteStructures(w: ErrWriter, name: string, size: nat, bytes: Bytes) returns (firstData: nat)
    requires ValidName(name) && bytes == NameBytes(name) + [0]
    modifies w, w.w
    ensures firstData == FirstData(name)
    ensures w.Wrote(Preamble(name, size, 0, 0))
  {
    var cffileSize := CF_FILE_FIXED_SIZE + |bytes|;
    var coffFiles := CF_HEADER_SIZE + CF_FOLDER_SIZE;
    firstData := coffFiles + cffileSize;
    ghost var h, f, e := Header(0), Folder(firstData, 0), FileEntry(size, NameBytes(name));
    OverwriteTwice(w.w.buf, w.w.pos, h, f);
    OverwriteTwice(w.w.buf, w.w.pos, h + f, e);
    WriteHeader(w, coffFiles);
    WriteFolder(w, firstData);
    WriteFile(w, size, bytes, NameBytes(name));
  }

  /**
    Wraps the reader's bytes in a cabinet. The outcome and the bytes written are functions of
    the declared size, the name and the delivered bytes; the reader's fragmentation is nowhere in them.
  */
  method Write(out: Sink, codec: Codec, name: string, size: int, r: Reader) returns (error: Option<CabError>)
    modifies out, r
    ensures old(out.Healthy()) ==> error == WriteError(name, size, old(r.rest), r.end) && out.Healthy()
    ensures error != Some(SinkFailed) ==> error == WriteError(name, size, old(r.rest), r.end)
    ensures error.None? ==>
              && out.buf == Written(codec, name, Delivered(old(r.rest), r.end), old(out.buf), old(out.pos))
              && out.pos == |out.buf|
    ensures error.None? && old(out.buf) == [] && old(out.pos) == 0 ==>
              out.buf == Cabinet(codec, name, Delivered(old(r.rest), r.end))
  {
    hide Overwrite, LE16, LE32, Preamble, Cabinet, Emit, Chunks;
    if size < 0 || size > MAX_FOLDER {
      return Some(FileTooLarge);
    }
    var encoded := EncodeName(name);
    if encoded.None? {
      return Some(BadName);
    }
    ghost var data := Delivered(r.rest, r.end);
    OverwriteTwice(out.buf, out.pos, Preamble(name, size, 0, 0), Emit(codec, Chunks(data)));
    FreshOutput(codec, name, data);
    ChunksExact(data);

    var w := new ErrWriter(out);
    var firstData := WriteStructures(w, name, size, encoded.value);
    if w.err {
      return Some(SinkFailed);
    }
    var body := StreamBody(w, r, codec, firstData, size);
    if body.Failed? {
      return Some(body.error);
    }
    DraftDone(codec, name, data, size, old(out.buf), old(out.pos), out.buf);
    ghost var draft := out.buf;
    assert body.total == CabinetSize(codec, name, data);
    assert body.blocks == BlockCount(|data|);
    var ok := Patch(out, body.total, body.blocks);
    assert ok ==> out.buf == Patched(draft, body.total, body.blocks);
    assert ok ==> out.buf == Written(codec, name, data, old(out.buf), old(out.pos));
    return if ok then None else Some(SinkFailed);
  }

  lemma DraftDone(c: Codec, name: string, data: Bytes, size: nat, b: Bytes, pos: nat, buf: Bytes)
    requires ValidName(name) && size == |data|
    requires buf == Overwrite(b, pos, Preamble(name, size, 0, 0) + Emit(c, Chunks(data)))
    ensures Patched(buf, CabinetSize(c, name, data), BlockCount(|data|)) == Written(c, name, data, b, pos)
  {
  }

  /** Two readers that fragment the same bytes differently leave byte-identical cabinets. */
  method FragmentationIsInvisible(codec: Codec, name: string, size: int, data: Bytes, end: ReadEnd,
                                  plan1: seq<Fragment>, plan2: seq<Fragment>)
    returns (e1: Option<CabError>, file1: Bytes, e2: Option<CabError>, file2: Bytes)
    ensures e1 == e2 == WriteError(name, size, data, end)
    ensures e1.None? ==> file1 == file2 == Cabinet(codec, name, Delivered(data, end))
  {
    var r1 := new Reader(data, plan1, end);
    var r2 := new Reader(data, plan2, end);
    var out1 := new Sink([]);
    var out2 := new Sink([]);
    e1 := Write(out1, codec, name, size, r1);
    e2 := Write(out2, codec, name, size, r2);
    file1, file2 := out1.buf, out2.buf;
  }
}
