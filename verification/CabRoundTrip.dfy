/** The streaming writer and the independent reader, back to back. */
module CabRoundTrip {
  import opened Prelude
  import opened Streams
  import opened CabFormat
  import opened CabDecoder
  import opened CabWriter

  /**
    Writes a stream into an empty file and extracts the result. However the stream is fragmented,
    the writer refuses exactly the bad names, the oversized payloads and the wrong sizes, and what
    it accepts comes back unchanged from a file whose header fields tell the truth about it.
  */
  method WriteAndExtract(codec: Codec, name: string, size: int, data: Bytes, plan: seq<Fragment>)
    returns (error: Option<CabError>, file: Bytes, back: Option<Extracted>)
    ensures error.None? <==> ValidName(name) && size == |data| && |data| <= 65535 * 32768
    ensures error.None? && ValidCodec(codec) && |name| <= MAX_NAME ==>
              && back == Some(Extracted(name, data))
              && IsCab(file) && |file| >= 60
              && U32(file, OFF_CB_CABINET) == |file|
              && U16(file, OFF_C_CFDATA) == BlockCount(size)
              && U32(file, COFF_FILES) == size
  {
    hide Cabinet, Decode, U32, U16, ValidCodec, WriteError, Written, MAX_NAME;
    var out := new Sink([]);
    var r := new Reader(data, plan, EndOfFile);
    error := Write(out, codec, name, size, r);
    SucceedsExactly(name, size, data, EndOfFile);
    file := out.buf;
    back := Decode(codec, file);
    if error.None? && ValidCodec(codec) && |name| <= MAX_NAME {
      RoundTrip(codec, name, data);
    }
  }
}
