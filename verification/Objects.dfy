/**
  The object service as one caller runs it, from the first lookup to the reopened file. What the
  outside world answers, and which operating-system calls fail, are parameters; the interleaving
  of several callers is the state machine's matter.
*/
module Objects {
  import opened Prelude
  import opened Streams
  import opened CabFormat
  import opened CabDecoder
  import opened CabWriter
  import opened Symstore
  import opened CacheKeys
  import opened Disk
  import opened DiskCache
  import Protocol

  type Error = Protocol.Error

  const NotFound: Error := Protocol.NotFound
  const Fault: Error := Protocol.Fault

  // ---- what the outside world does ----

  datatype Resolution = Found | Unknown | ResolverFault

  /** What the store had written when it stopped, and why it stopped. */
  datatype Fetched = Fetched(written: Bytes, error: Option<FetchError>)

  datatype FetchError = MissingKey | StorageFault

  datatype LookupLuck = LookupLuck(fails: bool, touched: bool)

  datatype CommitLuck = CommitLuck(fails: bool, blind: bool)

  datatype DownloadLuck = DownloadLuck(resolution: Resolution, tempFails: bool, fetched: Fetched, commit: CommitLuck)

  datatype ObjectLuck = ObjectLuck(first: LookupLuck, download: DownloadLuck, again: LookupLuck)

  /** One pass over a file: how the reads are fragmented and after how many bytes they fail. */
  datatype Pass = Pass(plan: seq<Fragment>, failsAfter: Option<nat>)

  datatype SynthesisLuck = SynthesisLuck(
    source: ObjectLuck, magic: Pass, seekFails: bool, tempFails: bool, body: Pass, faults: seq<bool>, commit: CommitLuck)

  datatype CompressedLuck = CompressedLuck(
    raw: LookupLuck, cab: LookupLuck, synthesis: SynthesisLuck, rawAgain: LookupLuck, cabAgain: LookupLuck)

  /** What a caller gets: an open file, no file and no error, or an error. */
  type Opened = Protocol.Result

  // ---- reading an object ----

  predicate Readable(b: Bytes, p: Pass) {
    p.failsAfter.None? || p.failsAfter.value >= |b|
  }

  /** A reader over the bytes a pass delivers. */
  method Open(b: Bytes, p: Pass) returns (r: Reader)
    ensures fresh(r)
    ensures Readable(b, p) ==> r.rest == b && r.end == EndOfFile
    ensures !Readable(b, p) ==> r.rest == b[..p.failsAfter.value] && r.end == ReadFault
  {
    if p.failsAfter.Some? && p.failsAfter.value < |b| {
      r := new Reader(b[..p.failsAfter.value], p.plan, ReadFault);
    } else {
      r := new Reader(b, p.plan, EndOfFile);
    }
  }

  /** Whether what is left of a reader begins with the cabinet signature; too little is no cabinet. */
  method StartsWithCabMagic(r: Reader) returns (isCab: bool, ok: bool)
    modifies r
    ensures ok <==> |old(r.rest)| >= 4 || r.end == EndOfFile || r.end == UnexpectedEnd
    ensures ok ==> (isCab <==> IsCab(old(r.rest)))
  {
    var magic := new Byte[4](_ => 0);
    var n, err := ReadFull(r, magic);
    if err == Some(EndOfFile) || err == Some(UnexpectedEnd) {
      return false, true;
    }
    if err.Some? {
      return false, false;
    }
    return magic[..n] == HEADER_SIGNATURE, true;
  }

  lemma OverwriteAtEnd(b: Bytes, p: Bytes)
    ensures Overwrite(b, |b|, p) == b + p
  {
  }

  /** One turn of `io.Copy`: reads what comes and appends it to the output. */
  method CopySome(out: Sink, r: Reader, buf: array<Byte>) returns (ok: bool, err: Option<ReadEnd>, ghost chunk: Bytes)
    requires out.pos == |out.buf| && buf.Length > 0
    modifies out, r`rest, r`plan, buf
    ensures old(r.rest) == chunk + r.rest
    ensures err.Some? ==> r.rest == [] && err.value == r.end
    ensures |r.plan| <= |old(r.plan)| && (chunk == [] && err.None? ==> |r.plan| < |old(r.plan)|)
    ensures ok ==> out.buf == old(out.buf) + chunk && out.pos == |out.buf|
    ensures old(out.Healthy()) ==> ok && out.Healthy()
  {
    hide Overwrite;
    ghost var left := r.rest;
    var n;
    n, err := r.Read(buf, 0);
    chunk := left[..n];
    ok := true;
    if n > 0 {
      assert buf[..n] == chunk;
      OverwriteAtEnd(out.buf, chunk);
      ok := out.Write(buf[..n]);
    }
  }

  /** `io.Copy` to the end of a file: everything the reader has, in the order it comes. */
  method Copy(out: Sink, r: Reader) returns (ok: bool)
    requires out.pos == |out.buf|
    modifies out, r
    ensures ok ==> r.end == EndOfFile && out.buf == old(out.buf) + old(r.rest)
    ensures old(out.Healthy()) && r.end == EndOfFile ==> ok
  {
    var buf := new Byte[32768](_ => 0);
    ghost var b0, all, done := out.buf, r.rest, [];
    var err: Option<ReadEnd> := None;
    while err.None?
      invariant all == done + r.rest
      invariant err.Some? ==> r.rest == [] && err.value == r.end
      invariant out.buf == b0 + done && out.pos == |out.buf|
      invariant old(out.Healthy()) ==> out.Healthy()
      decreases |r.rest|, |r.plan|, err.None?
    {
      ghost var chunk;
      ok, err, chunk := CopySome(out, r, buf);
      if !ok {
        return false;
      }
      done := done + chunk;
    }
    ok := err.value == EndOfFile;
  }

  // ---- what the service does to the published entries ----

  /** The resolver knows the object and its bytes arrive and are committed. */
  predicate Arrives(luck: DownloadLuck) {
    luck.resolution == Found && !luck.tempFails && luck.fetched.error.None? && !luck.commit.fails
  }

  /** The resolver, or the store it points to, does not have the object. */
  predicate NotThere(luck: DownloadLuck) {
    || luck.resolution == Unknown
    || (luck.resolution == Found && !luck.tempFails && luck.fetched.error == Some(MissingKey))
  }

  /** `after` is `before`, but for an object that was not there and may have been downloaded. */
  ghost predicate Fetches(before: map<Name, Bytes>, after: map<Name, Bytes>, key: Key, payload: Bytes) {
    after == before || (Entry(Objects, key) !in before && after == before[Entry(Objects, key) := payload])
  }

  /** The published entries once the object's payload has been mirrored or wrapped. */
  ghost function WithCompressed(codec: Codec, m: map<Name, Bytes>, req: Request): map<Name, Bytes>
    requires Entry(Objects, CacheKey(req)) in m
    requires IsCab(m[Entry(Objects, CacheKey(req))]) || ValidName(req.filename)
  {
    var key := CacheKey(req);
    var payload := m[Entry(Objects, key)];
    if IsCab(payload) then m[Entry(RawCompressed, key) := payload]
    else m[Entry(CabSynth, key) := Cabinet(codec, req.filename, payload)]
  }

  /** Whether a payload can be served in compressed form under a name. */
  predicate Compressible(payload: Bytes, filename: string) {
    IsCab(payload) || (ValidName(filename) && |payload| <= MAX_FOLDER)
  }

  /** Nothing fails once the object is open. */
  predicate NothingFails(luck: SynthesisLuck) {
    && luck.magic.failsAfter.None? && luck.body.failsAfter.None? && !luck.seekFails && !luck.tempFails
    && true !in luck.faults && !luck.commit.fails
  }

  /** A cabinet made of a payload that is none itself. */
  ghost predicate Wrapped(codec: Codec, filename: string, b: Bytes) {
    exists p: Bytes :: IsWrapped(codec, filename, b, p)
  }

  ghost predicate IsWrapped(codec: Codec, filename: string, b: Bytes, p: Bytes) {
    !IsCab(p) && |p| <= MAX_FOLDER && ValidName(filename) && b == Cabinet(codec, filename, p)
  }

  /** Mirrors hold cabinets, and synthesised entries hold wrapped objects under the name in their key. */
  ghost predicate Consistent(codec: Codec, m: map<Name, Bytes>) {
    forall n :: n in m && n.Entry? ==>
      && (n.role == RawCompressed ==> IsCab(m[n]))
      && (n.role == CabSynth ==> Wrapped(codec, FileOf(n.key.inner), m[n]))
  }

  /** No lookup fails, and neither does anything in between. */
  predicate AllWell(luck: CompressedLuck) {
    && !luck.raw.fails && !luck.cab.fails && !luck.rawAgain.fails && !luck.cabAgain.fails
    && NothingFails(luck.synthesis) && !luck.synthesis.source.first.fails && !luck.synthesis.source.again.fails
    && Arrives(luck.synthesis.source.download)
  }

  lemma ConsistentFetch(codec: Codec, m: map<Name, Bytes>, m': map<Name, Bytes>, key: Key, payload: Bytes)
    requires Consistent(codec, m) && Fetches(m, m', key, payload)
    ensures Consistent(codec, m')
  {
  }

  lemma ConsistentCompressed(codec: Codec, m: map<Name, Bytes>, req: Request)
    requires Consistent(codec, m) && Entry(Objects, CacheKey(req)) in m
    requires Compressible(m[Entry(Objects, CacheKey(req))], req.filename)
    ensures Consistent(codec, WithCompressed(codec, m, req))
  {
    FileOfKey(req);
    var payload := m[Entry(Objects, CacheKey(req))];
    hide FileOf, Cabinet, IsCab, Wrapped, CacheKey;
    if !IsCab(payload) {
      var b := Cabinet(codec, req.filename, payload);
      assert Wrapped(codec, req.filename, b) by { IsWrappedBy(codec, req.filename, b, payload); }
    }
  }

  lemma IsWrappedBy(codec: Codec, filename: string, b: Bytes, p: Bytes)
    requires IsWrapped(codec, filename, b, p)
    ensures Wrapped(codec, filename, b)
  {
  }

  /** What is published once the object has been looked for, and downloaded if it was not there. */
  function ObjectPart(m: map<Name, Bytes>, key: Key, luck: ObjectLuck): map<Name, Bytes> {
    if !luck.first.fails && Entry(Objects, key) !in m && Arrives(luck.download)
    then m[Entry(Objects, key) := luck.download.fetched.written] else m
  }

  /** Whether the object can be opened, and the error if not. */
  predicate Opens(m: map<Name, Bytes>, key: Key, luck: ObjectLuck) {
    !luck.first.fails && (Entry(Objects, key) in m || (Arrives(luck.download) && !luck.again.fails))
  }

  function ObjectError(m: map<Name, Bytes>, key: Key, luck: ObjectLuck): Error {
    if !luck.first.fails && Entry(Objects, key) !in m && NotThere(luck.download) then NotFound else Fault
  }

  lemma ObjectPartFetches(m: map<Name, Bytes>, key: Key, luck: ObjectLuck)
    ensures Fetches(m, ObjectPart(m, key, luck), key, luck.download.fetched.written)
    ensures Opens(m, key, luck) ==> Entry(Objects, key) in ObjectPart(m, key, luck)
  {
  }

  /** How looking for a compressed form ends: the mirror comes first. */
  datatype Sought = Under(role: Role) | Nowhere | LookFails

  function Seek(m: map<Name, Bytes>, key: Key, raw: LookupLuck, cab: LookupLuck): Sought {
    if raw.fails then LookFails
    else if Entry(RawCompressed, key) in m then Under(RawCompressed)
    else if cab.fails then LookFails
    else if Entry(CabSynth, key) in m then Under(CabSynth)
    else Nowhere
  }

  /** The result of a search. */
  predicate FoundAs(d: Disk, key: Key, found: Sought, r: Opened) {
    match found
    case Under(role) => Entry(role, key) in d.names && r == Protocol.File(d.names[Entry(role, key)])
    case Nowhere => r.Missing?
    case LookFails => r == Protocol.Failure(Fault)
  }

  /** What became of the production of a compressed form. */
  datatype Making = NotTried | Refused(error: Error) | Made

  /** A course of `FetchCompressed`: from the entries `before` over those with the object to those `after`. */
  ghost predicate Course(codec: Codec, before: map<Name, Bytes>, mid: map<Name, Bytes>, after: map<Name, Bytes>,
                         req: Request, luck: CompressedLuck, making: Making) {
    var key, source := CacheKey(req), luck.synthesis.source;
    if Seek(before, key, luck.raw, luck.cab) != Nowhere then making == NotTried && mid == before && after == mid
    else
      && mid == ObjectPart(before, key, source)
      && (if !Opens(before, key, source) then making == Refused(ObjectError(before, key, source)) && after == mid
          else
            && Entry(Objects, key) in mid
            && (making == Refused(Fault) || making == Made)
            && (making == Made ==>
                  Compressible(mid[Entry(Objects, key)], req.filename) && after == WithCompressed(codec, mid, req))
            && (making != Made ==> after == mid))
  }

  /** The search that decides the result, if the production has not been refused. */
  function LastSearch(before: map<Name, Bytes>, after: map<Name, Bytes>, key: Key, luck: CompressedLuck, making: Making): Sought {
    if making == NotTried then Seek(before, key, luck.raw, luck.cab) else Seek(after, key, luck.rawAgain, luck.cabAgain)
  }

  class Service {
    const cache: Cache
    const codec: Codec

    constructor (cache: Cache, codec: Codec)
      ensures this.cache == cache && this.codec == codec
    {
      this.cache, this.codec := cache, codec;
    }

    /**
      Asks the resolver, streams the object into a staging file and commits it. On every path the
      staging file is gone; what is published changes only if everything went well.
    */
    method Download(req: Request, luck: DownloadLuck) returns (err: Option<Error>)
      requires cache.Valid()
      modifies cache
      ensures cache.Valid() && StagingNames(cache.disk) == old(StagingNames(cache.disk)) && Kept(old(cache.disk), cache.disk)
      ensures err.None? <==> Arrives(luck)
      ensures err == Some(NotFound) <==> NotThere(luck)
      ensures Published(cache.disk)
              == if Arrives(luck) then old(Published(cache.disk))[Entry(Objects, CacheKey(req)) := luck.fetched.written]
                 else old(Published(cache.disk))
      ensures !luck.commit.blind ==>
                cache.ByteDrift() == old(cache.ByteDrift()) && cache.EntryDrift() == old(cache.EntryDrift())
    {
      hide Published, StagingNames, TotalBytes, TotalEntries, WellFormed, Unused, CacheKey;
      if luck.resolution == Unknown {
        return Some(NotFound);
      }
      if luck.resolution == ResolverFault {
        return Some(Fault);
      }
      var t := cache.NewTemp(luck.tempFails);
      if t.None? {
        return Some(Fault);
      }
      cache.Fill(t.value, luck.fetched.written);
      if luck.fetched.error.Some? {
        cache.RemoveTemp(t.value);
        return Some(if luck.fetched.error.value == MissingKey then NotFound else Fault);
      }
      var ok := cache.Commit(t.value, Objects, CacheKey(req), luck.commit.fails, luck.commit.blind);
      if !ok {
        cache.RemoveTemp(t.value);
        return Some(Fault);
      }
      return None;
    }

    /** Lookup, download on a miss, lookup again. */
    method Object(req: Request, luck: ObjectLuck) returns (r: Opened)
      requires cache.Valid()
      modifies cache
      ensures cache.Valid() && StagingNames(cache.disk) == old(StagingNames(cache.disk)) && Kept(old(cache.disk), cache.disk)
      ensures Published(cache.disk) == ObjectPart(old(Published(cache.disk)), CacheKey(req), luck)
      ensures r.File? <==> Opens(old(Published(cache.disk)), CacheKey(req), luck)
      ensures !r.File? ==> r == Protocol.Failure(ObjectError(old(Published(cache.disk)), CacheKey(req), luck))
      ensures r.File? ==>
                && Entry(Objects, CacheKey(req)) in cache.disk.names
                && r.ino == cache.disk.names[Entry(Objects, CacheKey(req))]
      ensures !luck.download.commit.blind ==>
                cache.ByteDrift() == old(cache.ByteDrift()) && cache.EntryDrift() == old(cache.EntryDrift())
    {
      hide StagingNames, TotalBytes, TotalEntries, WellFormed, Unused, CacheKey, Published;
      var key := CacheKey(req);
      PublishedNames(cache.disk, Entry(Objects, key));
      var found := cache.Lookup(Objects, key, luck.first.fails, luck.first.touched);
      if found.LookupFailed? {
        return Protocol.Failure(Fault);
      }
      if found.Hit? {
        return Protocol.File(found.ino);
      }
      var err := Download(req, luck.download);
      if err.Some? {
        assert err.value == NotFound || err.value == Fault;
        return Protocol.Failure(err.value);
      }
      PublishedNames(cache.disk, Entry(Objects, key));
      found := cache.Lookup(Objects, key, luck.again.fails, luck.again.touched);
      return if found.Hit? then Protocol.File(found.ino) else if found.Miss? then Protocol.Missing else Protocol.Failure(Fault);
    }

    /**
      Wraps the object, or mirrors it if it is a cabinet already, into a staging file. `isCab` and
      the object's bytes decide the role; the error tells why nothing was written.
    */
    method Encode(out: Sink, req: Request, payload: Bytes, isCab: bool, luck: SynthesisLuck) returns (ok: bool)
      requires out.buf == [] && out.pos == 0 && (isCab <==> IsCab(payload))
      modifies out
      ensures ok ==> Compressible(payload, req.filename)
      ensures ok ==> out.buf == if isCab then payload else Cabinet(codec, req.filename, payload)
      ensures luck.body.failsAfter.None? && old(out.Healthy()) && Compressible(payload, req.filename) ==> ok
    {
      var r := Open(payload, luck.body);
      if isCab {
        ok := Copy(out, r);
        assert ok ==> out.buf == [] + payload == payload;
      } else {
        var data, end := r.rest, r.end;
        var err := Write(out, codec, req.filename, |payload|, r);
        WriteSucceeds(req.filename, payload, data, end);
        ok := err.None?;
      }
    }

    /**
      Makes sure the object is cached, then produces its compressed form. On every path the staging
      file is gone; an error publishes nothing but, at most, the object.
    */
    method Synthesize(req: Request, luck: SynthesisLuck) returns (err: Option<Error>, ghost mid: map<Name, Bytes>)
      requires cache.Valid()
      modifies cache
      ensures cache.Valid() && StagingNames(cache.disk) == old(StagingNames(cache.disk)) && Kept(old(cache.disk), cache.disk)
      ensures mid == ObjectPart(old(Published(cache.disk)), CacheKey(req), luck.source)
      ensures err.Some? ==> Published(cache.disk) == mid
      ensures err.None? ==>
                && Entry(Objects, CacheKey(req)) in mid
                && Compressible(mid[Entry(Objects, CacheKey(req))], req.filename)
                && Published(cache.disk) == WithCompressed(codec, mid, req)
      ensures var before := old(Published(cache.disk));
              if !Opens(before, CacheKey(req), luck.source) then err == Some(ObjectError(before, CacheKey(req), luck.source))
              else
                && (err.None? || err == Some(Fault))
                && Entry(Objects, CacheKey(req)) in mid
                && (NothingFails(luck) ==> (err.None? <==> Compressible(mid[Entry(Objects, CacheKey(req))], req.filename)))
      ensures !luck.source.download.commit.blind && !luck.commit.blind ==>
                cache.ByteDrift() == old(cache.ByteDrift()) && cache.EntryDrift() == old(cache.EntryDrift())
    {
      hide StagingNames, TotalBytes, TotalEntries, WellFormed, Unused, CacheKey, Published, Compressible, Arrives, NotThere, Cabinet,
           Fetches, IsCab;
      var key := CacheKey(req);
      hide Kept;
      ghost var d0 := cache.disk;
      var obj := Object(req, luck.source);
      ghost var d1 := cache.disk;
      mid := Published(cache.disk);
      PublishedNames(cache.disk, Entry(Objects, key));
      if obj.Failure? {
        return Some(obj.error), mid;
      }
      if obj.Missing? {
        return Some(Fault), mid;   // reading from a nil file fails
      }
      var payload := BytesAt(cache.disk, obj.ino);
      var reader := Open(payload, luck.magic);
      var isCab, readable := StartsWithCabMagic(reader);
      if !readable || luck.seekFails {
        return Some(Fault), mid;
      }
      assert isCab <==> IsCab(payload) by { MagicOfPrefix(payload, luck.magic); }
      var t := cache.NewTemp(luck.tempFails);
      if t.None? {
        return Some(Fault), mid;
      }
      var out := new Sink(luck.faults);
      var ok := Encode(out, req, payload, isCab, luck);
      cache.Fill(t.value, out.buf);
      KeptThroughTemp(d0, d1, t.value, out.buf, cache.now, cache.now);
      ghost var d2 := cache.disk;
      if !ok {
        cache.RemoveTemp(t.value);
        KeptChain(d0, d2, cache.disk);
        return Some(Fault), mid;
      }
      var role := if isCab then RawCompressed else CabSynth;
      ok := cache.Commit(t.value, role, key, luck.commit.fails, luck.commit.blind);
      KeptChain(d0, d2, cache.disk);
      if !ok {
        cache.RemoveTemp(t.value);
        KeptChain(d0, d2, cache.disk);
        return Some(Fault), mid;
      }
      return None, mid;
    }

    /** Looks in the mirror first, then among the synthesised cabinets. */
    method LookupCompressed(key: Key, lucks: seq<LookupLuck>) returns (r: Opened)
      requires cache.Valid() && |lucks| == 2
      modifies cache
      ensures cache.Valid() && cache.disk.names == old(cache.disk.names) && Kept(old(cache.disk), cache.disk)
      ensures Published(cache.disk) == old(Published(cache.disk)) && StagingNames(cache.disk) == old(StagingNames(cache.disk))
      ensures cache.ByteDrift() == old(cache.ByteDrift()) && cache.EntryDrift() == old(cache.EntryDrift())
      ensures FoundAs(cache.disk, key, Seek(Published(cache.disk), key, lucks[0], lucks[1]), r)
    {
      hide StagingNames, TotalBytes, TotalEntries, WellFormed, Unused, Published, Kept;
      var roles := [RawCompressed, CabSynth];
      ghost var d0 := cache.disk;
      PublishedNames(d0, Entry(RawCompressed, key));
      PublishedNames(d0, Entry(CabSynth, key));
      KeptSame(d0);
      for i := 0 to |roles|
        invariant cache.Valid() && cache.disk.names == d0.names && Kept(d0, cache.disk)
        invariant Published(cache.disk) == Published(d0) && StagingNames(cache.disk) == StagingNames(d0)
        invariant cache.ByteDrift() == old(cache.ByteDrift()) && cache.EntryDrift() == old(cache.EntryDrift())
        invariant forall j :: 0 <= j < i ==> !lucks[j].fails && Entry(roles[j], key) !in d0.names
      {
        ghost var d1 := cache.disk;
        var found := cache.Lookup(roles[i], key, lucks[i].fails, lucks[i].touched);
        KeptChain(d0, d1, cache.disk);
        if found.LookupFailed? {
          return Protocol.Failure(Fault);
        }
        if found.Hit? {
          return Protocol.File(found.ino);
        }
      }
      return Protocol.Missing;
    }

    /**
      Serves the compressed form of an object, producing it if need be. Entries stay consistent,
      no staging file is left, and if nothing fails the caller gets a file exactly if the object can
      be compressed.
    */
    method FetchCompressed(req: Request, luck: CompressedLuck)
      returns (r: Opened, ghost mid: map<Name, Bytes>, ghost making: Making)
      requires cache.Valid()
      modifies cache
      ensures cache.Valid() && StagingNames(cache.disk) == old(StagingNames(cache.disk)) && Kept(old(cache.disk), cache.disk)
      ensures Course(codec, old(Published(cache.disk)), mid, Published(cache.disk), req, luck, making)
      ensures if making.Refused? then r == Protocol.Failure(making.error)
              else FoundAs(cache.disk, CacheKey(req), LastSearch(old(Published(cache.disk)), Published(cache.disk), CacheKey(req), luck, making), r)
      ensures old(Consistent(codec, Published(cache.disk))) ==> Consistent(codec, Published(cache.disk))
      ensures !r.Missing?
      ensures var raw, cab := Entry(RawCompressed, CacheKey(req)), Entry(CabSynth, CacheKey(req));
              AllWell(luck) ==>
                (r.File? <==>
                   || raw in old(cache.disk.names) || cab in old(cache.disk.names)
                   || (Entry(Objects, CacheKey(req)) in mid && Compressible(mid[Entry(Objects, CacheKey(req))], req.filename)))
      ensures !luck.synthesis.source.download.commit.blind && !luck.synthesis.commit.blind ==>
                cache.ByteDrift() == old(cache.ByteDrift()) && cache.EntryDrift() == old(cache.EntryDrift())
    {
      hide StagingNames, TotalBytes, TotalEntries, WellFormed, Unused, CacheKey, Published, Compressible, Arrives, NotThere, Cabinet,
           Fetches, IsCab, Kept, Consistent, WithCompressed, NothingFails, ObjectPart, ObjectError;
      var key := CacheKey(req);
      ghost var d0 := cache.disk;
      PublishedNames(d0, Entry(RawCompressed, key));
      PublishedNames(d0, Entry(CabSynth, key));
      PublishedNames(d0, Entry(Objects, key));
      ObjectPartFetches(Published(d0), key, luck.synthesis.source);
      r := LookupCompressed(key, [luck.raw, luck.cab]);
      mid, making := Published(cache.disk), NotTried;
      if !r.Missing? {
        return;
      }
      ghost var d1 := cache.disk;
      var err;
      err, mid := Synthesize(req, luck.synthesis);
      ghost var d2 := cache.disk;
      KeptChain(d0, d1, d2);
      ConsistentStep(codec, Published(d0), mid, Published(d2), req, luck.synthesis.source.download.fetched.written);
      if err.Some? {
        r, making := Protocol.Failure(err.value), Refused(err.value);
        return;
      }
      making := Made;
      ProducedIsThere(codec, mid, req, d2);
      r := LookupCompressed(key, [luck.rawAgain, luck.cabAgain]);
      KeptChain(d0, d2, cache.disk);
      PublishedNames(cache.disk, Entry(RawCompressed, key));
      PublishedNames(cache.disk, Entry(CabSynth, key));
    }
  }

  lemma KeptSame(d: Disk)
    ensures Kept(d, d)
  {
  }

  lemma ConsistentStep(codec: Codec, m0: map<Name, Bytes>, mid: map<Name, Bytes>, m1: map<Name, Bytes>, req: Request, payload: Bytes)
    requires Fetches(m0, mid, CacheKey(req), payload)
    requires m1 == mid
             || (Entry(Objects, CacheKey(req)) in mid && Compressible(mid[Entry(Objects, CacheKey(req))], req.filename)
                 && m1 == WithCompressed(codec, mid, req))
    ensures Consistent(codec, m0) ==> Consistent(codec, m1)
  {
    hide Consistent, Compressible, WithCompressed, Fetches, CacheKey;
    if Consistent(codec, m0) {
      ConsistentFetch(codec, m0, mid, CacheKey(req), payload);
      if m1 != mid {
        ConsistentCompressed(codec, mid, req);
      }
    }
  }

  lemma ProducedIsThere(codec: Codec, mid: map<Name, Bytes>, req: Request, d: Disk)
    requires Entry(Objects, CacheKey(req)) in mid && Compressible(mid[Entry(Objects, CacheKey(req))], req.filename)
    requires Published(d) == WithCompressed(codec, mid, req)
    ensures Entry(RawCompressed, CacheKey(req)) in d.names || Entry(CabSynth, CacheKey(req)) in d.names
  {
    hide Cabinet, IsCab;
    PublishedNames(d, Entry(RawCompressed, CacheKey(req)));
    PublishedNames(d, Entry(CabSynth, CacheKey(req)));
  }

  /** In a consistent cache, whatever is served compressed is a cabinet: a mirrored one, or one that decodes. */
  lemma ServedFilesAreCabinets(codec: Codec, d: Disk, req: Request, role: Role)
    requires Consistent(codec, Published(d)) && role != Objects && Entry(role, CacheKey(req)) in d.names
    requires ValidCodec(codec) && |req.filename| <= MAX_NAME
    ensures var b := BytesAt(d, d.names[Entry(role, CacheKey(req))]);
            && IsCab(b)
            && (role == CabSynth ==> exists p: Bytes :: !IsCab(p) && Decode(codec, b) == Some(Extracted(req.filename, p)))
  {
    var n := Entry(role, CacheKey(req));
    var b := BytesAt(d, d.names[n]);
    PublishedNames(d, n);
    FileOfKey(req);
    if role == CabSynth {
      assert Wrapped(codec, req.filename, b);
      hide ValidCodec, Decode, Cabinet, MAX_NAME, MAX_FOLDER, Consistent, FileOf;
      var p: Bytes :| IsWrapped(codec, req.filename, b, p);
      RoundTrip(codec, req.filename, p);
    }
  }

  /** The size check makes a failing read an error, so success means all bytes were read. */
  lemma WriteSucceeds(name: string, payload: Bytes, data: Bytes, end: ReadEnd)
    requires (end == EndOfFile && data == payload) || end == ReadFault
    ensures WriteError(name, |payload|, data, end).None? <==>
              end == EndOfFile && ValidName(name) && |payload| <= MAX_FOLDER
    ensures end == EndOfFile ==> Delivered(data, end) == payload
  {
    SucceedsExactly(name, |payload|, data, end);
  }

  /** Enough bytes to decide are a prefix of the payload. */
  lemma MagicOfPrefix(payload: Bytes, p: Pass)
    ensures !Readable(payload, p) && p.failsAfter.value >= 4 ==>
              (IsCab(payload[..p.failsAfter.value]) <==> IsCab(payload))
  {
  }

  lemma PublishedNames(d: Disk, n: Name)
    ensures n.Entry? ==> (n in d.names <==> n in Published(d))
    ensures n in Published(d) ==> Published(d)[n] == BytesAt(d, d.names[n])
  {
  }
}
