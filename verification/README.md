# A verified model of debugsymd

debugsymd is a symbol-server proxy: it resolves a debug identifier, downloads the object once for
overlapping requests, keeps it in a cache on disk, and serves it verbatim or inside a Microsoft
cabinet. This project models four parts of it in Dafny and proves what they promise.

**The production protocol** (`objects`, `diskcache`). `Protocol.dfy` is a state machine: any number
of callers look up, wait for or run a flight, download or synthesise, commit and reopen, while a
sweeper unlinks old files, transfers fail half-way, lookups and commits fail, the clock advances
and the process may restart at any point. The state holds the disk as names for inodes
(`Disk.dfy`; an open handle keeps its inode), the flights, a program counter per caller, the two
gauges, the coalesced counter and some history (what was fetched, what was evicted, what gauge
adjustments were lost, what a crash left behind). `ProtocolInv.dfy` states one inductive invariant
in twelve groups; `ProtocolFlights.dfy`, `ProtocolFiles.dfy`, `ProtocolDates.dfy` and
`ProtocolSteps.dfy` show that every step keeps it. `ProtocolSafety.dfy` (contents, handles, gauges,
staging), `ProtocolAges.dfy` (how long entries last), `ProtocolProgress.dfy` (exclusion, waiting,
counting) and `ProtocolOnce.dfy` (repeated downloads) draw the conclusions; `ProtocolRuns.dfy` builds
the runs that show where a promise ends. The state machine keys flights and entries by role and
cache key where the program compares texts made of them; `ProtocolTexts.dfy` says exactly when this
is the same.

| program counter | code |
|---|---|
| `Look`, `Touching` | `Lookup` up to its stat, then its touch by name, with a time read in between (`diskcache/cache.go:40-63`) |
| `Enter`, `Await`, `Returning` | `produceOnce` around `Do` (`objects/service.go:94-112`) |
| `Resolving` | the resolver's answer (`objects/service.go:117-138`) |
| `ReadingMagic` | `startsWithCabMagic` and the seek (`objects/synth.go:90-97`) |
| `NewTemp`, `Writing`, `Committing`, `Cleaning` | staging file, transfer, commit, deferred removal (`objects/service.go:148-196`, `objects/synth.go:99-149`) |
| `Finishing` | the closure has returned and `Do` publishes its result |

A commit renames with whatever its earlier `Stat` saw of the final path, and the sweeper looks at a file
in one step (`SweepVisit`) and unlinks it by name in another (`SweepUnlink`, `diskcache/eviction.go:31-49`).

**The same operations as imperative code.** `DiskCache.dfy` (class `Cache`) and `Objects.dfy` (class
`Service`) run them for one caller, with every answer of the outside world and every failing
system call as a parameter; `Prune.dfy` (class `Tree`) is the directory pruning. They are specified
with the same functions on disks that the state machine uses. `SweepRuns.dfy` shows that the sweep
loop and the sweep steps agree, and `ServiceRuns.dfy` that whatever `Object` and `FetchCompressed` do for
one caller the state machine can do with the same result.

**The cabinet writer** (`cab`). `CabWriter.dfy` is the streaming encoder over a byte buffer with a
position (`Streams.dfy`), with its placeholder fields, its block loop, its 16-bit block counter and
its back-patching. `CabFormat.dfy` is the layout of [MS-CAB] sections 2.1 to 2.4 and the stored block
of section 3.2.4 of RFC 1951; `CabDecoder.dfy` is an independent reader, and `CabRoundTrip.dfy` runs
one against the other. The compressor is any pair of functions such that inflating undoes deflating
and understands stored blocks (`CabFormat.ValidCodec`); `CabDecoder.CodecsExist` gives two instances,
one that makes the encoder take the deflated branch and one that makes it fall back.

**Identifiers and selection** (`symstore`, `resolver`). `Text.dfy`, `DebugId.dfy`, `Symstore.dfy`,
`CacheKeys.dfy` and `Resolver.dfy` cover the canonical debug IDs, the path grammar, compressed leaf
names, the keys made of all this, and the ranked choice among candidates.

## What the code does not promise, although comments suggest it

- The reopening lookup after a flight "always hits" (`objects/service.go:74-75`,
  `objects/synth.go:55`). It does for `maxUnused` from the time of the file, unless at its commit a
  lookup from before that time was still to touch the entry, or the sweeper was still to unlink it
  by an earlier time; beyond that there are runs in which it misses
  (`ProtocolAges.ReopeningMissesExactly`).
- Touching an entry on each hit is to keep it from the sweeper (`diskcache/cache.go:35-40`,
  `diskcache/eviction.go:14-17`). But `Lookup` reads the clock before it touches by name, the sweeper
  reads a file's time before it unlinks by name, and a commit can put an older file in place of the
  entry. An entry is safe for `maxUnused` exactly if none of the three is under way from before
  (`ProtocolAges.EntriesSurviveExactly`).
- "Exactly one caller downloads" (`objects/service.go:47-49`). With the object committed and not
  evicted, a caller can come to download it again exactly if it had missed before
  (`ProtocolOnce.DownloadsAgainExactly`), and such callers exist (`LateCallersDownloadAgain`).
- A sweep whose walk fails returns before the gauges are adjusted (`diskcache/eviction.go:55-63`),
  and they stay too high until a restart. They also drift when a commit or the sweeper acts on a
  path that is not as it had been seen, a `Stat` that fails included (`DiskCache.Cache.Commit`).
  `ProtocolSafety.GaugesDriftExactly` accounts for all of it.
- The size check of the cabinet writer (`cab/writer.go:26-30`) misses a tail cut off, in the middle
  of a chunk, by an error that wraps `io.EOF`, because `readChunk` asks `errors.Is` first
  (`CabWriter.SizeCheckExact` gives the exact condition).
- Keys of PE requests, whose identity is the raw signature, can collide with each other and with
  those of ELF and Mach-O requests. `CacheKeys.FlightKeysExact` and `DiskKeysExact` say exactly for
  which signatures; `PeKeysCollide` and `PePathsCollide` are requests that do. PDB requests and source
  bundles never take part.
- A candidate with a hash of fewer than four characters can hide a usable one of equal quality
  (`Resolver.ShortHashShadows`).
- The cabinet is only as long as `cbCabinet` says if the output was empty; `patch` leaves the old
  bytes behind a shorter cabinet in place (`CabWriter.StaleTail`).
- The bound on `cbCabinet` in the comment at `cab/writer.go:212` needs a bound on the name's length,
  which `CabDecoder.NameBoundExact` gives.

## Model

| member | source | states |
|---|---|---|
| ProtocolSteps.InvReachable | objects/service.go:50-197 | the twelve groups of the invariant hold in every state that any interleaving of callers, failures, sweeps and restarts can reach |
| ProtocolSafety.CommittedFilesAreComplete | objects/service.go:117-197 | in every reachable state a committed `objects` file is a complete payload fetched for its key, a `raw_compressed` file is such a payload with the cabinet signature, and a `cab_synth` file decodes to the key's file name and such a payload that is no cabinet (for requests whose texts do not collide, see ProtocolTexts.TextsDecideExactly) |
| ProtocolSafety.CallersReceiveCompleteFiles | objects/synth.go:28-59 | whatever file a caller ends up with holds a complete payload for its request, or, for the compressed form, a cabinet that is one or decodes to one (for requests whose texts do not collide, see ProtocolTexts.TextsDecideExactly) |
| ProtocolSafety.FormFollowsPayload | objects/synth.go:113-140 | with one payload per key, the role that is populated is decided by whether that payload is a cabinet |
| ProtocolSafety.OneCompressedForm | objects/synth.go:64-77 | with one payload per key, `raw_compressed` and `cab_synth` are never both populated |
| ProtocolSafety.HandlesKeepTheirBytes | diskcache/cache.go:44-62 | over any run, restarts included, the bytes behind an inode nobody writes to never change |
| ProtocolSafety.HeldForEver | diskcache/cache.go:36-39 | what a caller holds open can be read unchanged after any run, whatever commits and evictions do to its name |
| ProtocolSafety.GaugesRefineTheWalk | diskcache/eviction.go:31-62 | after any run whose walks complete and whose commits and unlinks come upon what they have seen, both gauges equal what `computeSize` would return plus exactly what a sweep in progress has not subtracted yet; staging files never count |
| ProtocolSafety.GaugesDriftExactly | diskcache/cache.go:124-141 | for every run of the state machine, the gauges equal what a walk would find, plus what a sweep in progress has not subtracted yet, plus exactly what failed sweeps had removed and every difference between what a commit or the sweeper had seen of a path and what lay there, since the last restart; less everything there was if that restart's own walk failed |
| ProtocolSafety.FailedWalkDrifts | diskcache/eviction.go:55-63 | whatever was lost before, a failed walk raises the gauges by what it had removed: as long as commits and unlinks come upon what they have seen, at least by that until a restart, and exactly by that until another walk fails |
| ProtocolSafety.FailedWalksHappen | diskcache/eviction.go:55-57 | a sweep can fail after having removed an entry of any size |
| ProtocolAges.EntriesSurviveExactly | diskcache/eviction.go:20-49 | an entry with time t or later is kept, in every run and whatever file it leads to by then, by all sweeps started at or before t + maxUnused if and only if nothing is under way from before t: no lookup still to touch it, no complete staging file still to be renamed to it, no sweeper still to unlink it |
| ProtocolAges.TouchedEntriesSurvive | diskcache/cache.go:59-60 | the touch of a lookup, whenever it happens and whatever time it read, protects the entry for maxUnused from that time on, exactly if nothing older is under way |
| ProtocolAges.RecentRun | diskcache/eviction.go:31-42 | over any run a file is evicted only by cutoffs after t0, if its time is t0 or later and no lookup of its name from before t0 is still to touch it, and no sweeper that read an earlier time there to unlink it |
| ProtocolAges.ReopeningHits | objects/service.go:74-81 | after a successful flight the reopening of its executor and of its followers hits for maxUnused from the time of the file, unless at its commit an older lookup was still to touch the entry or the sweeper to unlink it by an earlier time |
| ProtocolAges.ReopeningMissesExactly | objects/synth.go:55-58 | for every configuration, request and age of the file, there is a run in which the reopening misses if and only if the file is older than maxUnused or an older touch or unlink was outstanding at its commit |
| ProtocolAges.MissedWasEvicted | objects/synth.go:64-77 | whoever misses for good after a flight comes from a success, and the very entry that flight committed, in whichever role, has been evicted since |
| ProtocolAges.NoEvictionNoMiss | objects/synth.go:55-58 | as long as nothing has been evicted no caller ends without a file and without an error (for requests whose texts do not collide, see ProtocolTexts.TextsDecideExactly) |
| ProtocolSafety.StagingFilesHaveOwners | objects/service.go:148-160 | in every reachable state a staging file is being written, committed or removed by a caller, or was left by a crash |
| ProtocolSafety.CompleteSweepsCleanUp | diskcache/eviction.go:31-42 | when a sweep completes, no crash's staging file older than its cutoff is left |
| ProtocolSafety.OnlyCommitsPublish | diskcache/cache.go:100-144 | of all steps only a commit adds to the published bytes, under one name and all at once, only an eviction removes, and no failing step changes them |
| ProtocolProgress.OneExecutorPerKey | objects/service.go:94-112 | at most one caller runs the closure of a flight key at any time |
| ProtocolProgress.OneProducerPerName | objects/synth.go:142-143 | two productions of one final name never overlap, although `raw_compressed` has no flight of its own |
| ProtocolProgress.WaitingDescends | objects/synth.go:49-51 | waiting leads from `cab_synth` flights to `objects` flights only, so the wait-for relation is well founded |
| ProtocolProgress.SomebodyRuns | objects/synth.go:82-86 | every blocked caller waits, over at most two flights, for one that is not blocked |
| ProtocolProgress.UnblockedCanMove | objects/service.go:94-112 | a caller that is not blocked has a move, without any failure |
| ProtocolProgress.MovesApproach | objects/synth.go:28-59 | every move except a partial write brings a caller closer to its end |
| ProtocolProgress.EveryCallerCanFinish | objects/service.go:50-112 | from every reachable state every caller can be brought to its end by the callers that are there: there is no deadlock |
| ProtocolProgress.MembersGetOneOutcome | objects/service.go:99-105 | a flight's result never changes once it is there, so all its members get the same one |
| ProtocolProgress.ReturnsAreConserved | objects/service.go:84-112 | nil returns, nested ones included, equal successful executions that have returned plus the coalesced counter; failed flights add nothing, and an unreturned execution's caller is about to return |
| ProtocolProgress.BooksBalance | objects/service.go:107-109 | when nobody is between a flight and its return, nil returns are exactly the successful flights plus the coalesced ones |
| ProtocolOnce.DownloadersMissedBefore | objects/service.go:53-70 | from a state in which the object is committed, over any run that does not evict it, whoever executes a flight for it is a caller of that state that had already missed |
| ProtocolOnce.LateArrivalsNeverEnter | objects/service.go:50-70 | callers that arrive after the commit neither enter nor join nor execute a flight for the object |
| ProtocolOnce.DownloadsAgainExactly | objects/service.go:53-70 | with the object committed, a caller can come to download it again without an eviction if and only if it has missed before |
| ProtocolOnce.LateCallersDownloadAgain | objects/service.go:53-70 | a reachable state in which a second download of a key runs although the first is committed and nothing was evicted |
| ProtocolTexts.TextsDecideExactly | objects/service.go:203-210 | in all runs whose requests come from a set, comparing flight texts, and roles and hashed texts, decides as comparing roles and cache keys does, if and only if no two requests of the set share a text |
| ProtocolTexts.TextsDecideForSignatures | diskcache/key.go:17-27 | the same for the requests of a set of signatures: if and only if no PE signature in it nests in an identity of the set |
| ProtocolTexts.StepsByTexts | objects/service.go:94-105 | where texts decide, every step changes the flight table and the directory, kept and consulted by texts and paths alone, as it changes those of the state machine, and every lookup and every entry into a flight finds the same in them |
| ProtocolTexts.TablesFollowRuns | diskcache/cache.go:128-141 | over every run with requests that do not share texts, the tables kept by texts alone are the images of the state machine's |
| SweepRuns.SweepIsARun | diskcache/eviction.go:20-62 | an undisturbed sweep as the loop computes it is a run of the state machine's sweeper, ending on the same disk with the gauges as far from the truth as before |
| ServiceRuns.ObjectIsARun | objects/service.go:50-82 | for every course that `Object` can take for one caller, failures included, the state machine has a run with the same end and the same published entries |
| ServiceRuns.CompressedIsARun | objects/synth.go:28-59 | the same for `FetchCompressed`, with its searches, its flight, the nested object and the production |
| ServiceRuns.RunObject | objects/service.go:50-82 | the service and the state machine side by side: from equal entries they come to equal entries, and to the same error or to files with the same bytes |
| ServiceRuns.RunFetchCompressed | objects/synth.go:28-59 | the same for the compressed form |
| DiskCache.Cache.Lookup | diskcache/cache.go:40-63 | hits exactly when the entry exists and nothing fails, a miss is no error, a touched entry has the present time, and no bytes, names or gauges change |
| DiskCache.Cache.NewTemp | diskcache/cache.go:68-75 | creates one empty file under an unused name and inode, or nothing |
| DiskCache.Cache.Commit | diskcache/cache.go:103-144 | publishes the staging file's bytes under the entry's name and removes the staging name, or changes nothing; the gauges keep their distance from the truth unless a failing stat hides an overwritten entry |
| DiskCache.Cache.ComputeSize | diskcache/size.go:21-32 | a complete walk in any order finds the sum of the committed entries' sizes and their number |
| DiskCache.Cache.SeedMetrics | diskcache/size.go:12-17 | after a complete walk the gauges are exact; after a failed one they are untouched |
| DiskCache.Cache.SweepFiles | diskcache/eviction.go:31-54 | removes exactly the visited, removable files older than the cutoff, from the disk and from the tree, and adds up the bytes and entries removed |
| DiskCache.Cache.Evict | diskcache/eviction.go:20-68 | a complete sweep leaves exactly the younger or unremovable files and, of the directories, the root, `tmp` and those with a file below them, and keeps the gauges' distance from the truth; one whose walk fails prunes nothing and leaves the gauges alone |
| DiskCache.AfterSweepNext | diskcache/eviction.go:31-49 | removing old files one at a time, in any order, leaves what removing them all at once leaves |
| Prune.LongerBelow | diskcache/eviction.go:70-74 | a path below another is longer |
| Prune.UsedHasChild | diskcache/eviction.go:78-82 | a directory with something in use below it is never empty when its turn comes |
| Prune.UnusedIsEmpty | diskcache/eviction.go:78-82 | a directory with nothing in use below it is empty once everything longer has been tried |
| Prune.Tree.PruneEmptyDirs | diskcache/eviction.go:75-83 | for any tree and any order of ties a candidate survives exactly if its subtree holds a file or a directory that is no candidate; no file and no other directory is touched |
| Prune.WalkFiles | diskcache/walk.go:12-39 | classifies exactly: directories except root and tmp are candidates, files directly under tmp are staging files, all other files are entries |
| Prune.PrunedTree | diskcache/eviction.go:50-59 | after a complete walk a directory other than root and tmp is in use exactly if there is a file below it |
| Objects.StartsWithCabMagic | objects/synth.go:154-167 | tells whether the stream begins with the signature however it is fragmented; too short is no cabinet, other read errors are errors |
| Objects.Copy | objects/synth.go:115-119 | mirrors the stream's bytes verbatim or fails |
| Objects.Service.Download | objects/service.go:117-197 | leaves no staging file on any path, publishes exactly the fetched bytes if all went well and nothing otherwise, and reports not-found exactly for an unknown object or a missing blob |
| Objects.Service.Object | objects/service.go:50-82 | opens the cached entry, or the one it downloaded; what is published afterwards, when it opens, and the error otherwise are given for every combination of failures |
| Objects.Service.LookupCompressed | objects/synth.go:64-77 | the mirror if it is there, else the synthesised cabinet, else a miss; the error cases are exact |
| Objects.Service.Encode | objects/synth.go:113-140 | a mirrored copy of a cabinet, or the cabinet around the whole payload; succeeds without faults exactly if the payload can be compressed |
| Objects.Service.Synthesize | objects/synth.go:82-150 | leaves no staging file on any path, adds the mirrored or wrapped form of the object on success, and at most the object on failure |
| Objects.Service.FetchCompressed | objects/synth.go:28-59 | its whole course: which search decides, what is published, and the error if the production is refused; the cache stays consistent, and without faults a file is served exactly if there is a compressed form or the object can be compressed |
| Objects.ServedFilesAreCabinets | objects/synth.go:18-27 | in a consistent cache everything served compressed is a cabinet, and a synthesised one decodes to the requested name and a payload that is no cabinet |
| CabDecoder.RoundTrip | cab/writer.go:40-69 | for every valid name and every payload within the folder limit, decoding the cabinet yields that name and payload; cbCabinet is the file length, cCFData the number of blocks, cbFile the payload length |
| CabRoundTrip.WriteAndExtract | cab/writer.go:40-69 | the streaming writer on an empty file, for every stream and fragmentation: it accepts exactly a valid name with the exact size within the limit, and the reader gets name and payload back, with true header fields |
| CabDecoder.EmitDecodes | cab/mszip.go:43-66 | emitted blocks decode to their payload wherever they sit, each without any other |
| CabDecoder.PreambleReads | cab/writer.go:91-125 | what a reader finds in the fixed structures, field by field |
| CabDecoder.CodecsExist | cab/mszip.go:41-64 | the assumption about the compressor is satisfiable on both branches of the encoder: by one whose output is used, and by one whose output is too long |
| CabDecoder.NameBoundExact | cab/writer.go:210-213 | `cbCabinet` is the length of the cabinet for every compressor and every payload within the limit if and only if the name is within the bound |
| CabFormat.StoredRoundTrip | cab/mszip.go:69-81 | a stored block with its LEN and NLEN inflates to its data |
| CabFormat.PayloadInflates | cab/mszip.go:43-66 | every block payload begins with the signature and inflates to its chunk, whichever branch produced it |
| CabFormat.ChunksExact | cab/writer.go:145-184 | cutting is lossless, gives max(1, ceil(size/32768)) blocks, and all but the last are full |
| CabFormat.ChunksUnique | cab/writer.go:193-207 | full chunks and a last one can be cut from a stream in one way only |
| CabFormat.NoTruncation | cab/writer.go:165-178 | cbData is at most 32775, the block count fits 16 bits and reaches 65535 exactly for the last block's worth of sizes, and the total fits 32 bits for names up to the stated bound |
| CabWriter.SucceedsExactly | cab/writer.go:40-48 | fault-free, the writer succeeds exactly if the name is valid, the size is within the folder limit and the stream yields that many bytes |
| CabWriter.SizeCheckExact | cab/writer.go:186-207 | the size check is right for all declared sizes if and only if no end wrapping `io.EOF` cuts off a partial chunk of a stream short of 65536 chunks |
| CabWriter.TruncatedTailAccepted | cab/writer.go:200-201 | a stream of one byte that ends with an error wrapping `io.EOF` passes as empty |
| CabWriter.FreshOutput | cab/writer.go:209-240 | on an empty output back-patching turns the draft into the finished cabinet |
| CabWriter.StaleTail | cab/writer.go:209-240 | on a longer output the bytes behind the cabinet stay |
| CabWriter.EncodeName | cab/writer.go:74-89 | accepts exactly the non-empty printable names and terminates them |
| CabWriter.MszipWriter.Block | cab/mszip.go:43-67 | the reused buffers leave exactly the payload of this chunk |
| CabWriter.ReadChunk | cab/writer.go:195-207 | a chunk, its end and its error, however the reader fragments |
| CabWriter.StreamBody | cab/writer.go:133-191 | appends exactly the blocks of the stream and returns their number and the cabinet's size, or the error the stream calls for |
| CabWriter.Patch | cab/writer.go:210-240 | overwrites the two fields and leaves the position at the end |
| CabWriter.Write | cab/writer.go:40-69 | on a healthy sink the error is exactly the one the inputs call for; on success the output is the back-patched cabinet, on an empty output exactly `Cabinet` |
| CabWriter.FragmentationIsInvisible | cab/writer.go:133-207 | two fragmentations of one stream give the same error or byte-identical cabinets |
| Streams.ReadFull | cab/writer.go:195-196 | fills the buffer with as many bytes as there are, for every fragmentation, and reports the end as `io.ReadFull` does |
| DebugId.PdbAccepts | symstore/debugid.go:12-25 | accepts exactly 32 or more hexadecimal digits |
| DebugId.PdbExact | symstore/debugid.go:12-33 | two signatures normalise alike exactly if their GUIDs are equal hexadecimal values and their ages equal unbounded numbers |
| DebugId.ElfAccepts | symstore/debugid.go:38-42 | accepts exactly an even number of at least 32 hexadecimal digits |
| DebugId.ElfReversible | symstore/debugid.go:38-54 | undashing, decoding and swapping a debug ID gives back exactly the first 16 bytes of the build ID |
| DebugId.ElfExact | symstore/debugid.go:35-54 | two build IDs share a debug ID exactly if their first 16 bytes agree, whatever their tails |
| DebugId.ElfIgnoresCase | symstore/debugid.go:38-54 | the letter case of a build ID does not matter |
| DebugId.MachExact | symstore/debugid.go:58-67 | dashes and case are all that is forgotten, and the dashed form normalises to itself |
| DebugId.BuildDashUuid | symstore/debugid.go:70-90 | takes exactly 32 hexadecimal digits, and taking out the dashes, which are at four fixed places, gives them back in lower case |
| Text.ScanHex | symstore/debugid.go:92-105 | accepts exactly non-empty hexadecimal text |
| Symstore.Uncompress | symstore/parse.go:123-158 | the table search and builder compute the specified plain form |
| Symstore.LeafShape | symstore/parse.go:118-158 | only a four-character extension ending in an underscore is compressed, and the plain form differs in its last character only |
| Symstore.PlainIsFinal | symstore/parse.go:123-158 | a plain form is neither compressed nor a source bundle, and its leaf can be recovered from it |
| Symstore.FormsMeet | symstore/parse.go:26-57 | a compressed leaf and its plain form give the same request, or both fail, and differ in the serving decision only |
| CacheKeys.FlightKeysExact | objects/service.go:207-210 | flight keys tell apart all requests that paths with given signatures can ask for, if and only if no PE signature among them extends the PE, ELF or Mach-O identity of another by a bar, its file type and a slash |
| CacheKeys.DiskKeysExact | diskcache/key.go:17-50 | the same for the role directories and hashed texts of paths, with a colon, a role and a colon in place of the bar |
| CacheKeys.CleanIdentity | symstore/parse.go:62-111 | every request that is not a PE lookup is keyed by hexadecimal digits and dashes; a PE lookup by its raw signature |
| CacheKeys.CleanIdsSeparate | objects/service.go:203-210 | slots with such identities share a flight key or a hashed text only if they are the same |
| CacheKeys.ParsedRequestsSeparate | symstore/parse.go:26-57 | two parsed requests that are no PE lookups share a flight or a file exactly if role and cache key agree |
| CacheKeys.AskedFor | symstore/parse.go:26-83 | the type of a request that a path can ask for determines the end of its file name, and all but PE requests have identities of hexadecimal digits and dashes |
| CacheKeys.PeKeysCollide | symstore/parse.go:76-82 | two PE paths, both with equal names as the handler demands, whose requests share a flight although their files lie apart |
| CacheKeys.PePathsCollide | diskcache/key.go:17-27 | two PE paths whose different requests lie at one path |
| CacheKeys.PathsSeparate | diskcache/key.go:33-50 | where the hash does not collide and neither identity nests in the other, distinct slots have distinct paths, and no entry lies in the staging directory |
| CacheKeys.BuildPaths | diskcache/key.go:17-50 | the paths that are built for two such slots are equal only if the slots are, and lie under the root and outside its staging directory |
| CacheKeys.KeyNamesFile | objects/service.go:199-205 | a cache key determines the file name and the file type |
| CacheKeys.FileOfKey | objects/service.go:203-205 | the name embedded in the cabinet can be read back from the cache key |
| Resolver.RankOrder | resolver/sentry.go:162-169 | the comparison is a total preorder whose ties agree on quality and hash |
| Resolver.ComputeQuality | resolver/sentry.go:189-202 | the score variable ends at the specified quality |
| Resolver.Pick | resolver/sentry.go:142-172 | returns a least candidate by quality and hash among exactly the matching ones on the right side of the bundle divide, or nothing if there is none |
| Resolver.PickOrderIndependent | resolver/sentry.go:162-171 | permuting the candidates changes neither the hash nor the quality of the choice, wherever the sort leaves ties |
| Resolver.StorageKeyInjective | resolver/sentry.go:217-236 | the blob key determines the hash |
| Resolver.Choose | resolver/sentry.go:126-135 | finds a location exactly if the best hash is long enough |
| Resolver.ShortHashShadows | resolver/sentry.go:126-129 | a too short hash is preferred to a usable one of equal quality |

## Left out

- The HTTP layer, server lifecycle, status labels, configuration, logging, histograms and all metrics but the two cache gauges and the coalesced counter.
- Sentry's HTTP and JSON, S3, and `objects/sourcebundle.go`; the resolver and the fetcher are outcomes: not found, failure, a partial transfer and then a failure, a complete payload.
- The deflate algorithm: any deterministic pair of functions where inflating undoes deflating and understands stored blocks.
- SHA-256: a function to 64 digits; where distinct paths matter, that it does not collide on the two texts at hand is assumed.
- `slices.SortFunc`: some sorted permutation; for the pruning the order is any that is sorted by length.
- ProtocolSafety.GaugesRefineTheWalk: the gauges are integers, not `float64`; each commit's rename and gauge updates are one step.
- ProtocolSafety.CommittedFilesAreComplete: flights and entries of the state machine are keyed by role and cache key; requests that share a text, which only PE signatures with a bar or a colon can bring about, are outside this and the other results about runs (ProtocolTexts.TextsDecideExactly).
- Staging names and inode numbers are never reused while the model runs, and the clock does not go back.
- A failing write to the sink leaves it unchanged, where a file might take part of the bytes.
- Failing removals of staging files, and permissions, symbolic links, full disks and durability below the rename.
- `MkdirAll` racing with the pruning of the same directory is one of the ways in which a commit may fail.
- `WithoutCancel`: callers do not give up while they wait, and panics in closures are not modelled.
- The clock is read at some time between a lookup and its touch; a touch that fails does nothing.
- `Probe`, `RunEviction`'s ticker and the metric updates at the end of a sweep.
- Unicode: identifiers and names are ASCII, folded as such.
- ServiceRuns.ObjectIsARun: the gauges are not compared.
- Objects.Copy: writes at the end of its output only, because it is called on a new file.
