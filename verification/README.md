# Verified model of the Zeno content pipeline

This project models the content-addressed storage pipeline of `zeno_client` and the two canonicalizers that
feed it, and proves what the pipeline promises. A file is cut into chunks or dictionary patches, described by a
manifest, uploaded to a content-addressed store and registered as a version; a local cache turns the version
back into the file.

`dafny verify dfyconfig.toml` checks everything.

| file | models |
|---|---|
| `Base.dfy`, `Bits.dfy`, `Text.dfy` | bytes, options, JSON values; masks and modular arithmetic; `strip`/`lower` |
| `World.dfy` | the foreign primitives (BLAKE3, gear table, entropy, zstd, JSON text) and the laws theorems name |
| `Chunking.dfy`, `ChunkingTheory.dfy` | the content-defined chunker and its tiling, size, locality and re-synchronisation laws |
| `Entropy.dfy` | entropy windows and their merge |
| `Manifest.dfy`, `ManifestTheory.dfy` | manifests as JSON values: builders, parser, inverse laws |
| `Cas.dfy`, `Materialize.dfy`, `Ingest.dfy` | the store, replaying segments, omni ingest |
| `Publisher.dfy` | the four publish routes, version registration, review sequences |
| `Places.dfy` | names, places and the paths they resolve to |
| `CacheIndex.dfy`, `LocalCache.dfy` | the index table, eviction, and the cache used by one process |
| `CacheProtocol.dfy` | the cache directory shared by any number of processes that may crash |
| `EndToEnd.dfy` | publish, then load |
| `Blender.dfy`, `BlendFiles.dfy` | pointer zeroing in `.blend` files; a writer of such files and what zeroing does to what it writes |
| `MayaLines.dfy`, `MayaPatterns.dfy` | the matchers for Maya ASCII lines, and the regular expressions they are proved to match |
| `Maya.dfy`, `MayaTheory.dfy`, `MayaMeaning.dfy`, `MayaAnchors.dfy` | the line machine, its idempotence, what it removes and keeps, its chunk anchors |

Loops of the source are methods with loops, proved equal to a specification function (`IterChunks` to
`FileChunks`, `Canonicalize` to `CanonicalText`, `EvictIfNeeded` to `Evict`); objects the source updates in place
are classes. The theorems are then about the specification functions.

## What is assumed

- The hash is collision-free and its digests are non-empty lower-case hexadecimal (`World.Sound`); digests have no
  fixed length, because a collision-free hash of fixed length does not exist.
- `decompress(d, compress(d, x)) == x`, and `json.loads` inverts `json.dumps`. The gear table, the entropy of a
  window and the trained dictionary are arbitrary functions.
- `min` and `max` of a chunking configuration are not negative. Publishing and ingest ask for `max >= 1`, because with
  `max == 0` every read is empty and the chunker returns nothing (`ChunkingTheory.ChunksDescribe`).
  Ingest asks for a window of at least one byte for the same reason.
- JSON text round trips for documents whose decimals are the printed forms of floats (`World.Printable`).
- Hash verification is on, which is the default.
- The file system is a POSIX one without symbolic links inside the cache, names are case-sensitive, and writing does
  not fail for want of space or length of names.
- Statements about the cache hold for *plain* places: the id is a digest, the name one directory entry that is neither
  `.lock` nor a temporary. A manifest is *contained* when its file's place is plain and its chunks are named by
  digests. The code checks none of this. A request for any other name, or through any other manifest, is modelled as
  having an arbitrary effect (`LocalCache.Elsewhere`), so nothing is promised about it; `Places` shows where such names lead.
- The processes of `CacheProtocol` request plain places through contained manifests.
- Loading what was published (`EndToEnd`) asks for a store that answers and HEAD requests that report a length. It
  starts from any valid cache.
- Requests of an unhealthy store may be lost before or after they took effect, and downloads may deliver anything.
  Safety statements (nothing dangles, nothing unverified is published) are proved for such stores too.
- One publisher at a time writes the modelled store; any number of processes share the modelled cache directory.

## Facts about the code that the proofs brought out

- A file name is joined to the cache directory as it comes. It names the file meant iff it is one plain directory entry
  (`Places.OwnFileIffPlain`). Under `../x` every digest shares one file, so that content verified for one is found for
  another without a check (`Places.ForeignHit`); `/etc/passwd` and the id `manifests` lead to foreign files
  (`Places.StrayNames`, `Places.StrayId`), `sub/f.bin` into a directory nobody creates, and `.lock` to the lock file itself
  (`Places.LockApart`).
- A load while HEAD fails may store a manifest under its own id. Where sizes are not checked, or the manifest happens
  to have the size of the file, later loads return the manifest (`EndToEnd.StrayManifest`); `EndToEnd.Load` states this as an
  iff on the hit, and where sizes are checked no other cache content matters (`EndToEnd.SizeMeansNoHit`).
- A dictionary patch written without a parent id is rejected by the parser, so the cache takes the manifest for a
  plain blob: the caller gets its bytes, or a size mismatch (`ManifestTheory.V3Rejected`, `EndToEnd.V3Loads`). The
  streaming materializer still rebuilds the file from the same manifest (`Ingest.IngestedMaterializes`).
- A manifest over 256 KiB is taken for a plain blob in the same way (`EndToEnd.V2Loads`, `EndToEnd.PublishThenLoad`).
- Re-building and re-parsing an accepted manifest is not always a fixpoint: the builders always write `blake3`,
  zeros among the chunking numbers come back as defaults, and version 1 needs a file hash
  (`ManifestTheory.ReparseFixpoint` gives the exact condition, `ManifestTheory.ReparseLosesHashAlgo` an instance).
- `iter_chunks` gives one empty chunk for an empty file where `iter_chunks_in_range` gives none
  (`ChunkingTheory.WholeFileIsRange`).
- The Maya canonicalizer is idempotent on a text iff no line that begins with a byte-order mark stands outside every
  swallowed string with only dropped or swallowed lines before it (`MayaTheory.CanonicalIdempotent`): such a mark
  comes out first and the next decoding drops it, as with a text of two marks (`MayaTheory.TwoMarks`).
- The half-and-half fallback of `_zstd_training_samples` is never reached (`Ingest.SamplesPartitionParent`).
- Chunk temporaries of one hash are shared by all processes without a common lock, so chunk files cannot be trusted
  concurrently; the protocol's safety rests on the hash of the assembled file (`CacheProtocol.RunIsSafe`).
- The bytes of the manifest that `_ensure_from_manifest` downloads are not compared with its id; only the
  assembled file is verified.
- `zeno_client/manifest.py` still names its parsed type `ManifestV1`; the parser accepts versions 1 to 3, and the model
  follows the parser.

## Model

| member | source | states |
|---|---|---|
| Bits.MasksAreLowOnes | zeno_client/chunking.py:38-55 | mask_small is k low ones and mask_large k-1 low ones, for k-1 between 8 and 24; the 64-bit clamp cuts neither |
| Bits.ExponentIsMaskBits | zeno_client/chunking.py:38-43 | the exponent of the masks is the n with 2^n <= avg < 2^(n+1), kept between 8 and 24, for every average |
| Chunking.FindCut | zeno_client/chunking.py:162-205 | the two scanning phases with one running hash find the smallest usable forced cut, else the first position whose hash from `min` vanishes under its phase's mask, else the buffer's end |
| Chunking.ScanPhase | zeno_client/chunking.py:190-202 | one phase stops at the first natural cut of its part or hands the right running hash to the next phase |
| Chunking.ChunkLoop | zeno_client/chunking.py:80-108 | reading, cutting and seeking back over the unread tail yields exactly the recursive chunking of the range |
| Chunking.IterChunks | zeno_client/chunking.py:58-108 | the whole-file iterator is `FileChunks`, one empty chunk for an empty file |
| Chunking.IterChunksInRange | zeno_client/chunking.py:111-159 | the range iterator is `RangeChunks`, for any start, length and base offset, in or out of the file |
| ChunkingTheory.NaturalCutIsDivisibility | zeno_client/chunking.py:45-55 | a position is a natural cut iff the hash up to it is divisible by 2^n, by 2^(n+1) before the middle, which makes early cuts rarer |
| ChunkingTheory.GearHashIsSum | zeno_client/chunking.py:190-202 | the rolling hash is the sum of the bytes' gear values, each times a power of two for its distance from the end, modulo 2^64 |
| ChunkingTheory.NaturalCutRule | zeno_client/chunking.py:182-202 | with 2^n <= avg < 2^(n+1), position c is a natural cut iff the hash from `min` to c is divisible by 2^(n+1) when 2c <= min + max, by 2^n behind |
| ChunkingTheory.CutByRule | zeno_client/chunking.py:162-205 | without forced cuts the cut is the least position this rule allows, the buffer's end when there is none |
| ChunkingTheory.CutIsTheFirst | zeno_client/chunking.py:162-205 | the cut is the smallest forced cut in reach; without one, the first natural cut behind the minimum or the buffer's end |
| ChunkingTheory.ChunksDescribe | zeno_client/chunking.py:80-108 | chunks tile the range without gap or overlap and carry the hash of their bytes, iff `max > 0` or the range is empty |
| ChunkingTheory.FileChunksName | zeno_client/chunking.py:58-108 | the chunks of any file, the empty one included, name its bytes in order |
| ChunkingTheory.ChunkSizes | zeno_client/chunking.py:162-205 | every chunk has size in [1, max], every chunk but the last at least min(min, max) |
| ChunkingTheory.ChunkCount | zeno_client/chunking.py:80-108 | a non-empty range of N bytes has between ceil(N/max) and ceil(N/min) chunks |
| ChunkingTheory.ChunksMove | zeno_client/chunking.py:111-159 | chunking depends only on the range's bytes and the forced cuts inside it; moving the range shifts the offsets |
| ChunkingTheory.WholeFileIsRange | zeno_client/chunking.py:58-159 | the two iterators agree on a file iff it is not empty |
| ChunkingTheory.SegmentCopyRoute | zeno_client/omni_ingest.py:53-78 | chunking a copied segment with its base offset and pre-filtered forced cuts equals chunking that range of the original file |
| ChunkingTheory.ChunksAfter | zeno_client/chunking.py:80-108 | every chunk is the first cut of what lies behind its start, and the rest is the chunking of what lies behind its end |
| ChunkingTheory.Resynchronise | zeno_client/chunking.py:80-108 | two files with a common suffix and a boundary at the same place in it have the same chunks from there on, offsets shifted |
| ChunkingTheory.GearIsLocal | zeno_client/chunking.py:190-202 | modulo 2^j the gear hash depends on the last j bytes only, despite the carry |
| ChunkingTheory.MaskedHashIsLocal | zeno_client/chunking.py:190-202 | under a mask of k low ones the hash is a function of the last k bytes |
| ChunkingTheory.AnchorIsNatural | zeno_client/chunking.py:190-202 | k bytes that hash to 0 modulo 2^k are a cut in either phase, min+k or more from the chunk start |
| ChunkingTheory.NoAnchorInsideAChunk | zeno_client/chunking.py:45-55 | without forced cuts no such position lies strictly inside a chunk at distance min+k or more |
| ChunkingTheory.AnchorResynchronises | zeno_client/chunking.py:58-108 | after an edit both chunkings cut at the next such position that is far enough from their chunk starts, and agree from there on |
| ChunkingTheory.CutStopsAtForced | zeno_client/chunking.py:184-189 | a first chunk does not run past a forced cut at distance min or more |
| ChunkingTheory.NoForcedCutInsideAChunk | zeno_client/chunking.py:147-152 | over a whole chunking no forced cut lies strictly inside a chunk at distance max(1, min) or more |
| Entropy.MergeAdjacentSegments | zeno_client/entropy_segment.py:68-84 | the in-place merge loop is the left fold that widens the last segment |
| Entropy.ScanEntropySegments | zeno_client/entropy_segment.py:51-65 | the window scan followed by the merge is `EntropySegments` |
| Entropy.MergeKeeps | zeno_client/entropy_segment.py:68-84 | merging keeps the cover and every byte's mode and leaves no two neighbours with the same mode |
| Entropy.MergeIdempotent | zeno_client/entropy_segment.py:68-84 | merging any list twice is merging it once, recorded entropies included |
| Entropy.ScanIsCoarsest | zeno_client/entropy_segment.py:51-84 | the segments cover the file exactly, alternate in mode, and give each byte the mode of its window |
| Entropy.CoarsestIsUnique | zeno_client/entropy_segment.py:51-84 | any partition with those properties has the same extents and modes |
| Entropy.InnerBoundariesAligned | zeno_client/entropy_segment.py:51-65 | inner boundaries are multiples of the window size |
| Entropy.SegmentThresholds | zeno_client/entropy_segment.py:43-65 | every byte of a low segment lies in a window of entropy at most the low threshold, of a high one at least the high threshold, of a middle one between them, and conversely |
| Entropy.MergeOneMore | zeno_client/entropy_segment.py:68-84 | one more segment widens the last merged one, with the mean entropy, iff it has its mode and touches it |
| Manifest.ParseManifest | zeno_client/manifest.py:160-252 | the parsing loops compute `TryParse`, failing on exactly the documents it fails on |
| Manifest.CollectSegments | zeno_client/manifest.py:190-237 | the version 3 loop keeps `chunks` equal to the raw segments in order and fails at the first bad entry |
| Manifest.CollectChunks | zeno_client/manifest.py:178-189 | the chunk loop accepts a list iff every entry parses, in order |
| ManifestTheory.V1RoundTrip | zeno_client/manifest.py:62-92 | with a file hash, parse(build(x)) == x iff the chunking numbers are not zero and the chunk hashes normal |
| ManifestTheory.V2RoundTrip | zeno_client/manifest.py:95-118 | parse(build(x)) == x iff the parts are in normal form |
| ManifestTheory.V3RoundTrip | zeno_client/manifest.py:121-147 | the same for version 3; `chunks` are the raw segments in order; a patch survives only with a non-empty parent id |
| ManifestTheory.V2Parses | zeno_client/manifest.py:160-252 | whatever the chunking numbers, well-formed chunks are accepted unchanged |
| ManifestTheory.V3Parses | zeno_client/manifest.py:160-252 | whatever the chunking numbers, well-formed segments are accepted unchanged |
| ManifestTheory.V3Rejected | zeno_client/manifest.py:214-223 | one patch with an empty parent id makes the whole manifest unparseable |
| ManifestTheory.ParsedIsAccepted | zeno_client/manifest.py:160-252 | every accepted manifest has normalized non-empty ids, sizes and ranges in order, and chunks that are the raw segments |
| ManifestTheory.ReparseFixpoint | zeno_client/manifest.py:62-252 | re-building and re-parsing an accepted manifest changes nothing iff it names blake3, no chunking number is zero, and a version 1 manifest has a file hash |
| ManifestTheory.ReparseLosesHashAlgo | zeno_client/manifest.py:95-118 | a document that re-building changes |
| ManifestTheory.DocumentRead | zeno_client/manifest.py:168-252 | what each field of any accepted document becomes, present, empty or missing: the defaults, the folding of ids, and the deprecated `whole_file_sha256` |
| ManifestTheory.ChunkRead | zeno_client/manifest.py:182-189 | a chunk entry is accepted iff its id, trimmed and folded, is not empty and its size not negative |
| ManifestTheory.RawSegmentRead | zeno_client/manifest.py:199-205 | the same for a raw segment, its kind trimmed and folded |
| ManifestTheory.PatchRead | zeno_client/manifest.py:206-235 | a patch entry is accepted iff its three ids are not empty, its range in order and its sizes not negative |
| ManifestTheory.OtherSegmentRefused | zeno_client/manifest.py:236-237 | a segment of any other kind is refused |
| Text.NormalizeIdempotent | zeno_client/client.py:397 | `strip().lower()` applied twice is the same as once, so ids may be normalized at every layer |
| Text.NormalizeMeaning | zeno_client/client.py:397 | a normalized id is what lies between the surrounding blanks, its capital letters made small |
| Cas.Store.UploadBytes | zeno_client/client.py:425-433 | a body is stored under its key only if it hashes to the key; a failed call may still have stored it, nothing else changes |
| Cas.UploadMissing | zeno_client/omni_ingest.py:207-210 | check-then-upload leaves the body stored and reports an upload iff the store grew |
| Materialize.MaterializeFromManifestV3 | zeno_client/omni_ingest.py:294-326 | the streaming loop writes the concatenation of what the segments stand for, or fails; any schema but version 3 fails, and the parent bytes have no influence |
| Materialize.ReplayMonotone | zeno_client/omni_ingest.py:306-325 | adding blobs to the store never changes what a manifest stands for |
| Materialize.MaterializersAgree | zeno_client/cache.py:234-271 | on every accepted manifest the cache's assembly and the streaming materializer stand for the same bytes or both fail |
| Ingest.SamplesPartitionParent | zeno_client/omni_ingest.py:81-94 | a parent of two bytes or more gives at least two non-empty samples that partition it |
| Ingest.SamplesAt | zeno_client/omni_ingest.py:81-94 | the samples are consecutive slices of one length: the parent over 8 to 256 pieces of about 4 KiB, at most the largest chunk |
| Ingest.PatchIff | zeno_client/omni_ingest.py:97-116 | a segment becomes one patch, against the dictionary trained on the parent's bytes at the same offsets, iff it is high-entropy, zstd is there, at least two such bytes exist and training succeeds; otherwise its chunks |
| Ingest.IngestChunk | zeno_client/omni_ingest.py:205-211 | one chunk extends the replayed prefix and is listed; its upload is counted among the chunks iff the store grew |
| Ingest.IngestRaw | zeno_client/omni_ingest.py:200-212 | the raw branch appends the segment's chunks in order and extends the replayed prefix to the segment's end |
| Ingest.IngestPatch | zeno_client/omni_ingest.py:235-256 | the patch branch does the same with one patch and lists no chunk; both blobs are stored and counted as auxiliary |
| Ingest.IngestSegment | zeno_client/omni_ingest.py:199-256 | the branch is decided by mode, parent and codec, and either way the replayed prefix reaches the segment's end |
| Ingest.IngestSegments | zeno_client/omni_ingest.py:194-256 | for every file, segmentation and forced cuts: the segments replay to the file, their sizes sum to its size, and uploads counted equal the growth of the store |
| Ingest.IngestOmniFile | zeno_client/omni_ingest.py:119-291 | the manifest blob is exactly the version 3 document of those segments, the hash of what is rebuilt and the metadata; it is the only uncounted growth |
| Ingest.OmniFields | zeno_client/omni_ingest.py:264-276 | the metadata records the thresholds and window in force, by default 4.9, 7.2 and 16 KiB, and the identity of the file on disk |
| Ingest.IngestedMaterializes | zeno_client/omni_ingest.py:294-326 | materializing the stored manifest gives the ingested bytes, for every choice of patch or fallback, with or without parent id |
| Publisher.StoredIsHeld | zeno_client/publisher.py:151-192 | a finished omni ingest leaves every chunk, dictionary and patch its manifest names in the store |
| Publisher.StoredV2IsHeld | zeno_client/publisher.py:226-252 | a finished version 2 upload leaves every chunk its manifest names in the store |
| Publisher.NoDanglingMonotone | zeno_client/publisher.py:226-266 | uploads never make a registered version dangle |
| Publisher.UploadChunks | zeno_client/publisher.py:226-240 | re-reading each chunk by offset uploads exactly the missing hashes, each once, and they concatenate to the file |
| Publisher.PublishWholeFile | zeno_client/publisher.py:52-81 | one blob, uploaded iff missing, registered under its hash; a failure before registering registers nothing |
| Publisher.PublishChunkedV2 | zeno_client/publisher.py:226-276 | chunks, manifest, registration in that order; the counts are the missing hashes; at any failure no version dangles |
| Publisher.PublishOmni | zeno_client/publisher.py:151-224 | the version points at the manifest, or at the raw blob with the manifest beside it when the file was canonicalized |
| Publisher.RegisterDual | zeno_client/publisher.py:167-203 | the delivery blob is stored before the version that names it and the dedup manifest is registered |
| Publisher.PublishChunkedFile | zeno_client/publisher.py:84-276 | on every route and at every failure the store only grows and no version dangles; at most one version is added, and it is the one the request's fields ask for: the file, a version 2 manifest of it without omni, a version 3 manifest of it with omni, or the file with a version 3 manifest of its canonical bytes beside it |
| Publisher.PublishedIsRegistered | zeno_client/publisher.py:119-276 | the registered blob, decoded, has the schema, names, chunking, chunk list and parent ids that the request's fields imply |
| Publisher.StrategyIsKnown | zeno_client/publisher.py:37-49 | whatever the server answers, the strategy is whole iff the caller or, unless the caller asks for chunks, the server says so; and the reason recorded |
| Publisher.PublishTwice | zeno_client/publisher.py:226-240 | publishing the same file over version 2 a second time uploads no chunk |
| Publisher.SubmitReviewSequence | zeno_client/client.py:249-268 | every frame is stored and listed with its number, hash, size and name; uploaded plus skipped are the totals; the uploaded frames are the distinct hashes the store lacked, the uploaded bytes the growth of the store |
| Publisher.UploadUnsent | zeno_client/client.py:258-264 | a frame already sent or stored is skipped, any other is uploaded |
| Places.OwnFileIffPlain | zeno_client/cache.py:62-65 | under a digest the path of a place is its file in its directory iff the name is one plain directory entry |
| Places.PlacesAreFiles | zeno_client/cache.py:62-65 | different places with plain names are different files |
| Places.OwnFileNotReserved | zeno_client/cache.py:158-161 | no such file is a chunk file, a stored manifest or the index |
| Places.LockApart | zeno_client/cache.py:89-90 | no published file is a lock file; the name ".lock" would be |
| Places.TemporariesDiffer | zeno_client/cache.py:109-115 | temporaries of different names or different writers are different files |
| Places.StrayNames | zeno_client/cache.py:183-186 | where "../x", an absolute, a nested and an empty name lead |
| Places.ForeignHit | zeno_client/cache.py:67-69 | content verified for one digest under "../x" is what another digest finds there |
| Places.StrayId | zeno_client/cache.py:183-184 | an id that is no digest can lead to a stored manifest |
| Places.ChunkPathStays | zeno_client/cache.py:199-202 | a chunk named by a digest has its own file below the chunk directory |
| Places.StrayChunk | zeno_client/cache.py:199-202 | a chunk name that is no digest can lead anywhere |
| CacheIndex.Index.UpsertEntry | zeno_client/cache_index.py:46-60 | the row is as given and used now, an existing row keeps its creation time, and no other row changes |
| CacheIndex.UpsertedIsWritten | zeno_client/cache_index.py:46-60 | the table after an upsert, field by field |
| CacheIndex.Index.TotalSizeBytes | zeno_client/cache_index.py:74-77 | the sum of the row sizes, in whatever order rows are visited |
| CacheIndex.Index.EvictionCandidates | zeno_client/cache_index.py:98-121 | the `limit` least recently used unprotected rows, in order |
| CacheIndex.CandidatesAreOldest | zeno_client/cache_index.py:98-121 | each listed row is unprotected and older than every unlisted unprotected row, and rows are missing only when the limit is reached |
| CacheIndex.Index.SelectOldest | zeno_client/cache_index.py:98-121 | the least recently used unprotected row, none iff all rows are protected |
| CacheIndex.SumRemove | zeno_client/cache_index.py:74-77 | deleting a row lowers the total by its size |
| CacheIndex.EvictStops | zeno_client/cache.py:346-380 | eviction only removes rows, keeps protected ones, and ends under the cap or with protected rows only |
| CacheIndex.EvictIsLru | zeno_client/cache.py:346-380 | no evicted row was used later than a surviving unprotected one |
| CacheIndex.EvictIsMinimal | zeno_client/cache.py:346-380 | with the last evicted row the total was still over the cap |
| CacheIndex.UsedLaterOutlives | zeno_client/cache.py:346-380 | a row survives eviction while an unprotected row last used before it does |
| LocalCaches.EvictHead | zeno_client/cache.py:359-364 | while the total is over the cap the next candidate of a batch is the row one-at-a-time eviction removes |
| LocalCaches.LocalCache.EvictEntry | zeno_client/cache.py:365-379 | the row goes; its file goes when the file system removes it, and no other file is touched |
| LocalCaches.LocalCache.EvictBatch | zeno_client/cache.py:362-380 | one batch performs a prefix of one-at-a-time eviction and makes progress |
| LocalCaches.LocalCache.EvictIfNeeded | zeno_client/cache.py:346-380 | the batched loop ends and leaves exactly the rows of one-at-a-time eviction; files vanish only with their row, and with it where unlinking works |
| LocalCaches.LocalCache.TouchIndex | zeno_client/cache.py:382-390 | the row records the file's real size and place and is used now |
| LocalCaches.LocalCache.Touch | zeno_client/cache.py:343-344 | only the access time of one row changes and the cache stays valid |
| LocalCaches.LocalCache.VerifyTmp | zeno_client/cache.py:117-138 | a temporary passes iff its size, when checked, and its hash are right; otherwise it is deleted |
| LocalCaches.LocalCache.PublishTmp | zeno_client/cache.py:290 | renaming a verified temporary keeps every invariant of the cache |
| LocalCaches.LocalCache.RecordAndEvict | zeno_client/cache.py:151-152 | after recording and evicting the index is within a positive cap or holds only the new row, and the new file is still there |
| LocalCaches.LocalCache.DownloadBlob | zeno_client/cache.py:97-154 | at a plain place nothing unverified is published whatever the server sends; with a healthy store and the right size it succeeds |
| LocalCaches.LocalCache.StoreBlob | zeno_client/cache.py:296-341 | the same from bytes at hand, succeeding at a plain place when they hash to the id and have the expected size |
| LocalCaches.LocalCache.FetchChunks | zeno_client/cache.py:198-223 | on success every chunk file is present and verified, whatever was there before |
| LocalCaches.LocalCache.Assemble | zeno_client/cache.py:225-271 | with a store that backs the manifest the temporary holds exactly what the pieces stand for |
| LocalCaches.LocalCache.Rebuild | zeno_client/cache.py:193-294 | through a contained manifest the assembled file is published only if it hashes to the manifest's file hash, and is when the store backs the manifest |
| LocalCaches.LocalCache.EnsureFromManifest | zeno_client/cache.py:156-294 | the file of a contained manifest is found or rebuilt at the place the manifest names, or the call fails; without a manifest nothing changes |
| LocalCaches.LocalCache.EnsureCached | zeno_client/cache.py:59-154 | at plain places and through contained manifests every returned file hashes to its directory, whatever the server sends; a hit changes no file and refreshes its row; a download leaves the index within the cap; a small manifest yields its file, anything else the blob, a failed HEAD included, iff the size fits; an absent blob is an error |
| LocalCaches.LocalCache.HitThenRequest | zeno_client/cache.py:67-69 | a file just hit is not evicted by the next request while an unprotected file last used before the hit stays |
| LocalCaches.PiecesFetched | zeno_client/cache.py:198-271 | the chunk list of an accepted manifest covers every raw piece the assembly reads |
| EndToEnd.WrittenSurvives | zeno_client/omni_ingest.py:245-256 | everything ingest writes passes the parser when no patch lacks a parent id |
| EndToEnd.V2Loads | zeno_client/cache.py:74-85 | the cache recognises a published version 2 manifest iff it is at most 256 KiB, and can then rebuild the file |
| EndToEnd.V3Loads | zeno_client/cache.py:74-85 | the cache recognises an omni manifest iff it is at most 256 KiB and no patch lacks a parent id, and can then rebuild the source |
| EndToEnd.PublishedLoads | zeno_client/publisher.py:119-276 | for each route, what the registered blob means to the cache; a plainly named file gives a contained manifest |
| EndToEnd.Load | zeno_client/cache.py:59-154 | from any valid cache a plainly named published file comes back iff it is deliverable: on a hit iff the blob is the file, otherwise iff a whole blob reads as no small manifest, or a manifest is small and no patch lacks a parent id |
| EndToEnd.SizeMeansNoHit | zeno_client/cache.py:392-402 | where sizes are checked, a manifest of another size than its file is never a hit for it, in any valid cache |
| EndToEnd.StrayManifest | zeno_client/cache.py:74-102 | a cache without size checks in which a load after a failed HEAD keeps returning the manifest |
| EndToEnd.PublishThenLoad | zeno_client/publisher.py:84-276 | publish then load is the identity on every route, for plain names and from any valid cache, iff the file is deliverable; where sizes are checked the cache's content has no influence |
| CacheProtocol.StepFrame | zeno_client/cache.py:97-154 | outside the directory its process has locked a step changes no temporary |
| CacheProtocol.StepOwn | zeno_client/cache.py:109-149 | a process's own temporary stays what it hashed, and only verified bytes are published, by each of the three writers |
| CacheProtocol.StepKeepsInv | zeno_client/cache.py:97-154 | every step of every process, evictions without the lock included, keeps the invariant |
| CacheProtocol.RunKeepsInv | zeno_client/cache.py:97-154 | the invariant holds in every state of every run |
| CacheProtocol.RunIsSafe | zeno_client/cache.py:97-341 | in every reachable state at most one process is in a directory's section, and every published file hashes to its directory's id |
| CacheProtocol.RunStaysInside | zeno_client/cache.py:62-65 | in every reachable state different places are different files, each directly in its digest's directory and none of them bookkeeping of the cache |
| CacheProtocol.PublishedNeverChanges | zeno_client/cache.py:140-149 | over a whole run a published file is never seen with two different contents |
| CacheProtocol.VerifiedStaysVerified | zeno_client/cache.py:128-149 | between the hash check and the rename no other process can change the verified bytes |
| CacheProtocol.CanPublish | zeno_client/cache.py:97-154 | the protocol is not stuck: from every state with the lock free, an idle process sent the right bytes can publish them |
| Blender.ZeroPointers | blender/canonicalize.py:110-153 | the block walk yields the input with every walked pointer field zeroed, cut to the kept length, and counts the blocks |
| Blender.SameWalk | blender/canonicalize.py:110-153 | overwriting pointer fields or dropping the leftover does not change which blocks are walked |
| Blender.ZeroingIdempotent | blender/canonicalize.py:110-153 | zeroing twice is zeroing once, with the same block count |
| Blender.ZeroedAbi | blender/canonicalize.py:91-103 | the output parses to the same ABI |
| Blender.ZeroedLength | blender/canonicalize.py:127-153 | the output is shorter by less than one block header, and not at all iff the walk ends at the end or with room for a header |
| Blender.ZeroingIsCanonical | blender/canonicalize.py:110-153 | with equal ABI, two inputs have equal outputs iff they keep equally many bytes and agree on them outside walked pointer fields |
| Blender.ZeroingIsCanonicalWhole | blender/canonicalize.py:110-153 | when neither input loses its tail: iff they agree on every byte outside walked pointer fields |
| Blender.CanonicalizeIdempotent | blender/canonicalize.py:160-196 | canonicalizing the canonical bytes, ABI parsed anew, gives them back |
| BlendFiles.HeaderAbi | blender/canonicalize.py:91-103 | the pointer size, byte order and header length read from each of the headers Blender writes |
| BlendFiles.ReadU32 | blender/canonicalize.py:135 | a size written in either byte order is read back |
| BlendFiles.TailStops | blender/canonicalize.py:128-141 | the walk stops at the end marker, at a block longer than what is left and at a leftover too short for a header |
| BlendFiles.WrittenIsZeroed | blender/canonicalize.py:91-153 | for every header, both pointer sizes and byte orders, zeroing a written file is writing the same blocks with zero pointers, each counted once |
| MayaLines.ClosesIffScanned | maya/canonicalize.py:215 | the closing regular expression agrees with a forward scanner that tracks escapes |
| MayaPatterns.RunIff | maya/canonicalize.py:41-99 | the regular expressions need no backtracking: a match, if there is one, is the greedy one, groups included |
| MayaPatterns.UuidRenameIff | maya/canonicalize.py:56-58 | the matcher finds exactly the matches and groups of the expression for `rename -uid` |
| MayaPatterns.WorkspaceFrIff | maya/canonicalize.py:61-63 | the same for `workspace -fr` |
| MayaPatterns.ScriptNodeCreateIff | maya/canonicalize.py:66-68 | the same for the two volatile script nodes |
| MayaPatterns.SetAttrStringIff | maya/canonicalize.py:72-74 | the same for the string attributes of a script node |
| MayaPatterns.PluginPayloadIff | maya/canonicalize.py:83-85 | the same for payloads; the lazy `.*?` makes it the match with the earliest `-type` |
| MayaPatterns.RequiresMayaIff | maya/canonicalize.py:42-45 | the same for `requires maya`, letter case ignored |
| MayaPatterns.FileInfoIff | maya/canonicalize.py:97-99 | the same for `fileInfo` and its key |
| MayaPatterns.LastModifiedIff | maya/canonicalize.py:46-49 | a line is dropped as a last-modified comment iff the expression matches, word boundary included |
| MayaPatterns.CreatedByMayaIff | maya/canonicalize.py:50-53 | the same for the created-by comment |
| MayaPatterns.MayaAsciiHeaderIff | maya/canonicalize.py:41 | the same for the header comment |
| Maya.Canonicalize | maya/canonicalize.py:174-308 | the loop over lines with its flags computes `CanonicalText` |
| Maya.HandleLine | maya/canonicalize.py:213-306 | one loop body moves the flags and emits a line as the line machine does, in every state |
| MayaTheory.UuidFixed | maya/canonicalize.py:234-238 | a rewritten rename line is rewritten to itself |
| MayaTheory.StringPlaceholderFixed | maya/canonicalize.py:254-266 | a script node placeholder is passed on unchanged |
| MayaTheory.PayloadFixed | maya/canonicalize.py:268-279 | a shortened plugin payload is recognised again and shortened to itself |
| MayaTheory.TidyFixed | maya/canonicalize.py:281-300 | each normalized header, comment, requires and fileInfo line is passed on unchanged in every state |
| MayaTheory.PlainStepFixed | maya/canonicalize.py:230-306 | an emitted line, met again, is emitted again with the same next state; a line that emits nothing leaves the script flag alone |
| MayaTheory.ProcessIdempotent | maya/canonicalize.py:213-306 | over all line sequences and from every state, unterminated strings and payloads included, processing the output changes nothing |
| MayaTheory.SplitJoin | maya/canonicalize.py:196-308 | splitting joined lines gives the lines back |
| MayaTheory.FixedIffNoBom | maya/canonicalize.py:194 | canonical text is canonical iff it does not begin with a byte-order mark |
| MayaTheory.FirstOutIsMarked | maya/canonicalize.py:213-306 | the first line emitted begins with a mark iff a line that begins with one is the first not dropped or swallowed |
| MayaTheory.CanonicalIdempotent | maya/canonicalize.py:174-308 | the canonicalizer is idempotent on a text iff no such line is in it |
| MayaTheory.UnmarkedIdempotent | maya/canonicalize.py:174-308 | in particular on every text none of whose lines begins with a mark once a leading one is dropped |
| MayaTheory.TwoMarks | maya/canonicalize.py:194 | a text on which it is not |
| MayaMeaning.SettledIsSanitized | maya/canonicalize.py:230-306 | a line the machine passes on has no volatile value: dropped kinds do not occur, replaced values are the placeholder |
| MayaMeaning.CanonicalIsSanitized | maya/canonicalize.py:174-308 | no line of canonical text carries a volatile value |
| MayaMeaning.OnlyVolatileLinesChange | maya/canonicalize.py:230-306 | outside swallowed strings a line that is dropped or changed is one of the volatile kinds |
| MayaMeaning.KindsExclude | maya/canonicalize.py:230-300 | the kinds of line shut each other out, so the order of the tests matters only between the three comments |
| MayaMeaning.DroppedKinds | maya/canonicalize.py:230-242 | last-modified comments and workspace mappings are dropped |
| MayaMeaning.RenamedUuid | maya/canonicalize.py:234-238 | a rename line keeps everything but its uuid, which becomes zero |
| MayaMeaning.TidiedKinds | maya/canonicalize.py:281-300 | comments, requirements and file information become the fixed line behind their own indentation; file information with another key is kept |
| MayaMeaning.ScriptString | maya/canonicalize.py:254-266 | a string of a volatile script node becomes the placeholder if it closes on its line, and is swallowed otherwise |
| MayaMeaning.Payload | maya/canonicalize.py:268-279 | the same for a plugin payload of one of the two types |
| MayaMeaning.PayloadKept | maya/canonicalize.py:268-279 | any other payload, or any with the normalization off, is kept |
| MayaMeaning.FlagIff | maya/canonicalize.py:244-254 | the script flag is set exactly behind a line that opens a volatile script node and that no node line has followed since, lines inside swallowed strings counting for neither |
| MayaMeaning.ScriptFlag | maya/canonicalize.py:244-254 | one line sets the flag iff it opens such a node, and clears it iff it begins, behind blanks, with `createNode ` or `select ` |
| MayaMeaning.ProcessCat | maya/canonicalize.py:213-306 | the lines before a point influence what follows only through the machine's mode |
| MayaMeaning.UnixJoin | maya/canonicalize.py:196 | lines joined by any of the three line endings come out joined by line feeds |
| MayaMeaning.LineEndingsAgree | maya/canonicalize.py:194-197 | a text has the same lines and the same canonical text whichever of the three line endings it uses |
| MayaMeaning.SwallowsToClose | maya/canonicalize.py:214-228 | a swallowed statement ends at the first closing line and becomes one line, whatever it held |
| MayaMeaning.SwallowsToEnd | maya/canonicalize.py:214-228 | a statement that is never closed is dropped with everything behind its opening line |
| MayaMeaning.StringStatement | maya/canonicalize.py:254-266 | a script string over many lines canonicalizes to the line a single-line string gives |
| MayaMeaning.RenamesAgree | maya/canonicalize.py:234-238 | lines that differ only in the renamed uuid canonicalize alike |
| MayaAnchors.ExtractAnchors | maya/canonicalize.py:147-171 | the anchors are exactly the byte offsets of the anchor lines, strictly increasing |
| MayaAnchors.AnchorLineIff | maya/canonicalize.py:157-166 | an anchor line begins an animation curve, carries one of six data types, or sets a keyframe table |
| MayaAnchors.CharEncoded | maya/canonicalize.py:168 | the bytes of a character are its UTF-8 encoding, and only that (section 3 of RFC 3629) |
| MayaAnchors.LinesStand | maya/canonicalize.py:147-171 | at each such offset stands that line, at 0 or behind a line break |
| MayaAnchors.ChunksEndOnLines | zeno_client/omni_ingest.py:163-175 | in text cut at its anchors no anchor at distance min or more lies inside a chunk, and a chunk that ends at an anchor ends with a line break |

## Left out

- Qt, Blender and Maya user interfaces, the hub server, sessions and HTTP details: widgets and plumbing.
- USD packages, reviews other than the sequence upload, scene facts, workflows and palettes: short filters and formatters.
- The numeric Shannon entropy, the internals of BLAKE3, zstd and gzip, and JSON text: arbitrary functions with the laws named above.
- Float quantization in Maya files: it is off by default and formats floating-point numbers.
- UTF-8 decoding in the Maya canonicalizer: the model starts from decoded text, byte-order mark included; anchors use a model of UTF-8 encoding.
- Text.NormalizeIdempotent: does not cover letters outside ASCII, because `str.lower` is modelled for ASCII letters only; ids are hexadecimal.
- LocalCaches.LocalCache.EnsureCached: promises nothing for names or ids that are not plain, not even that a manifest is still followed under a name that strips to nothing, because such names act on paths outside the model.
- CacheProtocol.RunIsSafe: does not cover requests for names that are not plain or through manifests that name chunks by anything but digests, because these may write outside the locked directory.
- zstd and gzip decompression before Blender canonicalization (`_decompress`).
- The lock file fallback outside POSIX: its clean-up removes the sentinel even after a time-out, so mutual exclusion holds for `flock` only.
- The time-out and polling interval of the lock: a waiting process may give up at any moment.
- In the sequential cache, the second look under the lock: with one process it always finds what the first look found; it is part of `CacheProtocol`.
- Temporaries of chunk files and of the persisted manifest copy, file-system errors other than a failed unlink of an evicted file, and the removal of empty directories.
- Claims that a returned path still exists later, or that index and disk agree, with several processes: another process may evict without the lock.
- A cap on total disk use: chunk files, manifests and second file names of one id are not in the index.
- Registration fields that do not affect storage (task id, reason, algorithm version); `latest_content_id`, `resolve_storage` and `canonicalize_file` are answers supplied with the request.
- Cas.Store.GetBytes: the `max_bytes` limit is not modelled, because no modelled caller sets it.
- CacheIndex.Index.EvictionCandidates: rows used in the same second come in an arbitrary but fixed order, because SQL leaves the order of ties open.
