/** Publishing (zeno_client/publisher.py): the four routes from a file to a registered version, and the
    proof that no version is ever registered before everything it references is stored. */
module Publisher {
  import opened Base
  import opened Text
  import opened Worlds
  import opened Chunking
  import opened ChunkingTheory
  import opened Entropy
  import opened Manifest
  import opened ManifestTheory
  import opened Cas
  import opened Materialize
  import opened Ingest

  // ---------------------------------------------------------------- requests and outcomes

  /** A publish call together with what the outside world answers during it. */
  datatype Request = Request(
    target: Target, file: Bytes, filename: string, chunking: ChunkingConfig, useOmni: bool,
    parentContentId: Option<string>, parentBytes: Option<Bytes>, entropy: Option<EntropyConfig>,
    dcc: string, forcedCuts: set<int>,
    strategy: Option<string>,                              // forced by the caller
    decision: Result<Json, string>,                        // resolve_storage
    canonical: Result<Option<Bytes>, string>,              // canonicalize_file
    latestDedup: Result<Option<string>, Failure>)          // latest_content_id(artifact="dedup")

  datatype PublishError = BeforeRegister | AtRegister

  datatype PublishResult = PublishResult(
    manifestId: string, wholeFile: string, chunkCount: nat, uploadedChunks: nat, deliveryContentId: Option<string>,
    dedupManifestId: Option<string>, strategy: string, reason: string)

  /** `resolve_strategy`: (strategy, reason, algorithm_version). */
  function ResolveStrategy(w: World, decision: Result<Json, string>): (string, string, string) {
    if decision.Err? then ("chunked", "storage policy unavailable (" + decision.error + "); using chunked", "")
    else if decision.value.Obj?
         && (Get(decision.value.fields, "strategy") == Str("chunked") || Get(decision.value.fields, "strategy") == Str("whole"))
    then
      var f := decision.value.fields;
      (Get(f, "strategy").s, TextOr(w, Get(f, "reason"), ""), TextOr(w, Get(f, "algorithm_version"), ""))
    else ("chunked", "no usable storage policy; using chunked", "")
  }

  function Strategy(w: World, q: Request): (string, string, string) {
    if q.strategy == Some("chunked") || q.strategy == Some("whole") then (q.strategy.value, "requested by caller", "")
    else ResolveStrategy(w, q.decision)
  }

  /** Whatever the server answers, the file is published in one of the two known ways: whole only when
      the caller or, unless the caller asks for chunks, the server says so, chunked in every other case. */
  lemma StrategyIsKnown(w: World, q: Request)
    ensures Strategy(w, q).0 == "chunked" || Strategy(w, q).0 == "whole"
    ensures Strategy(w, q).0 == "whole" <==>
              q.strategy == Some("whole")
              || (q.strategy != Some("chunked") && q.decision.Ok? && q.decision.value.Obj?
                  && Get(q.decision.value.fields, "strategy") == Str("whole"))
    ensures q.strategy == Some("whole") || q.strategy == Some("chunked") ==> Strategy(w, q).1 == "requested by caller"
    ensures q.strategy.None? && q.decision.Err? ==>
              Strategy(w, q).1 == "storage policy unavailable (" + q.decision.error + "); using chunked"
    ensures q.strategy.None? && q.decision.Ok? && q.decision.value.Obj?
            && Get(q.decision.value.fields, "strategy") == Str(Strategy(w, q).0) ==>
              Strategy(w, q).1 == TextOr(w, Get(q.decision.value.fields, "reason"), "")
  {
  }

  datatype Route = Whole | ChunkedV2 | OmniRaw | DualArtifact

  function RouteOf(w: World, q: Request): Route {
    if Strategy(w, q).0 == "whole" then Whole
    else if !q.useOmni then ChunkedV2
    else if q.canonical.Ok? && q.canonical.value.Some? then DualArtifact
    else OmniRaw
  }

  /** The parent id recorded in patches: the caller's, else the latest dedup manifest, else empty. */
  function ParentId(q: Request): string {
    Normalize(if q.parentContentId.Some? then q.parentContentId.value
              else if q.latestDedup.Ok? then q.latestDedup.value.GetOr("") else "")
  }

  // ---------------------------------------------------------------- no dangling version

  predicate ItemHeld(w: World, blobs: Blobs, item: Json) {
    item.Obj? ==> forall key | key in {"hash", "dict_hash", "patch_hash"} ::
                    key in item.fields ==> IdOf(w, item.fields[key]) in blobs
  }

  predicate ItemsHeld(w: World, blobs: Blobs, list: Json) {
    list.Arr? ==> forall i :: 0 <= i < |list.items| ==> ItemHeld(w, blobs, list.items[i])
  }

  /** The blob is a manifest document and every chunk, dictionary and patch it names is stored. */
  ghost predicate ManifestHeld(w: World, blobs: Blobs, id: string) {
    && id in blobs
    && var data := w.decode(blobs[id]);
       && data.Some? && data.value.Obj?
       && ItemsHeld(w, blobs, Get(data.value.fields, "chunks"))
       && ItemsHeld(w, blobs, Get(data.value.fields, "segments"))
  }

  ghost predicate VersionHeld(w: World, blobs: Blobs, v: Version) {
    v.contentId in blobs && (v.strategy == "chunked" ==> ManifestHeld(w, blobs, v.dedup.GetOr(v.contentId)))
  }

  ghost predicate NoDangling(w: World, blobs: Blobs, versions: seq<Version>) {
    forall v :: v in versions ==> VersionHeld(w, blobs, v)
  }

  lemma HeldMonotone(w: World, a: Blobs, b: Blobs, v: Version)
    requires Extends(a, b) && VersionHeld(w, a, v)
    ensures VersionHeld(w, b, v)
  {
  }

  lemma NoDanglingMonotone(w: World, a: Blobs, b: Blobs, versions: seq<Version>)
    requires Extends(a, b) && NoDangling(w, a, versions)
    ensures NoDangling(w, b, versions)
  {
    forall v | v in versions
      ensures VersionHeld(w, b, v)
    {
      HeldMonotone(w, a, b, v);
    }
  }

  // ---------------------------------------------------------------- what each route leaves behind

  /** A version 2 publish of `file` under manifest id `mid`: the manifest lists the file's chunks, and
      their blobs concatenate to the file. */
  ghost predicate StoredV2(w: World, blobs: Blobs, file: Bytes, filename: string, chunking: ChunkingConfig, mid: string) {
    var cs := FileChunks(w, file, chunking, {});
    var document := BuildV2(filename, |file|, w.hash(file), Info(chunking), AsManifestChunks(cs));
    && mid in blobs && blobs[mid] == w.encode(document) && mid == w.hash(blobs[mid])
    && Replay(w, blobs, RawSegments(cs)) == Some(file)
    && AllWritten(blobs, RawSegments(cs), "")
  }

  /** The segments an omni publish writes for `source`. */
  function PlanOf(w: World, q: Request, source: Bytes): seq<ManifestSegment> {
    Plan(w, source, EntropySegments(w, source, q.entropy.GetOr(DefaultEntropy)), q.chunking, q.forcedCuts, ParentId(q), q.parentBytes)
  }

  /** The registered version is the right one for the route, and the store backs it. */
  ghost predicate Published(w: World, blobs: Blobs, q: Request, v: Version) {
    && v.target == q.target && v.filename == q.filename && v.size == |q.file| && v.strategy == Strategy(w, q).0
    && match RouteOf(w, q)
       case Whole => v.contentId == w.hash(q.file) && v.contentId in blobs && blobs[v.contentId] == q.file && v.dedup.None?
       case ChunkedV2 => StoredV2(w, blobs, q.file, q.filename, q.chunking, v.contentId) && v.dedup.None?
       case OmniRaw =>
         && v.dedup.None?
         && exists o: OmniIngestResult :: v.contentId == o.manifestId && o.segments == PlanOf(w, q, q.file)
                                      && Stored(w, blobs, q.file, q.filename, q.chunking, ParentId(q), o)
       case DualArtifact =>
         && v.contentId == w.hash(q.file) && v.contentId in blobs && blobs[v.contentId] == q.file
         && exists o: OmniIngestResult :: v.dedup == Some(o.manifestId) && o.segments == PlanOf(w, q, q.canonical.value.value)
              && Stored(w, blobs, q.canonical.value.value, q.filename, q.chunking, ParentId(q), o)
  }

  // ---------------------------------------------------------------- what is registered, from the request alone

  /** The document's fields are the request's. */
  predicate FieldsSay(w: World, f: map<string, Json>, schema: string, q: Request, source: Bytes) {
    && Get(f, "schema") == Str(schema) && Get(f, "hash_algo") == Str("blake3")
    && Get(f, "filename") == Str(q.filename) && Get(f, "size_bytes") == Int(|source|)
    && Get(f, "whole_file_blake3") == Str(w.hash(source))
    && Get(f, "chunking") == Obj(map["algo" := Str(q.chunking.algo), "avg" := Int(q.chunking.avg),
                                     "min" := Int(q.chunking.min), "max" := Int(q.chunking.max)])
  }

  /** The blob is a manifest document of this schema for `source`, with the request's parameters in it. */
  ghost predicate ManifestSays(w: World, blobs: Blobs, id: string, schema: string, q: Request, source: Bytes) {
    && id in blobs && w.hash(blobs[id]) == id
    && var data := w.decode(blobs[id]);
       && data.Some? && data.value.Obj?
       && FieldsSay(w, data.value.fields, schema, q, source)
  }

  /** Its chunk list is the chunking of the file. */
  ghost predicate ListsChunks(w: World, blobs: Blobs, id: string, q: Request)
    requires ManifestSays(w, blobs, id, "chimera.manifest.v2", q, q.file)
  {
    var list, cs := Get(w.decode(blobs[id]).value.fields, "chunks"), FileChunks(w, q.file, q.chunking, {});
    && list.Arr? && |list.items| == |cs|
    && forall i :: 0 <= i < |cs| ==> list.items[i] == Obj(map["hash" := Str(cs[i].contentHash), "size" := Int(cs[i].size)])
  }

  /** Every patch of a segment list names the caller's parent, else the latest dedup manifest, else none. */
  predicate ParentsIn(q: Request, list: Json) {
    list.Arr?
    && forall i :: 0 <= i < |list.items| ==>
         && list.items[i].Obj?
         && var f := list.items[i].fields;
            Get(f, "kind") == Str("zstd_dict_patch") ==>
              var named := Get(f, "parent_content_id");
              && (q.parentContentId.Some? ==> named == Str(Normalize(q.parentContentId.value)))
              && (q.parentContentId.None? && q.latestDedup.Ok? && q.latestDedup.value.Some? ==>
                    named == Str(Normalize(q.latestDedup.value.value)))
              && (q.parentContentId.None? && q.latestDedup == Ok(None) ==> named == Str(Normalize("")))
  }

  ghost predicate NamesParent(w: World, blobs: Blobs, id: string, q: Request, source: Bytes)
    requires ManifestSays(w, blobs, id, "chimera.manifest.v3", q, source)
  {
    ParentsIn(q, Get(w.decode(blobs[id]).value.fields, "segments"))
  }

  predicate WantsWhole(q: Request) {
    || q.strategy == Some("whole")
    || (q.strategy != Some("chunked") && q.decision.Ok? && q.decision.value.Obj?
        && Get(q.decision.value.fields, "strategy") == Str("whole"))
  }

  /** The version registered, read off the fields of the request: the file itself under the "whole"
      strategy; a version 2 manifest without omni; with omni a version 3 manifest of the file, or, when the
      file was canonicalized, the file itself with a version 3 manifest of the canonical bytes beside it. */
  ghost predicate RegisteredAs(w: World, blobs: Blobs, q: Request, v: Version) {
    && v.target == q.target && v.filename == q.filename && v.size == |q.file|
    && v.strategy == (if WantsWhole(q) then "whole" else "chunked")
    && if WantsWhole(q) then
         v.contentId == w.hash(q.file) && v.contentId in blobs && blobs[v.contentId] == q.file && v.dedup.None?
       else if !q.useOmni then
         && ManifestSays(w, blobs, v.contentId, "chimera.manifest.v2", q, q.file) && v.dedup.None?
         && ListsChunks(w, blobs, v.contentId, q)
       else if q.canonical.Ok? && q.canonical.value.Some? then
         && v.contentId == w.hash(q.file) && v.contentId in blobs && blobs[v.contentId] == q.file && v.dedup.Some?
         && ManifestSays(w, blobs, v.dedup.value, "chimera.manifest.v3", q, q.canonical.value.value)
         && NamesParent(w, blobs, v.dedup.value, q, q.canonical.value.value)
       else
         && ManifestSays(w, blobs, v.contentId, "chimera.manifest.v3", q, q.file) && v.dedup.None?
         && NamesParent(w, blobs, v.contentId, q, q.file)
  }

  lemma ChunkingDocument(c: ChunkingConfig)
    ensures ChunkingJson(Info(c)) == Obj(map["algo" := Str(c.algo), "avg" := Int(c.avg), "min" := Int(c.min), "max" := Int(c.max)])
  {
  }

  lemma StoredV2Describes(w: World, blobs: Blobs, q: Request, id: string)
    requires w.Sound() && StoredV2(w, blobs, q.file, q.filename, q.chunking, id)
    ensures ManifestSays(w, blobs, id, "chimera.manifest.v2", q, q.file) && ListsChunks(w, blobs, id, q)
  {
    hide BuildV2, Get, FileChunks, Replay, AllWritten, ChunkingJson, ChunksJson;
    var cs := FileChunks(w, q.file, q.chunking, {});
    var chunks := AsManifestChunks(cs);
    V2Encodes(w, q.filename, |q.file|, w.hash(q.file), Info(q.chunking), chunks);
    V2Fields(q.filename, |q.file|, w.hash(q.file), Info(q.chunking), chunks);
    ChunkingDocument(q.chunking);
    ChunkItems(cs);
  }

  lemma ChunkItems(cs: seq<Chunk>)
    ensures var list := ChunksJson(AsManifestChunks(cs));
            && list.Arr? && |list.items| == |cs|
            && forall i :: 0 <= i < |cs| ==> list.items[i] == Obj(map["hash" := Str(cs[i].contentHash), "size" := Int(cs[i].size)])
  {
  }

  lemma StoredDescribes(w: World, blobs: Blobs, q: Request, source: Bytes, o: OmniIngestResult)
    requires w.Sound() && Stored(w, blobs, source, q.filename, q.chunking, ParentId(q), o)
    ensures ManifestSays(w, blobs, o.manifestId, "chimera.manifest.v3", q, source)
    ensures NamesParent(w, blobs, o.manifestId, q, source)
  {
    hide BuildV3, Replay, AllWritten, SegmentsJson, Get, Ingested, ChunkingJson, ManifestSays;
    var omni: Json :| w.Printable(omni) && o.manifestBytes
                      == w.encode(BuildV3(q.filename, |source|, o.wholeFile, Info(q.chunking), o.segments, Some(omni)));
    var document := BuildV3(q.filename, |source|, o.wholeFile, Info(q.chunking), o.segments, Some(omni));
    V3Encodes(w, q.filename, |source|, o.wholeFile, Info(q.chunking), o.segments, omni);
    V3Says(q, source, o.wholeFile, o.segments, omni);
    DocumentSays(w, blobs, o.manifestId, "chimera.manifest.v3", q, source, document);
    StoredWritten(w, blobs, source, q.filename, q.chunking, ParentId(q), o);
    ParentsNamed(w, blobs, q, o.segments);
  }

  lemma V3Says(q: Request, source: Bytes, whole: string, segments: seq<ManifestSegment>, omni: Json)
    ensures var f := BuildV3(q.filename, |source|, whole, Info(q.chunking), segments, Some(omni)).fields;
            Get(f, "segments") == SegmentsJson(segments)
            && forall w: World :: whole == w.hash(source) ==> FieldsSay(w, f, "chimera.manifest.v3", q, source)
  {
    hide BuildV3, Get, SegmentsJson, ChunkingJson;
    V3Fields(q.filename, |source|, whole, Info(q.chunking), segments, Some(omni));
    ChunkingDocument(q.chunking);
  }

  lemma DocumentSays(w: World, blobs: Blobs, id: string, schema: string, q: Request, source: Bytes, document: Json)
    requires id in blobs && w.hash(blobs[id]) == id && w.decode(blobs[id]) == Some(document)
    requires document.Obj? && FieldsSay(w, document.fields, schema, q, source)
    ensures ManifestSays(w, blobs, id, schema, q, source)
  {
    hide FieldsSay;
  }

  lemma StoredWritten(w: World, blobs: Blobs, source: Bytes, filename: string, chunking: ChunkingConfig, parentId: string,
                      o: OmniIngestResult)
    requires Stored(w, blobs, source, filename, chunking, parentId, o)
    ensures AllWritten(blobs, o.segments, parentId)
  {
    hide AllWritten, Replay, BuildV3;
  }

  lemma ParentsNamed(w: World, blobs: Blobs, q: Request, ss: seq<ManifestSegment>)
    requires AllWritten(blobs, ss, ParentId(q))
    ensures ParentsIn(q, SegmentsJson(ss))
  {
    hide AllWritten, SegmentJson, Get, Normalize;
    SegmentItems(ss);
    forall i | 0 <= i < |ss|
      ensures SegmentJson(ss[i]).Obj?
      ensures var f := SegmentJson(ss[i]).fields;
              Get(f, "kind") == Str("zstd_dict_patch") ==> Get(f, "parent_content_id") == Str(ParentId(q))
    {
      PatchNames(blobs, ss, ParentId(q), i);
    }
  }

  lemma SegmentItems(ss: seq<ManifestSegment>)
    ensures var list := SegmentsJson(ss);
            list.Arr? && |list.items| == |ss| && forall i :: 0 <= i < |ss| ==> list.items[i] == SegmentJson(ss[i])
  {
  }

  lemma PatchNames(blobs: Blobs, ss: seq<ManifestSegment>, parentId: string, i: nat)
    requires AllWritten(blobs, ss, parentId) && i < |ss|
    ensures SegmentJson(ss[i]).Obj?
    ensures var f := SegmentJson(ss[i]).fields;
            Get(f, "kind") == Str("zstd_dict_patch") ==> Get(f, "parent_content_id") == Str(parentId)
  {
    hide AllWritten;
    if ss[i].ZstdDictPatch? { PatchParent(blobs, ss, parentId, i); }
  }

  /** Whatever route was taken, it was the one the request's fields ask for. */
  lemma PublishedIsRegistered(w: World, blobs: Blobs, q: Request, v: Version)
    requires w.Sound() && Published(w, blobs, q, v)
    ensures RegisteredAs(w, blobs, q, v)
  {
    hide Stored, StoredV2, ManifestSays, ListsChunks, NamesParent, PlanOf, Get;
    StrategyIsKnown(w, q);
    match RouteOf(w, q)
    case Whole =>
    case ChunkedV2 => StoredV2Describes(w, blobs, q, v.contentId);
    case OmniRaw =>
      var o: OmniIngestResult :| v.contentId == o.manifestId && o.segments == PlanOf(w, q, q.file)
                                 && Stored(w, blobs, q.file, q.filename, q.chunking, ParentId(q), o);
      StoredDescribes(w, blobs, q, q.file, o);
    case DualArtifact =>
      var o: OmniIngestResult :| v.dedup == Some(o.manifestId) && o.segments == PlanOf(w, q, q.canonical.value.value)
                                 && Stored(w, blobs, q.canonical.value.value, q.filename, q.chunking, ParentId(q), o);
      StoredDescribes(w, blobs, q, q.canonical.value.value, o);
  }

  lemma SegmentItemHeld(w: World, blobs: Blobs, s: ManifestSegment, parentId: string, at: int)
    requires Piece(w, blobs, s).Some? && Written(blobs, s, parentId, at)
    ensures ItemHeld(w, blobs, SegmentJson(s))
  {
    hide Normalize;
  }

  lemma {:induction false} SegmentItemsHeld(w: World, blobs: Blobs, ss: seq<ManifestSegment>, parentId: string, i: nat)
    requires Replay(w, blobs, ss).Some? && AllWritten(blobs, ss, parentId) && i < |ss|
    ensures ItemHeld(w, blobs, SegmentJson(ss[i]))
  {
    hide ItemHeld, SegmentJson, Written, Piece;
    if i == |ss| - 1 {
      SegmentItemHeld(w, blobs, ss[i], parentId, TotalSize(ss[..i]));
    } else {
      SegmentItemsHeld(w, blobs, ss[..|ss| - 1], parentId, i);
    }
  }

  lemma StoredIsHeld(w: World, blobs: Blobs, source: Bytes, filename: string, chunking: ChunkingConfig, parentId: string,
                     o: OmniIngestResult)
    requires w.Sound() && Stored(w, blobs, source, filename, chunking, parentId, o)
    ensures ManifestHeld(w, blobs, o.manifestId)
  {
    var omni: Json :| w.Printable(omni) && o.manifestBytes
                      == w.encode(BuildV3(filename, |source|, o.wholeFile, Info(chunking), o.segments, Some(omni)));
    hide ItemHeld, SegmentJson, BuildV3, Replay, AllWritten;
    forall i | 0 <= i < |o.segments|
      ensures ItemHeld(w, blobs, SegmentsJson(o.segments).items[i])
    {
      SegmentItemsHeld(w, blobs, o.segments, parentId, i);
    }
    V3Document(filename, |source|, o.wholeFile, Info(chunking), o.segments, Some(omni));
    V3Encodes(w, filename, |source|, o.wholeFile, Info(chunking), o.segments, omni);
  }

  lemma V3Document(filename: string, size: int, whole: string, chunking: ChunkingInfo, segments: seq<ManifestSegment>,
                   omni: Option<Json>)
    ensures var f := BuildV3(filename, size, whole, chunking, segments, omni).fields;
            Get(f, "segments") == SegmentsJson(segments) && Get(f, "chunks") == Null
  {
    hide ChunkingJson, SegmentsJson;
  }

  lemma V2Document(filename: string, size: int, whole: string, chunking: ChunkingInfo, chunks: seq<ManifestChunk>)
    ensures var f := BuildV2(filename, size, whole, chunking, chunks).fields;
            Get(f, "chunks") == ChunksJson(chunks) && Get(f, "segments") == Null
  {
    hide ChunkingJson, ChunksJson;
  }

  lemma ChunkItemHeld(w: World, blobs: Blobs, h: string, size: int)
    requires IsId(h) && h in blobs
    ensures ItemHeld(w, blobs, ChunkJson(ManifestChunk(h, size)))
  {
    hide Normalize;
  }

  lemma {:induction false} RawHashesStored(w: World, blobs: Blobs, ss: seq<ManifestSegment>, parentId: string, i: nat)
    requires AllWritten(blobs, ss, parentId) && i < |ss| && ss[i].RawChunk?
    ensures IsId(ss[i].hash) && ss[i].hash in blobs && ss[i].size == |blobs[ss[i].hash]|
  {
    hide IsId;
    if i < |ss| - 1 {
      RawHashesStored(w, blobs, ss[..|ss| - 1], parentId, i);
    }
  }

  lemma StoredV2IsHeld(w: World, blobs: Blobs, file: Bytes, filename: string, chunking: ChunkingConfig, mid: string)
    requires w.Sound() && StoredV2(w, blobs, file, filename, chunking, mid)
    ensures ManifestHeld(w, blobs, mid)
  {
    hide ItemHeld, ChunkJson, BuildV2, Replay, AllWritten, FileChunks, IsId;
    var cs := FileChunks(w, file, chunking, {});
    var chunks := AsManifestChunks(cs);
    forall i | 0 <= i < |chunks|
      ensures ItemHeld(w, blobs, ChunksJson(chunks).items[i])
    {
      RawHashesStored(w, blobs, RawSegments(cs), "", i);
      ChunkItemHeld(w, blobs, cs[i].contentHash, cs[i].size);
    }
    V2Document(filename, |file|, w.hash(file), Info(chunking), chunks);
    V2Encodes(w, filename, |file|, w.hash(file), Info(chunking), chunks);
  }

  // ---------------------------------------------------------------- version 2: upload missing chunks

  function HashesOf(cs: seq<Chunk>): set<string> {
    set c | c in cs :: c.contentHash
  }

  /** `if blob_exists: continue; f.seek(...); body = f.read(...); upload`; true when it uploaded. */
  method UploadFileChunk(cas: Store, f: ByteFile, ch: Chunk) returns (r: Result<bool, Failure>)
    requires cas.Valid() && cas.w.Sound() && 0 <= ch.offset && ch.offset + ch.size <= |f.data|
    requires ch.contentHash == cas.w.hash(f.data[ch.offset..ch.offset + ch.size])
    modifies cas`blobs, f
    ensures cas.Valid() && Extends(old(cas.blobs), cas.blobs)
    ensures r.Ok? ==> cas.blobs == old(cas.blobs)[ch.contentHash := f.data[ch.offset..ch.offset + ch.size]]
    ensures r.Ok? ==> |cas.blobs| == |old(cas.blobs)| + (if r.value then 1 else 0)
    ensures cas.healthy ==> r.Ok?
  {
    hide Extends, Addressed;
    HexIsNormal(ch.contentHash);
    ExtendsReflexive(cas.blobs);
    Restore(cas.w, cas.blobs, f.data[ch.offset..ch.offset + ch.size], ch.contentHash);
    var exists_ := cas.BlobExists(ch.contentHash);
    if exists_.Err? {
      return Err(exists_.error);
    }
    if exists_.value {
      return Ok(false);
    }
    f.Seek(ch.offset);
    var body := f.Read(ch.size);
    var up := cas.UploadBytes(body, ch.contentHash);
    r := if up.Err? then Err(up.error) else Ok(true);
  }

  /** Uploads each chunk the store lacks, exactly once. */
  method UploadChunks(cas: Store, file: Bytes, chunking: ChunkingConfig) returns (r: Result<(seq<Chunk>, nat), Failure>)
    requires cas.Valid() && cas.w.Sound() && chunking.max > 0
    modifies cas`blobs
    ensures cas.Valid() && Extends(old(cas.blobs), cas.blobs)
    ensures r.Ok? ==> r.value.0 == FileChunks(cas.w, file, chunking, {})
    ensures r.Ok? ==> Replay(cas.w, cas.blobs, RawSegments(r.value.0)) == Some(file)
                      && AllWritten(cas.blobs, RawSegments(r.value.0), "")
    ensures r.Ok? ==> cas.blobs.Keys == old(cas.blobs).Keys + HashesOf(r.value.0)
    ensures r.Ok? ==> r.value.1 == |HashesOf(r.value.0) - old(cas.blobs).Keys|
    ensures cas.healthy ==> r.Ok?
  {
    hide Chunks, FileChunks, Ingested, Remaining, Extends, Addressed, RawSegments, HashesOf, Replay, AllWritten, KeysGrownBy;
    var w := cas.w;
    var cs := IterChunks(w, file, chunking, {});
    FileRemaining(w, file, chunking);
    ExtendsReflexive(cas.blobs);
    NothingIngested(w, cas.blobs, file, "");
    RawSegmentsNil();
    KeysGrownNil(cas.blobs);
    WholeSlices(cs);
    var f := new ByteFile(file);
    var uploaded := 0;
    ghost var at: nat := 0;
    for i := 0 to |cs|
      invariant Remaining(w, cs, i, at, file, |file|)
      invariant cas.Valid() && Extends(old(cas.blobs), cas.blobs)
      invariant Ingested(w, cas.blobs, file, at, Progress(cs[..i], RawSegments(cs[..i]), uploaded, 0), "")
      invariant KeysGrownBy(old(cas.blobs), cas.blobs, cs[..i])
      invariant |cas.blobs| == |old(cas.blobs)| + uploaded
    {
      ChunkAt(w, cs, i, at, file, |file|);
      label Before:
      var up := UploadFileChunk(cas, f, cs[i]);
      ExtendsTransitive(old(cas.blobs), old@Before(cas.blobs), cas.blobs);
      if up.Err? {
        return Err(up.error);
      }
      ChunkIngested(w, old@Before(cas.blobs), cas.blobs, file, at, cs, i, uploaded, uploaded + (if up.value then 1 else 0));
      KeysGrownStep(old(cas.blobs), old@Before(cas.blobs), cs, i, file[at..at + cs[i].size]);
      uploaded := uploaded + (if up.value then 1 else 0);
      at := at + cs[i].size;
    }
    RemainingAtEnd(w, cs, at, file, |file|);
    WholeSlices(file);
    IngestedAll(w, cas.blobs, file, Progress(cs, RawSegments(cs), uploaded, 0));
    KeysGrownAll(old(cas.blobs), cas.blobs, cs);
    r := Ok((cs, uploaded));
  }

  lemma FileRemaining(w: World, file: Bytes, chunking: ChunkingConfig)
    requires chunking.max > 0
    ensures Remaining(w, FileChunks(w, file, chunking, {}), 0, 0, file, |file|)
  {
    hide FileChunks, Names;
    FileChunksName(w, file, chunking, {});
    var cs := FileChunks(w, file, chunking, {});
    assert cs[0..] == cs && file[0..|file|] == file;
  }

  lemma ChunkIngested(w: World, a: Blobs, b: Blobs, file: Bytes, at: nat, cs: seq<Chunk>, i: nat, n: nat, n': nat)
    requires i < |cs| && at + cs[i].size <= |file| && w.HexDigests()
    requires Ingested(w, a, file, at, Progress(cs[..i], RawSegments(cs[..i]), n, 0), "")
    requires cs[i].contentHash == w.hash(file[at..at + cs[i].size])
    requires Extends(a, b) && cs[i].contentHash in b && b[cs[i].contentHash] == file[at..at + cs[i].size]
    ensures Ingested(w, b, file, at + cs[i].size, Progress(cs[..i + 1], RawSegments(cs[..i + 1]), n', 0), "")
  {
    hide Ingested, RawSegments, Extends, Normalize;
    HexIsNormal(cs[i].contentHash);
    RawSegmentsStep(cs, i);
    IngestOne(w, a, b, file, at, at + cs[i].size, Progress(cs[..i], RawSegments(cs[..i]), n, 0),
              Progress(cs[..i + 1], RawSegments(cs[..i + 1]), n', 0), "", RawChunk(cs[i].contentHash, cs[i].size));
  }

  lemma IngestedAll(w: World, blobs: Blobs, file: Bytes, p: Progress)
    requires Ingested(w, blobs, file, |file|, p, "")
    ensures Replay(w, blobs, p.segments) == Some(file) && AllWritten(blobs, p.segments, "")
  {
    WholeSlices(file);
  }

  /** The store gained exactly the listed chunks' blobs. */
  ghost predicate KeysGrownBy(before: Blobs, after: Blobs, cs: seq<Chunk>) {
    after.Keys == before.Keys + HashesOf(cs)
  }

  lemma KeysGrownNil(blobs: Blobs)
    ensures KeysGrownBy(blobs, blobs, [])
  {
  }

  lemma KeysGrownStep(before: Blobs, now: Blobs, cs: seq<Chunk>, i: nat, body: Bytes)
    requires i < |cs| && KeysGrownBy(before, now, cs[..i])
    ensures KeysGrownBy(before, now[cs[i].contentHash := body], cs[..i + 1])
  {
    assert cs[..i + 1] == cs[..i] + [cs[i]];
    assert HashesOf(cs[..i + 1]) == HashesOf(cs[..i]) + {cs[i].contentHash};
  }

  lemma KeysGrownAll(before: Blobs, after: Blobs, cs: seq<Chunk>)
    requires KeysGrownBy(before, after, cs)
    ensures after.Keys == before.Keys + HashesOf(cs)
    ensures |after| - |before| == |HashesOf(cs) - before.Keys|
  {
    CountNew(before.Keys, HashesOf(cs), after.Keys);
  }

  lemma CountNew(before: set<string>, added: set<string>, after: set<string>)
    requires after == before + added
    ensures |after| - |before| == |added - before|
  {
    assert after == before + (added - before);
  }

  // ---------------------------------------------------------------- the four routes

  method Register(cas: Store, v: Version) returns (r: Result<(), PublishError>)
    requires NoDangling(cas.w, cas.blobs, cas.versions) && VersionHeld(cas.w, cas.blobs, v)
    modifies cas`versions
    ensures NoDangling(cas.w, cas.blobs, cas.versions)
    ensures cas.versions == old(cas.versions) || cas.versions == old(cas.versions) + [v]
    ensures r.Ok? ==> cas.versions == old(cas.versions) + [v]
    ensures r.Err? ==> r.error.AtRegister?
    ensures cas.healthy ==> r.Ok?
  {
    hide VersionHeld;
    var reg := cas.RegisterVersion(v);
    r := if reg.Err? then Err(AtRegister) else Ok(());
  }

  /** What every publish guarantees, whatever fails and wherever: the store only grows, no registered
      version dangles, at most the right version is added, and an earlier failure adds none. */
  twostate predicate PublishOutcome(cas: Store, q: Request, new r: Result<PublishResult, PublishError>)
    reads cas
  {
    && cas.Valid() && Extends(old(cas.blobs), cas.blobs) && NoDangling(cas.w, cas.blobs, cas.versions)
    && (|| cas.versions == old(cas.versions)
        || exists v: Version :: Published(cas.w, cas.blobs, q, v) && cas.versions == old(cas.versions) + [v])
    && (r.Err? && r.error.BeforeRegister? ==> cas.versions == old(cas.versions))
    && (r.Ok? ==> cas.versions != old(cas.versions))
    && (cas.healthy && q.canonical.Ok? && q.latestDedup.Ok? ==> r.Ok?)
  }

  method PublishWholeFile(cas: Store, q: Request) returns (r: Result<PublishResult, PublishError>)
    requires cas.Valid() && cas.w.Sound() && NoDangling(cas.w, cas.blobs, cas.versions) && RouteOf(cas.w, q) == Whole
    modifies cas`blobs, cas`versions
    ensures PublishOutcome(cas, q, r)
    ensures r.Ok? ==> r.value == PublishResult(cas.w.hash(q.file), cas.w.hash(q.file), 1, r.value.uploadedChunks, None, None,
                                               "whole", Strategy(cas.w, q).1)
    ensures r.Ok? ==> r.value.uploadedChunks == (if cas.w.hash(q.file) in old(cas.blobs) then 0 else 1)
  {
    hide VersionHeld, NoDangling, ManifestHeld, Extends;
    var w := cas.w;
    var whole := w.hash(q.file);
    var up := UploadMissing(cas, q.file, whole);
    NoDanglingMonotone(w, old(cas.blobs), cas.blobs, cas.versions);
    if up.Err? {
      return Err(BeforeRegister);
    }
    var v := Version(q.target, whole, q.filename, |q.file|, "whole", None);
    WholeHeld(w, cas.blobs, v);
    assert Published(w, cas.blobs, q, v);
    var reg := Register(cas, v);
    if reg.Err? {
      return Err(reg.error);
    }
    r := Ok(PublishResult(whole, whole, 1, if up.value then 1 else 0, None, None, "whole", Strategy(w, q).1));
  }

  lemma WholeHeld(w: World, blobs: Blobs, v: Version)
    requires v.contentId in blobs && v.strategy == "whole"
    ensures VersionHeld(w, blobs, v)
  {
  }

  /** Version 2: chunks, then the manifest (uploaded unconditionally), then the registration. */
  method PublishChunkedV2(cas: Store, q: Request) returns (r: Result<PublishResult, PublishError>)
    requires cas.Valid() && cas.w.Sound() && NoDangling(cas.w, cas.blobs, cas.versions) && RouteOf(cas.w, q) == ChunkedV2
    requires q.chunking.max > 0
    modifies cas`blobs, cas`versions
    ensures PublishOutcome(cas, q, r)
    ensures r.Ok? ==> var cs := FileChunks(cas.w, q.file, q.chunking, {});
                      && r.value.chunkCount == |cs|
                      && r.value.uploadedChunks == |HashesOf(cs) - old(cas.blobs).Keys|
                      && HashesOf(cs) <= cas.blobs.Keys
                      && r.value.wholeFile == cas.w.hash(q.file)
                      && r.value.manifestId == cas.versions[|cas.versions| - 1].contentId
  {
    hide VersionHeld, NoDangling, ManifestHeld, Extends, Addressed, FileChunks, HashesOf, RawSegments, Replay, AllWritten,
         BuildV2, Normalize, StoredV2;
    var w := cas.w;
    var done := UploadChunks(cas, q.file, q.chunking);
    NoDanglingMonotone(w, old(cas.blobs), cas.blobs, cas.versions);
    if done.Err? {
      return Err(BeforeRegister);
    }
    var (cs, uploaded) := done.value;
    var document := BuildV2(q.filename, |q.file|, w.hash(q.file), Info(q.chunking), AsManifestChunks(cs));
    var manifestBytes := w.encode(document);
    var mid := w.hash(manifestBytes);
    label Before:
    var up := UploadManifest(cas, manifestBytes, mid);
    NoDanglingMonotone(w, old@Before(cas.blobs), cas.blobs, cas.versions);
    ExtendsTransitive(old(cas.blobs), old@Before(cas.blobs), cas.blobs);
    ExtendsKeys(old@Before(cas.blobs), cas.blobs);
    if up.Err? {
      return Err(BeforeRegister);
    }
    ReplayMonotone(w, old@Before(cas.blobs), cas.blobs, RawSegments(cs));
    AllWrittenMonotone(old@Before(cas.blobs), cas.blobs, RawSegments(cs), "");
    IntroStoredV2(w, cas.blobs, q, cs, mid);
    var v := Version(q.target, mid, q.filename, |q.file|, "chunked", None);
    V2VersionHeld(w, cas.blobs, q, v);
    var reg := Register(cas, v);
    if reg.Err? {
      return Err(reg.error);
    }
    r := Ok(PublishResult(mid, w.hash(q.file), |cs|, uploaded, None, None, "chunked", Strategy(w, q).1));
  }

  lemma IntroStoredV2(w: World, blobs: Blobs, q: Request, cs: seq<Chunk>, mid: string)
    requires cs == FileChunks(w, q.file, q.chunking, {}) && mid in blobs && mid == w.hash(blobs[mid])
    requires blobs[mid] == w.encode(BuildV2(q.filename, |q.file|, w.hash(q.file), Info(q.chunking), AsManifestChunks(cs)))
    requires Replay(w, blobs, RawSegments(cs)) == Some(q.file) && AllWritten(blobs, RawSegments(cs), "")
    ensures StoredV2(w, blobs, q.file, q.filename, q.chunking, mid)
  {
  }

  /** `upload_blob_bytes(manifest, id)` without asking first. */
  method UploadManifest(cas: Store, body: Bytes, h: string) returns (r: Result<(), Failure>)
    requires cas.Valid() && cas.w.Sound() && h == cas.w.hash(body)
    modifies cas`blobs
    ensures cas.Valid() && Extends(old(cas.blobs), cas.blobs)
    ensures r.Ok? ==> h in cas.blobs && cas.blobs[h] == body
    ensures cas.healthy ==> r.Ok?
  {
    hide Extends, Addressed;
    HexIsNormal(h);
    ExtendsReflexive(cas.blobs);
    Restore(cas.w, cas.blobs, body, h);
    var up := cas.UploadBytes(body, h);
    r := if up.Err? then Err(up.error) else Ok(());
  }

  lemma V2VersionHeld(w: World, blobs: Blobs, q: Request, v: Version)
    requires w.Sound() && StoredV2(w, blobs, q.file, q.filename, q.chunking, v.contentId) && v.dedup.None?
    requires RouteOf(w, q) == ChunkedV2
    requires v == Version(q.target, v.contentId, q.filename, |q.file|, "chunked", None)
    ensures VersionHeld(w, blobs, v) && Published(w, blobs, q, v)
  {
    hide ManifestHeld, StoredV2;
    StoredV2IsHeld(w, blobs, q.file, q.filename, q.chunking, v.contentId);
    StoredV2Present(w, blobs, q.file, q.filename, q.chunking, v.contentId);
    StrategyIsKnown(w, q);
  }

  lemma StoredV2Present(w: World, blobs: Blobs, file: Bytes, filename: string, chunking: ChunkingConfig, mid: string)
    requires StoredV2(w, blobs, file, filename, chunking, mid)
    ensures mid in blobs
  {
  }

  /** Omni, with or without a separate delivery blob. */
  method PublishOmni(cas: Store, q: Request, canonical: Option<Bytes>) returns (r: Result<PublishResult, PublishError>)
    requires cas.Valid() && cas.w.Sound() && NoDangling(cas.w, cas.blobs, cas.versions)
    requires q.chunking.max > 0 && q.entropy.GetOr(DefaultEntropy).windowSize > 0
    requires q.canonical == Ok(canonical)
    requires RouteOf(cas.w, q) == if canonical.Some? then DualArtifact else OmniRaw
    modifies cas`blobs, cas`versions
    ensures PublishOutcome(cas, q, r)
    ensures r.Ok? ==> var v := cas.versions[|cas.versions| - 1];
                      && r.value.manifestId == v.dedup.GetOr(v.contentId)
                      && r.value.dedupManifestId == v.dedup
                      && r.value.deliveryContentId == (if canonical.Some? then Some(v.contentId) else None)
                      && r.value.wholeFile == cas.w.hash(canonical.GetOr(q.file))
  {
    hide VersionHeld, NoDangling, ManifestHeld, Extends, Stored, Plan, EntropySegments, Normalize;
    var w := cas.w;
    ExtendsReflexive(cas.blobs);
    if q.parentContentId.None? && q.latestDedup.Err? {
      return Err(BeforeRegister);
    }
    var parent := if q.parentContentId.Some? then q.parentContentId else q.latestDedup.value;
    assert Normalize(parent.GetOr("")) == ParentId(q);
    var omni := IngestOmniFile(cas, q.file, q.filename, q.chunking, q.entropy, parent, q.parentBytes, canonical, q.dcc, q.forcedCuts);
    NoDanglingMonotone(w, old(cas.blobs), cas.blobs, cas.versions);
    if omni.Err? {
      return Err(BeforeRegister);
    }
    var o := omni.value;
    StoredFacts(w, cas.blobs, canonical.GetOr(q.file), q.filename, q.chunking, ParentId(q), o);
    if canonical.Some? {
      r := RegisterDual(cas, q, canonical.value, o, old(cas.blobs));
    } else {
      var v := Version(q.target, o.manifestId, q.filename, |q.file|, "chunked", None);
      OmniVersionHeld(w, cas.blobs, q, v, o);
      var reg := Register(cas, v);
      if reg.Err? {
        return Err(reg.error);
      }
      r := Ok(PublishResult(o.manifestId, o.wholeFile, |o.segments|, o.uploadedChunks + o.uploadedAuxBlobs, None, None,
                            "chunked", Strategy(w, q).1));
    }
  }

  /** The delivery blob of a dual-artifact publish, and the registration that carries both ids. */
  method RegisterDual(cas: Store, q: Request, canonical: Bytes, o: OmniIngestResult, ghost before: Blobs)
    returns (r: Result<PublishResult, PublishError>)
    requires cas.Valid() && cas.w.Sound() && NoDangling(cas.w, cas.blobs, cas.versions) && RouteOf(cas.w, q) == DualArtifact
    requires q.canonical == Ok(Some(canonical)) && Extends(before, cas.blobs)
    requires Stored(cas.w, cas.blobs, canonical, q.filename, q.chunking, ParentId(q), o) && o.segments == PlanOf(cas.w, q, canonical)
    modifies cas`blobs, cas`versions
    ensures cas.Valid() && Extends(before, cas.blobs) && NoDangling(cas.w, cas.blobs, cas.versions)
    ensures || cas.versions == old(cas.versions)
            || exists v: Version :: Published(cas.w, cas.blobs, q, v) && cas.versions == old(cas.versions) + [v]
    ensures r.Err? && r.error.BeforeRegister? ==> cas.versions == old(cas.versions)
    ensures r.Ok? ==> cas.versions == old(cas.versions) + [Version(q.target, cas.w.hash(q.file), q.filename, |q.file|, "chunked",
                                                                   Some(o.manifestId))]
    ensures r.Ok? ==> r.value == PublishResult(o.manifestId, o.wholeFile, |o.segments|, o.uploadedChunks + o.uploadedAuxBlobs,
                                               Some(cas.w.hash(q.file)), Some(o.manifestId), "chunked", Strategy(cas.w, q).1)
    ensures cas.healthy ==> r.Ok?
  {
    hide VersionHeld, NoDangling, ManifestHeld, Extends, Stored, Published, PlanOf;
    var w := cas.w;
    var delivery := w.hash(q.file);
    var up := UploadMissing(cas, q.file, delivery);
    NoDanglingMonotone(w, old(cas.blobs), cas.blobs, cas.versions);
    ExtendsTransitive(before, old(cas.blobs), cas.blobs);
    if up.Err? {
      return Err(BeforeRegister);
    }
    StoredMonotone(w, old(cas.blobs), cas.blobs, canonical, q.filename, q.chunking, ParentId(q), o);
    var v := Version(q.target, delivery, q.filename, |q.file|, "chunked", Some(o.manifestId));
    DualVersionHeld(w, cas.blobs, q, v, o);
    var reg := Register(cas, v);
    if reg.Err? {
      return Err(reg.error);
    }
    r := Ok(PublishResult(o.manifestId, o.wholeFile, |o.segments|, o.uploadedChunks + o.uploadedAuxBlobs, Some(delivery),
                          Some(o.manifestId), "chunked", Strategy(w, q).1));
  }

  lemma StoredFacts(w: World, blobs: Blobs, source: Bytes, filename: string, chunking: ChunkingConfig, parentId: string,
                    o: OmniIngestResult)
    requires Stored(w, blobs, source, filename, chunking, parentId, o)
    ensures o.manifestId in blobs && o.wholeFile == w.hash(source)
  {
  }

  lemma StoredMonotone(w: World, a: Blobs, b: Blobs, source: Bytes, filename: string, chunking: ChunkingConfig,
                       parentId: string, o: OmniIngestResult)
    requires Stored(w, a, source, filename, chunking, parentId, o) && Extends(a, b)
    ensures Stored(w, b, source, filename, chunking, parentId, o)
  {
    hide Ingested, BuildV3;
    IngestedMonotone(w, a, b, source, |source|, Progress(o.chunks, o.segments, o.uploadedChunks, o.uploadedAuxBlobs), parentId);
  }

  lemma OmniVersionHeld(w: World, blobs: Blobs, q: Request, v: Version, o: OmniIngestResult)
    requires w.Sound() && Stored(w, blobs, q.file, q.filename, q.chunking, ParentId(q), o) && RouteOf(w, q) == OmniRaw
    requires v == Version(q.target, o.manifestId, q.filename, |q.file|, "chunked", None) && o.segments == PlanOf(w, q, q.file)
    ensures VersionHeld(w, blobs, v) && Published(w, blobs, q, v)
  {
    hide ManifestHeld, Stored, Normalize, PlanOf;
    StoredIsHeld(w, blobs, q.file, q.filename, q.chunking, ParentId(q), o);
    StoredFacts(w, blobs, q.file, q.filename, q.chunking, ParentId(q), o);
    StrategyIsKnown(w, q);
  }

  lemma DualVersionHeld(w: World, blobs: Blobs, q: Request, v: Version, o: OmniIngestResult)
    requires w.Sound() && RouteOf(w, q) == DualArtifact
    requires Stored(w, blobs, q.canonical.value.value, q.filename, q.chunking, ParentId(q), o)
    requires o.segments == PlanOf(w, q, q.canonical.value.value)
    requires v == Version(q.target, w.hash(q.file), q.filename, |q.file|, "chunked", Some(o.manifestId))
    requires v.contentId in blobs && blobs[v.contentId] == q.file
    ensures VersionHeld(w, blobs, v) && Published(w, blobs, q, v)
  {
    hide ManifestHeld, Stored, Normalize, PlanOf;
    StoredIsHeld(w, blobs, q.canonical.value.value, q.filename, q.chunking, ParentId(q), o);
    StrategyIsKnown(w, q);
  }

  method PublishChunkedFile(cas: Store, q: Request) returns (r: Result<PublishResult, PublishError>)
    requires cas.Valid() && cas.w.Sound() && NoDangling(cas.w, cas.blobs, cas.versions)
    requires q.chunking.max > 0 && q.entropy.GetOr(DefaultEntropy).windowSize > 0
    modifies cas`blobs, cas`versions
    ensures PublishOutcome(cas, q, r)
    ensures cas.versions != old(cas.versions) ==>
              cas.versions != [] && RegisteredAs(cas.w, cas.blobs, q, cas.versions[|cas.versions| - 1])
    ensures r.Ok? && RouteOf(cas.w, q) == ChunkedV2 ==>
              r.value.uploadedChunks == |HashesOf(FileChunks(cas.w, q.file, q.chunking, {})) - old(cas.blobs).Keys|
              && HashesOf(FileChunks(cas.w, q.file, q.chunking, {})) <= cas.blobs.Keys
  {
    hide VersionHeld, NoDangling, ManifestHeld, Extends, Published, FileChunks, HashesOf, ResolveStrategy, RegisteredAs;
    StrategyIsKnown(cas.w, q);
    if Strategy(cas.w, q).0 == "whole" {
      r := PublishWholeFile(cas, q);
      RegisteredLast(cas, q, old(cas.versions));
      return;
    }
    if q.canonical.Err? {
      ExtendsReflexive(cas.blobs);
      return Err(BeforeRegister);
    }
    if q.useOmni {
      r := PublishOmni(cas, q, q.canonical.value);
    } else {
      r := PublishChunkedV2(cas, q);
    }
    RegisteredLast(cas, q, old(cas.versions));
  }

  lemma RegisteredLast(cas: Store, q: Request, before: seq<Version>)
    requires cas.w.Sound()
    requires || cas.versions == before
             || exists v: Version :: Published(cas.w, cas.blobs, q, v) && cas.versions == before + [v]
    ensures cas.versions != before ==>
              cas.versions != [] && RegisteredAs(cas.w, cas.blobs, q, cas.versions[|cas.versions| - 1])
  {
    hide Published, RegisteredAs;
    if cas.versions != before {
      var v: Version :| Published(cas.w, cas.blobs, q, v) && cas.versions == before + [v];
      PublishedIsRegistered(cas.w, cas.blobs, q, v);
    }
  }

  /** Publishing the same file twice over version 2 uploads no chunk the second time. */
  method PublishTwice(cas: Store, q: Request) returns (first: Result<PublishResult, PublishError>,
                                                        second: Result<PublishResult, PublishError>)
    requires cas.Valid() && cas.w.Sound() && NoDangling(cas.w, cas.blobs, cas.versions) && RouteOf(cas.w, q) == ChunkedV2
    requires q.chunking.max > 0 && q.entropy.GetOr(DefaultEntropy).windowSize > 0
    modifies cas`blobs, cas`versions
    ensures first.Ok? && second.Ok? ==> second.value.uploadedChunks == 0
  {
    hide VersionHeld, NoDangling, ManifestHeld, Extends, Published, FileChunks, HashesOf, ResolveStrategy;
    first := PublishChunkedFile(cas, q);
    var hashes := HashesOf(FileChunks(cas.w, q.file, q.chunking, {}));
    assert first.Ok? ==> hashes - cas.blobs.Keys == {};
    second := PublishChunkedFile(cas, q);
  }

  // ---------------------------------------------------------------- review sequences

  datatype UploadStats = UploadStats(frames: nat, uploadedFrames: nat, uploadedBytes: nat, skippedFrames: nat, skippedBytes: nat)

  datatype FrameEntry = FrameEntry(frame: int, contentId: string, size: nat, filename: string)

  datatype Frame = Frame(number: int, filename: string, bytes: Bytes)

  function TotalBytes(frames: seq<Frame>): nat {
    if frames == [] then 0 else TotalBytes(frames[..|frames| - 1]) + |frames[|frames| - 1].bytes|
  }

  function FrameHashes(w: World, frames: seq<Frame>): set<string> {
    set f | f in frames :: w.hash(f.bytes)
  }

  /** The entries sent for these frames. */
  predicate EntriesFor(w: World, frames: seq<Frame>, entries: seq<FrameEntry>) {
    && |entries| == |frames|
    && forall i :: 0 <= i < |frames| ==>
         entries[i] == FrameEntry(frames[i].number, w.hash(frames[i].bytes), |frames[i].bytes|, frames[i].filename)
  }

  predicate Tallied(frames: seq<Frame>, s: UploadStats) {
    && s.frames == |frames| == s.uploadedFrames + s.skippedFrames
    && s.uploadedBytes + s.skippedBytes == TotalBytes(frames)
  }

  /** `submit_review_sequence` up to its POST, for frames in ascending order of number. Uploaded plus
      skipped is everything, each missing hash is uploaded exactly once, the store grows by exactly the bytes
      counted as uploaded, and every frame is stored. */
  method SubmitReviewSequence(cas: Store, frames: seq<Frame>) returns (r: Result<(seq<FrameEntry>, UploadStats), Failure>)
    requires cas.Valid() && cas.w.Sound()
    modifies cas`blobs
    ensures cas.Valid() && Extends(old(cas.blobs), cas.blobs)
    ensures r.Ok? ==> EntriesFor(cas.w, frames, r.value.0)
    ensures r.Ok? ==> cas.blobs.Keys == old(cas.blobs).Keys + FrameHashes(cas.w, frames)
    ensures r.Ok? ==> Tallied(frames, r.value.1)
    ensures r.Ok? ==> StoredBytes(cas.blobs) == StoredBytes(old(cas.blobs)) + r.value.1.uploadedBytes
    ensures r.Ok? ==> r.value.1.uploadedFrames == |FrameHashes(cas.w, frames) - old(cas.blobs).Keys|
    ensures cas.healthy ==> r.Ok?
  {
    hide Extends, Addressed, TotalBytes, FrameHashes, EntriesFor, Tallied, StoredBytes;
    var w := cas.w;
    var entries: seq<FrameEntry> := [];
    var sent: set<string> := {};
    var s := UploadStats(0, 0, 0, 0, 0);
    ExtendsReflexive(cas.blobs);
    FramesNil(w);
    WholeSlices(frames);
    for i := 0 to |frames|
      invariant cas.Valid() && Extends(old(cas.blobs), cas.blobs)
      invariant EntriesFor(w, frames[..i], entries) && sent == FrameHashes(w, frames[..i])
      invariant cas.blobs.Keys == old(cas.blobs).Keys + sent
      invariant Tallied(frames[..i], s)
      invariant |cas.blobs| == |old(cas.blobs)| + s.uploadedFrames
      invariant StoredBytes(cas.blobs) == StoredBytes(old(cas.blobs)) + s.uploadedBytes
    {
      var f := frames[i];
      var size, h := |f.bytes|, w.hash(f.bytes);
      FramesStep(w, frames, i, entries);
      label Before:
      var up := UploadUnsent(cas, f.bytes, h, sent);
      ExtendsTransitive(old(cas.blobs), old@Before(cas.blobs), cas.blobs);
      if up.Err? {
        return Err(up.error);
      }
      KeysAfter(old@Before(cas.blobs), cas.blobs, h, f.bytes, old(cas.blobs).Keys, sent);
      TallyStep(frames, i, s, up.value);
      s := Counted(s, size, up.value);
      sent := sent + {h};
      entries := entries + [FrameEntry(f.number, h, size, f.filename)];
    }
    CountNew(old(cas.blobs).Keys, sent, cas.blobs.Keys);
    r := Ok((entries, s));
  }

  /** The counters after one more frame. */
  function Counted(s: UploadStats, size: nat, uploaded: bool): UploadStats {
    if uploaded then s.(frames := s.frames + 1, uploadedFrames := s.uploadedFrames + 1, uploadedBytes := s.uploadedBytes + size)
    else s.(frames := s.frames + 1, skippedFrames := s.skippedFrames + 1, skippedBytes := s.skippedBytes + size)
  }

  lemma TallyStep(frames: seq<Frame>, i: nat, s: UploadStats, uploaded: bool)
    requires i < |frames| && Tallied(frames[..i], s)
    ensures Tallied(frames[..i + 1], Counted(s, |frames[i].bytes|, uploaded))
  {
    assert frames[..i + 1][..i] == frames[..i];
  }

  lemma FramesNil(w: World)
    ensures EntriesFor(w, [], []) && FrameHashes(w, []) == {} && Tallied([], UploadStats(0, 0, 0, 0, 0))
  {
  }

  lemma KeysAfter(a: Blobs, b: Blobs, h: string, body: Bytes, base: set<string>, sent: set<string>)
    requires a.Keys == base + sent && b == a[h := body]
    ensures b.Keys == base + (sent + {h})
  {
  }

  /** `if h in sent or blob_exists(h): skip else: upload`; true when it uploaded. */
  method UploadUnsent(cas: Store, body: Bytes, h: string, sent: set<string>) returns (r: Result<bool, Failure>)
    requires cas.Valid() && cas.w.Sound() && h == cas.w.hash(body) && sent <= cas.blobs.Keys
    modifies cas`blobs
    ensures cas.Valid() && Extends(old(cas.blobs), cas.blobs)
    ensures r.Ok? ==> cas.blobs == old(cas.blobs)[h := body] && r.value == (h !in old(cas.blobs))
    ensures cas.healthy ==> r.Ok?
    ensures r.Ok? ==> |cas.blobs| == |old(cas.blobs)| + (if r.value then 1 else 0)
    ensures r.Ok? ==> StoredBytes(cas.blobs) == StoredBytes(old(cas.blobs)) + if r.value then |body| else 0
  {
    hide StoredBytes;
    if h in sent || h in cas.blobs {
      Restore(cas.w, cas.blobs, body, h);
    } else {
      StoredBytesWith(cas.blobs, h, body);
    }
    if h in sent {
      return Ok(false);
    }
    r := UploadMissing(cas, body, h);
  }

  lemma FramesStep(w: World, frames: seq<Frame>, i: nat, entries: seq<FrameEntry>)
    requires i < |frames| && EntriesFor(w, frames[..i], entries)
    ensures FrameHashes(w, frames[..i + 1]) == FrameHashes(w, frames[..i]) + {w.hash(frames[i].bytes)}
    ensures EntriesFor(w, frames[..i + 1],
                       entries + [FrameEntry(frames[i].number, w.hash(frames[i].bytes), |frames[i].bytes|, frames[i].filename)])
  {
    assert frames[..i + 1] == frames[..i] + [frames[i]];
  }
}
