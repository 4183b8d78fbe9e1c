/** Publish, then load: the bytes that come back are the bytes that went in. */
module EndToEnd {
  import opened Base
  import opened Text
  import opened Worlds
  import opened Chunking
  import opened Manifest
  import opened ManifestTheory
  import opened Cas
  import opened Materialize
  import opened Ingest
  import opened Publisher
  import opened CacheIndex
  import opened LocalCaches
  import opened Places

  // ---------------------------------------------------------------- which manifests the cache can rebuild

  predicate HasPatch(ss: seq<ManifestSegment>) {
    exists i :: 0 <= i < |ss| && ss[i].ZstdDictPatch?
  }

  lemma {:induction false} WrittenSizes(blobs: Blobs, ss: seq<ManifestSegment>, parentId: string)
    requires AllWritten(blobs, ss, parentId)
    ensures TotalSize(ss) >= 0
  {
    if ss != [] {
      WrittenSizes(blobs, ss[..|ss| - 1], parentId);
    }
  }

  /** Everything ingest writes survives the parser, provided no patch carries an empty parent id. */
  lemma {:induction false} WrittenSurvives(blobs: Blobs, ss: seq<ManifestSegment>, parentId: string)
    requires AllWritten(blobs, ss, parentId) && (IsId(parentId) || !HasPatch(ss))
    ensures forall s :: s in ss ==> SegmentSurvives(s)
    ensures forall c :: c in RawChunks(ss) ==> c.hash in blobs && |blobs[c.hash]| == c.size
  {
    hide IsId;
    if ss != [] {
      var init, last := ss[..|ss| - 1], ss[|ss| - 1];
      assert ss == init + [last];
      if HasPatch(init) {
        var i :| 0 <= i < |init| && init[i].ZstdDictPatch?;
        assert ss[i].ZstdDictPatch?;
      }
      if last.ZstdDictPatch? {
        assert ss[|ss| - 1].ZstdDictPatch?;
      }
      WrittenSizes(blobs, init, parentId);
      WrittenSurvives(blobs, init, parentId);
      assert SegmentSurvives(last);
    }
  }

  /** The cache recognises a version 2 manifest iff it is small enough, and can then rebuild the file. */
  lemma V2Loads(w: World, blobs: Blobs, file: Bytes, filename: string, chunking: ChunkingConfig, mid: string)
    requires w.Sound() && StoredV2(w, blobs, file, filename, chunking, mid)
    ensures mid in blobs
    ensures var m := SmallManifest(w, blobs[mid]);
            && (m.Some? <==> |blobs[mid]| <= 262144)
            && (m.Some? ==> Rebuildable(w, blobs, m.value)
                            && OutPlace(m.value) == Place(w.hash(file), if filename == "" then w.hash(file) else filename))
  {
    hide Parse, BuildV2, Replay, AllWritten, FileChunks, Normalize;
    var cs := FileChunks(w, file, chunking, {});
    var chunks := AsManifestChunks(cs);
    HexIsNormal(w.hash(file));
    forall i | 0 <= i < |chunks|
      ensures ChunkSurvives(chunks[i]) && chunks[i].hash in blobs && |blobs[chunks[i].hash]| == chunks[i].size
    {
      RawHashesStored(w, blobs, RawSegments(cs), "", i);
    }
    V2Parses(w, filename, |file|, w.hash(file), Info(chunking), chunks);
    V2Encodes(w, filename, |file|, w.hash(file), Info(chunking), chunks);
    assert AsRaw(chunks) == RawSegments(cs);
  }

  /** The cache recognises an omni manifest iff it is small enough and no patch lacks a parent id, and
      can then rebuild the ingested bytes. */
  lemma V3Loads(w: World, blobs: Blobs, source: Bytes, filename: string, chunking: ChunkingConfig, parentId: string,
                o: OmniIngestResult)
    requires w.Sound() && Stored(w, blobs, source, filename, chunking, parentId, o) && Normalize(parentId) == parentId
    ensures o.manifestId in blobs
    ensures var m := SmallManifest(w, blobs[o.manifestId]);
            && (m.Some? <==> |blobs[o.manifestId]| <= 262144 && (parentId != "" || !HasPatch(o.segments)))
            && (m.Some? ==> Rebuildable(w, blobs, m.value)
                            && OutPlace(m.value) == Place(w.hash(source), if filename == "" then w.hash(source) else filename))
  {
    hide Parse, BuildV3, Replay, AllWritten, Normalize, HasPatch;
    var omni: Json :| w.Printable(omni) && o.manifestBytes
                      == w.encode(BuildV3(filename, |source|, o.wholeFile, Info(chunking), o.segments, Some(omni)));
    V3Encodes(w, filename, |source|, o.wholeFile, Info(chunking), o.segments, omni);
    HexIsNormal(w.hash(source));
    WholeSlices(source);
    if parentId != "" || !HasPatch(o.segments) {
      WrittenSurvives(blobs, o.segments, parentId);
      V3Parses(w, filename, |source|, o.wholeFile, Info(chunking), o.segments, Some(omni));
    } else {
      PatchIndex(o.segments);
      var i :| 0 <= i < |o.segments| && o.segments[i].ZstdDictPatch?;
      PatchParent(blobs, o.segments, parentId, i);
      V3Rejected(w, filename, |source|, o.wholeFile, Info(chunking), o.segments, Some(omni), i);
    }
  }

  lemma PatchIndex(ss: seq<ManifestSegment>)
    requires HasPatch(ss)
    ensures exists i :: 0 <= i < |ss| && ss[i].ZstdDictPatch?
  {
  }

  // ---------------------------------------------------------------- the round trip

  /** Both forms of the file's name, as the loader and as the manifest use it, are plain names. */
  predicate PlainNames(q: Request) {
    PlainName(q.filename) && PlainName(Strip(q.filename))
  }

  /** Where the loader looks first. */
  function FirstPlace(q: Request, v: Version): Place {
    Place(v.contentId, Strip(q.filename))
  }

  /** What decides whether loading gives back what was published. `hit` says that the cache already holds
      the blob registered, as a file under its own id: then its bytes come back, manifest or not.
      Otherwise a whole blob comes back unless it reads as a small manifest, and a manifest is
      followed when it is small enough to be looked at and, with dictionary patches, names a parent. */
  ghost predicate Deliverable(w: World, blobs: Blobs, q: Request, v: Version, hit: bool)
    requires v.contentId in blobs
  {
    if hit then blobs[v.contentId] == q.file
    else
      match RouteOf(w, q)
      case Whole => SmallManifest(w, q.file).None?
      case DualArtifact => SmallManifest(w, q.file).None?
      case ChunkedV2 => |blobs[v.contentId]| <= 262144
      case OmniRaw => |blobs[v.contentId]| <= 262144 && (ParentId(q) != "" || !HasPatch(PlanOf(w, q, q.file)))
  }

  predicate ByManifest(w: World, q: Request) {
    RouteOf(w, q).ChunkedV2? || RouteOf(w, q).OmniRaw?
  }

  /** The published file and the manifest that describes it coincide: a manifest that contains its own
      digest. No statement depends on whether such a file exists. */
  ghost predicate SelfDescribing(w: World, blobs: Blobs, q: Request, v: Version)
    requires v.contentId in blobs
  {
    if ByManifest(w, q) then blobs[v.contentId] == q.file
    else SmallManifest(w, q.file).Some? && SmallManifest(w, q.file).value.wholeFile == w.hash(q.file)
  }

  /** The manifest the loader would follow, if any, names plain places. */
  predicate TargetPlain(w: World, blob: Bytes) {
    SmallManifest(w, blob).Some? ==> Contained(SmallManifest(w, blob).value)
  }

  /** What the published blob means to the cache. */
  lemma PublishedLoads(w: World, blobs: Blobs, q: Request, v: Version)
    requires w.Sound() && Addressed(w, blobs) && Published(w, blobs, q, v)
    ensures v.contentId in blobs && Normalize(v.contentId) == v.contentId && v.contentId == w.hash(blobs[v.contentId])
    ensures !ByManifest(w, q) ==> blobs[v.contentId] == q.file
    ensures ByManifest(w, q) ==>
              var m := SmallManifest(w, blobs[v.contentId]);
              && (m.Some? <==> Deliverable(w, blobs, q, v, false))
              && (m.Some? ==> Rebuildable(w, blobs, m.value) && m.value.wholeFile == w.hash(q.file)
                              && (PlainNames(q) ==> Contained(m.value)))
  {
    hide Stored, StoredV2, SmallManifest, Rebuildable, PlanOf, HasPatch, Normalize, Contained, Addressed;
    match RouteOf(w, q)
    case Whole => HexIsNormal(w.hash(q.file));
    case DualArtifact => HexIsNormal(w.hash(q.file));
    case ChunkedV2 =>
      V2Loads(w, blobs, q.file, q.filename, q.chunking, v.contentId);
      StoredV2Hash(w, blobs, q.file, q.filename, q.chunking, v.contentId);
      HexIsNormal(v.contentId);
      RebuiltIsContained(w, blobs, q, blobs[v.contentId]);
    case OmniRaw =>
      var o: OmniIngestResult :| v.contentId == o.manifestId && o.segments == PlanOf(w, q, q.file)
                                 && Stored(w, blobs, q.file, q.filename, q.chunking, ParentId(q), o);
      ParentIdNormal(q);
      V3Loads(w, blobs, q.file, q.filename, q.chunking, ParentId(q), o);
      StoredHash(w, blobs, q.file, q.filename, q.chunking, ParentId(q), o);
      HexIsNormal(v.contentId);
      RebuiltIsContained(w, blobs, q, blobs[v.contentId]);
  }

  /** A manifest of a plainly named file that the store backs names plain places only. */
  lemma RebuiltIsContained(w: World, blobs: Blobs, q: Request, blob: Bytes)
    requires w.Sound() && Addressed(w, blobs)
    ensures var m := SmallManifest(w, blob);
            m.Some? && Rebuildable(w, blobs, m.value) && PlainNames(q)
            && OutPlace(m.value) == Place(w.hash(q.file), if q.filename == "" then w.hash(q.file) else q.filename)
            ==> Contained(m.value)
  {
    hide SmallManifest, Replay, PiecesOf, PlainName;
    PlainNotEmpty(q.filename);
    var m := SmallManifest(w, blob);
    if m.Some? && Rebuildable(w, blobs, m.value) {
      forall c | c in m.value.chunks
        ensures IsHex(c.hash)
      {
        assert w.hash(blobs[c.hash]) == c.hash;
      }
    }
  }

  lemma PlainNotEmpty(name: string)
    ensures PlainName(name) ==> name != "" && forall id :: IsHex(id) ==> PlainPlace(Place(id, name))
  {
  }

  lemma ParentIdNormal(q: Request)
    ensures Normalize(ParentId(q)) == ParentId(q)
  {
    hide Normalize;
    NormalizeIdempotent(if q.parentContentId.Some? then q.parentContentId.value
                        else if q.latestDedup.Ok? then q.latestDedup.value.GetOr("") else "");
  }

  lemma StoredV2Hash(w: World, blobs: Blobs, file: Bytes, filename: string, chunking: ChunkingConfig, mid: string)
    requires StoredV2(w, blobs, file, filename, chunking, mid)
    ensures mid in blobs && mid == w.hash(blobs[mid])
  {
  }

  lemma StoredHash(w: World, blobs: Blobs, source: Bytes, filename: string, chunking: ChunkingConfig, parentId: string,
                   o: OmniIngestResult)
    requires Stored(w, blobs, source, filename, chunking, parentId, o)
    ensures o.manifestId in blobs && o.manifestId == w.hash(blobs[o.manifestId])
  {
  }

  /** The outcome of a load: the returned file holds the published bytes. */
  predicate Delivered(files: Files, r: Result<Place, CacheError>, file: Bytes) {
    r.Ok? && r.value in files && files[r.value] == file
  }

  /** Loading a version whose publish is recorded in the store, into any valid cache. */
  method Load(cache: LocalCache, cas: Store, q: Request, v: Version) returns (r: Result<Place, CacheError>)
    requires cache.Valid() && cas.Valid() && cas.w.Sound() && cache.w == cas.w
    requires cas.healthy && cas.headWorks && Published(cas.w, cas.blobs, q, v)
    modifies cache, cache.index`entries
    ensures v.contentId in cas.blobs
    ensures var hit := old(cache.IsValidHit(FirstPlace(q, v), Some(|q.file|)));
            PlainNames(q) && Deliverable(cas.w, cas.blobs, q, v, hit) ==> Delivered(cache.files, r, q.file) && cache.Valid()
    ensures var hit := old(cache.IsValidHit(FirstPlace(q, v), Some(|q.file|)));
            PlainNames(q) && TargetPlain(cas.w, cas.blobs[v.contentId]) ==>
              && cache.Valid()
              && (!SelfDescribing(cas.w, cas.blobs, q, v) ==>
                    (Delivered(cache.files, r, q.file) <==> Deliverable(cas.w, cas.blobs, q, v, hit)))
              && (hit ==> Delivered(cache.files, r, cas.blobs[v.contentId]))
  {
    hide Published, Deliverable, SmallManifest, Rebuildable, Strip, Normalize, PlainName, ContentOk, ChunksOk, RowsOk,
         SelfDescribing, Contained, PlainPlace, OnlyAdds;
    var w := cas.w;
    PublishedLoads(w, cas.blobs, q, v);
    PublishedNames(w, cas.blobs, q, v);
    var p := FirstPlace(q, v);
    PlainNotEmpty(Strip(q.filename));
    ghost var hit := cache.IsValidHit(p, Some(|q.file|));
    ghost var blob := cas.blobs[v.contentId];
    LoadCases(w, cas.blobs, q, v);
    ghost var via, fetched;
    r, via, fetched := cache.EnsureCached(cas, v.contentId, v.filename, Some(v.size));
    if r.Ok? && r.value in cache.files {
      SameIfHashed(w, cache.files[r.value], q.file);
      SameIfHashed(w, cache.files[r.value], blob);
    }
  }

  /** The cases of `Deliverable` and `SelfDescribing`, by what the blob reads as. */
  lemma LoadCases(w: World, blobs: Blobs, q: Request, v: Version)
    requires w.Sound() && Addressed(w, blobs) && Published(w, blobs, q, v) && v.contentId in blobs
    ensures Deliverable(w, blobs, q, v, true) <==> blobs[v.contentId] == q.file
    ensures var m := SmallManifest(w, blobs[v.contentId]);
            && (Deliverable(w, blobs, q, v, false) <==> (ByManifest(w, q) <==> m.Some?))
            && (!ByManifest(w, q) && m.Some? && !SelfDescribing(w, blobs, q, v) ==> m.value.wholeFile != w.hash(q.file))
            && (ByManifest(w, q) && !SelfDescribing(w, blobs, q, v) ==> blobs[v.contentId] != q.file)
  {
    PublishedLoads(w, blobs, q, v);
    hide Published, SmallManifest, Rebuildable, HasPatch, PlanOf, Addressed, Contained, Normalize, Strip;
  }

  lemma SameIfHashed(w: World, a: Bytes, b: Bytes)
    requires w.CollisionFree()
    ensures w.hash(a) == w.hash(b) ==> a == b
  {
    if w.hash(a) == w.hash(b) { w.SameHash(a, b); }
  }

  lemma PublishedNames(w: World, blobs: Blobs, q: Request, v: Version)
    requires w.Sound() && Published(w, blobs, q, v) && v.contentId in blobs && v.contentId == w.hash(blobs[v.contentId])
    ensures v.filename == q.filename && v.size == |q.file| && IsHex(v.contentId)
  {
  }

  /** Where sizes are checked, a blob of another size than the file is never taken for it: every valid
      cache, whatever it has been through, misses. */
  lemma SizeMeansNoHit(cache: LocalCache, q: Request, v: Version, blob: Bytes)
    requires cache.Valid() && cache.w.CollisionFree() && v.contentId == cache.w.hash(blob)
    requires cache.verifySize && |blob| != |q.file| && FinalName(Strip(q.filename))
    ensures !cache.IsValidHit(FirstPlace(q, v), Some(|q.file|))
  {
    hide Strip, RowsOk, ChunksOk, FinalName;
    var p := FirstPlace(q, v);
    if p in cache.files {
      cache.w.SameHash(cache.files[p], blob);
    }
  }

  /** Publishing over any route and loading what was registered, from any valid cache: for plain names the
      published file comes back exactly when it is deliverable, and where sizes are checked nothing the
      cache holds can prevent that. */
  method PublishThenLoad(cache: LocalCache, cas: Store, q: Request) returns (v: Version, r: Result<Place, CacheError>)
    requires cache.Valid() && cas.Valid() && cas.w.Sound() && cache.w == cas.w && NoDangling(cas.w, cas.blobs, cas.versions)
    requires cas.healthy && cas.headWorks && q.canonical.Ok? && q.latestDedup.Ok?
    requires q.chunking.max > 0 && q.entropy.GetOr(DefaultEntropy).windowSize > 0
    modifies cache, cache.index`entries, cas`blobs, cas`versions
    ensures cas.Valid() && NoDangling(cas.w, cas.blobs, cas.versions)
    ensures cas.versions == old(cas.versions) + [v] && Published(cas.w, cas.blobs, q, v) && v.contentId in cas.blobs
    ensures var hit := old(cache.IsValidHit(FirstPlace(q, v), Some(|q.file|)));
            PlainNames(q) && Deliverable(cas.w, cas.blobs, q, v, hit) ==> Delivered(cache.files, r, q.file) && cache.Valid()
    ensures var hit := old(cache.IsValidHit(FirstPlace(q, v), Some(|q.file|)));
            PlainNames(q) && TargetPlain(cas.w, cas.blobs[v.contentId]) && !SelfDescribing(cas.w, cas.blobs, q, v) ==>
              (Delivered(cache.files, r, q.file) <==> Deliverable(cas.w, cas.blobs, q, v, hit))
    ensures PlainNames(q) && cache.verifySize && |cas.blobs[v.contentId]| != |q.file| ==>
              Deliverable(cas.w, cas.blobs, q, v, false) ==> Delivered(cache.files, r, q.file)
  {
    hide Published, Deliverable, SmallManifest, Rebuildable, Strip, Normalize, PlainName, ContentOk, ChunksOk, RowsOk,
         NoDangling, Extends, Addressed, SelfDescribing, Contained, Delivered, PlainPlace, FinalName;
    var published := PublishChunkedFile(cas, q);
    v := cas.versions[|cas.versions| - 1];
    assert Published(cas.w, cas.blobs, q, v);
    ghost var p := FirstPlace(q, v);
    PublishedLoads(cas.w, cas.blobs, q, v);
    PlainIsFinalName(Strip(q.filename));
    if cache.verifySize && |cas.blobs[v.contentId]| != |q.file| && FinalName(Strip(q.filename)) {
      SizeMeansNoHit(cache, q, v, cas.blobs[v.contentId]);
    }
    r := Load(cache, cas, q, v);
  }

  lemma PlainIsFinalName(name: string)
    ensures PlainName(name) ==> FinalName(name)
  {
  }

  /** The one way a valid cache can withhold a deliverable file: where sizes are not checked, a load
      while HEAD failed has left the manifest under its own id, and every later load returns that. */
  method StrayManifest(cas: Store, q: Request, v: Version, rank: string -> int) returns (cache: LocalCache, r: Result<Place, CacheError>)
    requires cas.Valid() && cas.w.Sound() && cas.healthy && cas.headWorks && FixedTieOrder(rank)
    requires Published(cas.w, cas.blobs, q, v) && RouteOf(cas.w, q) == ChunkedV2 && PlainNames(q)
    requires v.contentId in cas.blobs && cas.blobs[v.contentId] != q.file && |cas.blobs[v.contentId]| <= 262144
    ensures Deliverable(cas.w, cas.blobs, q, v, false)
    ensures Delivered(cache.files, r, cas.blobs[v.contentId]) && !Delivered(cache.files, r, q.file)
  {
    hide Published, Rebuildable, Strip, Normalize, PlainName, SmallManifest, ContentOk, ChunksOk, RowsOk, PlainPlace, Contained,
         OnlyAdds;
    var w := cas.w;
    cache := new LocalCache(w, rank, 0, false, true);
    PublishedLoads(w, cas.blobs, q, v);
    PublishedNames(w, cas.blobs, q, v);
    PlainNotEmpty(Strip(q.filename));
    var first := cache.DownloadBlob(cas, v.contentId, Strip(q.filename), Some(v.size));
    r := Load(cache, cas, q, v);
  }
}
