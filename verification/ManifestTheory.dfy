/** The inverse laws of manifests: what survives a build-and-parse, exactly, and what every accepted
    manifest satisfies. */
module ManifestTheory {
  import opened Base
  import opened Text
  import opened Worlds
  import opened Manifest

  // ---------------------------------------------------------------- what survives

  predicate IsId(s: string) {
    s != "" && Normalize(s) == s
  }

  predicate ChunkingSurvives(c: ChunkingInfo) {
    c.algo != "" && c.avg != 0 && c.min != 0 && c.max != 0
  }

  predicate ChunkSurvives(c: ManifestChunk) {
    IsId(c.hash) && c.size >= 0
  }

  predicate SegmentSurvives(s: ManifestSegment) {
    match s
    case RawChunk(hash, size) => IsId(hash) && size >= 0
    case ZstdDictPatch(parent, start, end, dict, patch, patchSize, size) =>
      IsId(parent) && IsId(dict) && IsId(patch) && 0 <= start <= end && patchSize >= 0 && size >= 0
  }

  lemma ParseChunkJson(w: World, c: ManifestChunk)
    ensures ParseChunk(w, ChunkJson(c)) == Some(c) <==> ChunkSurvives(c)
  {
  }

  lemma ParseSegmentJson(w: World, s: ManifestSegment)
    ensures ParseSegment(w, SegmentJson(s)) == Some(s) <==> SegmentSurvives(s)
  {
    hide Normalize, ParsePatch;
    KindsAreIds();
    if s.ZstdDictPatch? {
      ParsePatchJson(w, s);
    }
  }

  lemma ParsePatchJson(w: World, s: ManifestSegment)
    requires s.ZstdDictPatch?
    ensures ParsePatch(w, SegmentJson(s).fields) == Some(s) <==> SegmentSurvives(s)
  {
    hide Normalize;
    PatchFields(s);
    hide SegmentJson, Get;
  }

  lemma PatchFields(s: ManifestSegment)
    requires s.ZstdDictPatch?
    ensures var f := SegmentJson(s).fields;
            && Get(f, "parent_content_id") == Str(s.parentContentId) && Get(f, "range_start") == Int(s.rangeStart)
            && Get(f, "range_end") == Int(s.rangeEnd) && Get(f, "dict_hash") == Str(s.dictHash)
            && Get(f, "patch_hash") == Str(s.patchHash) && Get(f, "patch_size") == Int(s.patchSize)
            && Get(f, "uncompressed_size") == Int(s.uncompressedSize)
  {
  }

  lemma KindsAreIds()
    ensures Normalize("raw_chunk") == "raw_chunk" && Normalize("zstd_dict_patch") == "zstd_dict_patch"
    ensures Normalize("blake3") == "blake3" && Normalize("") == ""
  {
    IdLiteral("raw_chunk");
    IdLiteral("zstd_dict_patch");
    IdLiteral("blake3");
  }

  lemma IdLiteral(s: string)
    requires s != "" && !IsSpace(s[0]) && !IsSpace(s[|s| - 1]) && forall i :: 0 <= i < |s| ==> LowerChar(s[i]) == s[i]
    ensures Normalize(s) == s
  {
    StripTrims(s);
    assert Lower(s) == s;
  }

  lemma {:induction false} ParseChunksJson(w: World, cs: seq<ManifestChunk>)
    ensures ParseChunks(w, ChunksJson(cs).items) == Some(cs) <==> forall c :: c in cs ==> ChunkSurvives(c)
  {
    hide ParseChunk, ChunkJson, ChunkSurvives;
    if cs != [] {
      var init, last := cs[..|cs| - 1], cs[|cs| - 1];
      assert cs == init + [last];
      assert ChunksJson(cs).items[..|cs| - 1] == ChunksJson(init).items;
      ParseChunksJson(w, init);
      ParseChunkJson(w, last);
    }
  }

  lemma {:induction false} ParseSegmentsJson(w: World, ss: seq<ManifestSegment>)
    ensures ParseSegments(w, SegmentsJson(ss).items) == Some(ss) <==> forall s :: s in ss ==> SegmentSurvives(s)
  {
    hide ParseSegment, SegmentJson, SegmentSurvives;
    if ss != [] {
      var init, last := ss[..|ss| - 1], ss[|ss| - 1];
      assert ss == init + [last];
      assert SegmentsJson(ss).items[..|ss| - 1] == SegmentsJson(init).items;
      ParseSegmentsJson(w, init);
      ParseSegmentJson(w, last);
    }
  }

  lemma ParseChunkingJson(w: World, c: ChunkingInfo)
    ensures ParseChunking(w, ChunkingJson(c)) == Some(c) <==> ChunkingSurvives(c)
    ensures ParseChunking(w, ChunkingJson(c)).Some?
  {
  }

  // ---------------------------------------------------------------- round trips

  lemma V2Fields(filename: string, size: int, whole: string, chunking: ChunkingInfo, chunks: seq<ManifestChunk>)
    ensures var f := BuildV2(filename, size, whole, chunking, chunks).fields;
            && Get(f, "schema") == Str(SCHEMA_V2) && Get(f, "hash_algo") == Str("blake3")
            && Get(f, "filename") == Str(filename) && Get(f, "size_bytes") == Int(size)
            && Get(f, "whole_file_blake3") == Str(whole) && Get(f, "whole_file_sha256") == Null
            && Get(f, "chunking") == ChunkingJson(chunking) && Get(f, "chunks") == ChunksJson(chunks)
  {
  }

  /** A version 2 manifest parses back to exactly what was built iff its parts are in normal form. */
  lemma V2RoundTrip(w: World, filename: string, size: int, whole: string, chunking: ChunkingInfo, chunks: seq<ManifestChunk>)
    ensures Parse(w, BuildV2(filename, size, whole, chunking, chunks))
         == Some(Manifest(SCHEMA_V2, filename, size, whole, chunking, chunks, None, "blake3"))
       <==> ChunkingSurvives(chunking) && Normalize(whole) == whole && forall c :: c in chunks ==> ChunkSurvives(c)
  {
    hide Get, Normalize, BuildV2, ParseChunking, ParseChunks, ChunkingJson, ChunksJson, ChunkingSurvives, ChunkSurvives;
    V2Fields(filename, size, whole, chunking, chunks);
    KindsAreIds();
    ParseChunkingJson(w, chunking);
    ParseChunksJson(w, chunks);
    ListOrArr(ChunksJson(chunks));
  }

  lemma ListOrArr(j: Json)
    requires j.Arr?
    ensures ListOr(j) == Some(j.items)
  {
  }

  lemma V3Fields(filename: string, size: int, whole: string, chunking: ChunkingInfo, segments: seq<ManifestSegment>,
                 omni: Option<Json>)
    ensures var f := BuildV3(filename, size, whole, chunking, segments, omni).fields;
            && Get(f, "schema") == Str(SCHEMA_V3) && Get(f, "hash_algo") == Str("blake3")
            && Get(f, "filename") == Str(filename) && Get(f, "size_bytes") == Int(size)
            && Get(f, "whole_file_blake3") == Str(whole) && Get(f, "whole_file_sha256") == Null
            && Get(f, "chunking") == ChunkingJson(chunking) && Get(f, "segments") == SegmentsJson(segments)
  {
    hide ChunkingJson, SegmentsJson;
  }

  /** A version 3 manifest parses back to what was built, with `chunks` the raw segments in order, iff its
      parts are in normal form; an empty parent id is therefore fatal. */
  lemma V3RoundTrip(w: World, filename: string, size: int, whole: string, chunking: ChunkingInfo,
                    segments: seq<ManifestSegment>, omni: Option<Json>)
    ensures Parse(w, BuildV3(filename, size, whole, chunking, segments, omni))
         == Some(Manifest(SCHEMA_V3, filename, size, whole, chunking, RawChunks(segments), Some(segments), "blake3"))
       <==> ChunkingSurvives(chunking) && Normalize(whole) == whole && forall s :: s in segments ==> SegmentSurvives(s)
  {
    hide Get, Normalize, BuildV3, ParseChunking, ParseSegments, ChunkingJson, SegmentsJson, ChunkingSurvives,
         SegmentSurvives, RawChunks;
    V3Fields(filename, size, whole, chunking, segments, omni);
    KindsAreIds();
    ParseChunkingJson(w, chunking);
    ParseSegmentsJson(w, segments);
    ListOrArr(SegmentsJson(segments));
  }

  /** Whatever the chunking numbers, a manifest with well-formed parts is accepted with those parts. */
  lemma V2Parses(w: World, filename: string, size: int, whole: string, chunking: ChunkingInfo, chunks: seq<ManifestChunk>)
    requires Normalize(whole) == whole && forall c :: c in chunks ==> ChunkSurvives(c)
    ensures var m := Parse(w, BuildV2(filename, size, whole, chunking, chunks));
            m.Some? && m.value == Manifest(SCHEMA_V2, filename, size, whole, m.value.chunking, chunks, None, "blake3")
  {
    hide Get, Normalize, BuildV2, ParseChunking, ParseChunks, ChunkingJson, ChunksJson, ChunkingSurvives, ChunkSurvives;
    V2Fields(filename, size, whole, chunking, chunks);
    KindsAreIds();
    ParseChunkingJson(w, chunking);
    ParseChunksJson(w, chunks);
    ListOrArr(ChunksJson(chunks));
  }

  lemma V3Parses(w: World, filename: string, size: int, whole: string, chunking: ChunkingInfo,
                 segments: seq<ManifestSegment>, omni: Option<Json>)
    requires Normalize(whole) == whole && forall s :: s in segments ==> SegmentSurvives(s)
    ensures var m := Parse(w, BuildV3(filename, size, whole, chunking, segments, omni));
            m.Some? && m.value == Manifest(SCHEMA_V3, filename, size, whole, m.value.chunking, RawChunks(segments),
                                           Some(segments), "blake3")
  {
    hide Get, Normalize, BuildV3, ParseChunking, ParseSegments, ChunkingJson, SegmentsJson, ChunkingSurvives,
         SegmentSurvives, RawChunks;
    V3Fields(filename, size, whole, chunking, segments, omni);
    KindsAreIds();
    ParseChunkingJson(w, chunking);
    ParseSegmentsJson(w, segments);
    ListOrArr(SegmentsJson(segments));
  }

  /** One entry that does not parse makes the whole manifest unparseable. */
  lemma V3Rejected(w: World, filename: string, size: int, whole: string, chunking: ChunkingInfo,
                   segments: seq<ManifestSegment>, omni: Option<Json>, i: nat)
    requires i < |segments| && segments[i].ZstdDictPatch? && Normalize(segments[i].parentContentId) == ""
    ensures Parse(w, BuildV3(filename, size, whole, chunking, segments, omni)) == None
  {
    var items := SegmentsJson(segments).items;
    assert items[..i + 1][..i] == items[..i] && items[..i + 1][i] == SegmentJson(segments[i]);
    hide Get, Normalize, BuildV3, ParseChunking, ChunkingJson, SegmentsJson, SegmentJson, ParseSegment;
    EmptyParentRejected(w, segments[i]);
    assert ParseSegments(w, items[..i + 1]).None?;
    SegmentsFail(w, items, i + 1);
    V3Fields(filename, size, whole, chunking, segments, omni);
    ListOrArr(SegmentsJson(segments));
  }

  lemma EmptyParentRejected(w: World, s: ManifestSegment)
    requires s.ZstdDictPatch? && Normalize(s.parentContentId) == ""
    ensures ParseSegment(w, SegmentJson(s)) == None
  {
    hide Normalize;
    KindsAreIds();
    PatchFields(s);
  }

  // ---------------------------------------------------------------- what every accepted manifest satisfies

  ghost predicate Accepted(m: Manifest) {
    && (m.schema == SCHEMA_V1 || m.schema == SCHEMA_V2 || m.schema == SCHEMA_V3)
    && (m.segments.Some? <==> m.schema == SCHEMA_V3)
    && Normalize(m.wholeFile) == m.wholeFile && Normalize(m.hashAlgo) == m.hashAlgo
    && (forall c :: c in m.chunks ==> ChunkSurvives(c))
    && (m.segments.Some? ==> m.chunks == RawChunks(m.segments.value)
                             && forall s :: s in m.segments.value ==> SegmentSurvives(s))
  }

  lemma ParsedChunkSurvives(w: World, j: Json)
    ensures ParseChunk(w, j).Some? ==> ChunkSurvives(ParseChunk(w, j).value)
  {
    hide Normalize;
    if j.Obj? { NormalizeIdempotent(TextOr(w, Get(j.fields, "hash"), "")); }
  }

  lemma ParsedSegmentSurvives(w: World, j: Json)
    ensures ParseSegment(w, j).Some? ==> SegmentSurvives(ParseSegment(w, j).value)
  {
    hide Normalize;
    if j.Obj? {
      ParsedChunkSurvives(w, j);
      NormalizeIdempotent(TextOr(w, Get(j.fields, "parent_content_id"), ""));
      NormalizeIdempotent(TextOr(w, Get(j.fields, "dict_hash"), ""));
      NormalizeIdempotent(TextOr(w, Get(j.fields, "patch_hash"), ""));
      hide ParseChunk, TextOr, IntOr, Get;
    }
  }

  lemma {:induction false} ParsedChunksSurvive(w: World, items: seq<Json>)
    ensures ParseChunks(w, items).Some? ==> forall c :: c in ParseChunks(w, items).value ==> ChunkSurvives(c)
  {
    hide ParseChunk, ChunkSurvives;
    if items != [] {
      ParsedChunksSurvive(w, items[..|items| - 1]);
      ParsedChunkSurvives(w, items[|items| - 1]);
    }
  }

  lemma {:induction false} ParsedSegmentsSurvive(w: World, items: seq<Json>)
    ensures ParseSegments(w, items).Some? ==> forall s :: s in ParseSegments(w, items).value ==> SegmentSurvives(s)
  {
    hide ParseSegment, SegmentSurvives;
    if items != [] {
      ParsedSegmentsSurvive(w, items[..|items| - 1]);
      ParsedSegmentSurvives(w, items[|items| - 1]);
    }
  }

  lemma {:induction false} RawChunksSurvive(ss: seq<ManifestSegment>)
    requires forall s :: s in ss ==> SegmentSurvives(s)
    ensures forall c :: c in RawChunks(ss) ==> ChunkSurvives(c)
  {
    if ss != [] {
      RawChunksSurvive(ss[..|ss| - 1]);
      assert SegmentSurvives(ss[|ss| - 1]);
    }
  }

  /** Every manifest the parser accepts passes all size and range checks and carries normalized ids. */
  lemma ParsedIsAccepted(w: World, data: Json)
    ensures Parse(w, data).Some? ==> Accepted(Parse(w, data).value)
  {
    if Parse(w, data).Some? {
      hide Normalize, ParseChunking, ParseSegments, ParseChunks, TextOr, IntOr, SegmentSurvives, ChunkSurvives;
      var f := data.fields;
      var whole := if Truthy(Get(f, "whole_file_blake3")) then Get(f, "whole_file_blake3") else Get(f, "whole_file_sha256");
      NormalizeIdempotent(TextOr(w, whole, ""));
      NormalizeIdempotent(TextOr(w, Get(f, "hash_algo"), "blake3"));
      var list := ListOr(Get(f, if Get(f, "schema").s == SCHEMA_V3 then "segments" else "chunks"));
      ParsedChunksSurvive(w, list.value);
      ParsedSegmentsSurvive(w, list.value);
      var segments := ParseSegments(w, list.value);
      if segments.Some? { RawChunksSurvive(segments.value); }
    }
  }

  // ---------------------------------------------------------------- re-building a parsed manifest

  /** The builder of the manifest's own schema, applied to what was parsed. */
  function Rebuild(m: Manifest): Option<Json> {
    if m.schema == SCHEMA_V1 then BuildV1(m.filename, m.sizeBytes, m.wholeFile, m.chunking, m.chunks)
    else if m.schema == SCHEMA_V2 then Some(BuildV2(m.filename, m.sizeBytes, m.wholeFile, m.chunking, m.chunks))
    else Some(BuildV3(m.filename, m.sizeBytes, m.wholeFile, m.chunking, m.segments.GetOr([]), None))
  }

  lemma V1Fields(filename: string, size: int, whole: string, chunking: ChunkingInfo, chunks: seq<ManifestChunk>)
    requires Normalize(whole) == whole != ""
    ensures var j := BuildV1(filename, size, whole, chunking, chunks);
            && j.Some? && j.value.Obj?
            && var f := j.value.fields;
               && Get(f, "schema") == Str(SCHEMA_V1) && Get(f, "hash_algo") == Str("blake3")
               && Get(f, "filename") == Str(filename) && Get(f, "size_bytes") == Int(size)
               && Get(f, "whole_file_blake3") == Str(whole)
               && Get(f, "chunking") == ChunkingJson(chunking) && Get(f, "chunks") == ChunksJson(chunks)
  {
    hide Normalize, ChunkingJson, ChunksJson;
  }

  lemma V1NeedsHash(filename: string, size: int, chunking: ChunkingInfo, chunks: seq<ManifestChunk>)
    ensures BuildV1(filename, size, "", chunking, chunks) == None
  {
    KindsAreIds();
  }

  lemma V1RoundTrip(w: World, filename: string, size: int, whole: string, chunking: ChunkingInfo, chunks: seq<ManifestChunk>)
    requires Normalize(whole) == whole != ""
    ensures Parse(w, BuildV1(filename, size, whole, chunking, chunks).value)
         == Some(Manifest(SCHEMA_V1, filename, size, whole, chunking, chunks, None, "blake3"))
       <==> ChunkingSurvives(chunking) && forall c :: c in chunks ==> ChunkSurvives(c)
  {
    hide Get, Normalize, BuildV1, ParseChunking, ParseChunks, ChunkingJson, ChunksJson, ChunkingSurvives, ChunkSurvives;
    V1Fields(filename, size, whole, chunking, chunks);
    KindsAreIds();
    ParseChunkingJson(w, chunking);
    ParseChunksJson(w, chunks);
    ListOrArr(ChunksJson(chunks));
  }

  lemma ParsedAlgo(w: World, data: Json)
    requires data.Obj? && Get(data.fields, "hash_algo") == Str("blake3")
    ensures Parse(w, data).Some? ==> Parse(w, data).value.hashAlgo == "blake3"
  {
    hide Get, Normalize, ParseChunking, ParseChunks, ParseSegments;
    KindsAreIds();
  }

  /** Re-building and re-parsing an accepted manifest changes nothing iff it names the algorithm the
      builders write, none of its chunking numbers is zero, and a version 1 manifest has a file hash. */
  lemma ReparseFixpoint(w: World, m: Manifest)
    requires Accepted(m)
    ensures (Rebuild(m).Some? && Parse(w, Rebuild(m).value) == Some(m))
       <==> m.hashAlgo == "blake3" && ChunkingSurvives(m.chunking) && (m.schema == SCHEMA_V1 ==> m.wholeFile != "")
  {
    hide Normalize, BuildV1, BuildV2, BuildV3, Parse, Get, RawChunks, ChunkingSurvives, ChunkSurvives, SegmentSurvives;
    if m.schema == SCHEMA_V1 && m.wholeFile == "" {
      V1NeedsHash(m.filename, m.sizeBytes, m.chunking, m.chunks);
    } else if m.schema == SCHEMA_V1 {
      V1Fields(m.filename, m.sizeBytes, m.wholeFile, m.chunking, m.chunks);
      ParsedAlgo(w, Rebuild(m).value);
      V1RoundTrip(w, m.filename, m.sizeBytes, m.wholeFile, m.chunking, m.chunks);
    } else if m.schema == SCHEMA_V2 {
      V2RoundTrip(w, m.filename, m.sizeBytes, m.wholeFile, m.chunking, m.chunks);
      V2Fields(m.filename, m.sizeBytes, m.wholeFile, m.chunking, m.chunks);
      ParsedAlgo(w, Rebuild(m).value);
    } else {
      V3RoundTrip(w, m.filename, m.sizeBytes, m.wholeFile, m.chunking, m.segments.value, None);
      V3Fields(m.filename, m.sizeBytes, m.wholeFile, m.chunking, m.segments.value, None);
      ParsedAlgo(w, Rebuild(m).value);
    }
  }

  /** A document that parsing and re-building changes: the builders always write `blake3`. */
  lemma ReparseLosesHashAlgo(w: World)
    ensures var m := Parse(w, Obj(map["schema" := Str(SCHEMA_V2), "hash_algo" := Str("sha256")]));
            m.Some? && Rebuild(m.value).Some? && Parse(w, Rebuild(m.value).value) != m
  {
    hide Normalize;
    var doc := Obj(map["schema" := Str(SCHEMA_V2), "hash_algo" := Str("sha256")]);
    IdLiteral("sha256");
    assert Parse(w, doc).Some? && Parse(w, doc).value.hashAlgo == "sha256";
    ParsedIsAccepted(w, doc);
    ReparseFixpoint(w, Parse(w, doc).value);
  }

  // ---------------------------------------------------------------- text form

  lemma ChunkingPrints(w: World, c: ChunkingInfo)
    ensures w.Printable(ChunkingJson(c))
  {
  }

  lemma SegmentPrints(w: World, s: ManifestSegment)
    ensures w.Printable(SegmentJson(s))
  {
  }

  /** A version 2 manifest survives being written as text and read back. */
  lemma V2Encodes(w: World, filename: string, size: int, whole: string, chunking: ChunkingInfo, chunks: seq<ManifestChunk>)
    requires w.JsonRoundTrips()
    ensures var j := BuildV2(filename, size, whole, chunking, chunks); w.decode(w.encode(j)) == Some(j)
  {
    hide ChunkingJson, ChunksJson;
    ChunkingPrints(w, chunking);
    ChunksPrint(w, chunks);
    assert w.Printable(BuildV2(filename, size, whole, chunking, chunks));
  }

  lemma ChunksPrint(w: World, chunks: seq<ManifestChunk>)
    ensures w.Printable(ChunksJson(chunks))
  {
    forall i | 0 <= i < |chunks|
      ensures w.Printable(ChunkJson(chunks[i]))
    {
    }
    hide ChunkJson;
    assert w.Printable(ChunksJson(chunks));
  }

  /** So does a version 3 manifest whose metadata block does. */
  lemma V3Encodes(w: World, filename: string, size: int, whole: string, chunking: ChunkingInfo,
                  segments: seq<ManifestSegment>, omni: Json)
    requires w.JsonRoundTrips() && w.Printable(omni)
    ensures var j := BuildV3(filename, size, whole, chunking, segments, Some(omni)); w.decode(w.encode(j)) == Some(j)
  {
    hide ChunkingJson, SegmentsJson;
    ChunkingPrints(w, chunking);
    SegmentsPrint(w, segments);
    assert w.Printable(BuildV3(filename, size, whole, chunking, segments, Some(omni)));
  }

  lemma SegmentsPrint(w: World, segments: seq<ManifestSegment>)
    ensures w.Printable(SegmentsJson(segments))
  {
    forall i | 0 <= i < |segments|
      ensures w.Printable(SegmentJson(segments[i]))
    {
      SegmentPrints(w, segments[i]);
    }
    hide SegmentJson;
    assert w.Printable(SegmentsJson(segments));
  }

  // ---------------------------------------------------------------- reading documents written elsewhere

  /** Ids are trimmed and folded as they are read; an empty one or a negative size is refused. */
  lemma ChunkRead(w: World, f: map<string, Json>, h: string, n: int)
    requires Get(f, "hash") == Str(h) && Get(f, "size") == Int(n)
    ensures ParseChunk(w, Obj(f)) == if Normalize(h) != "" && n >= 0 then Some(ManifestChunk(Normalize(h), n)) else None
  {
    hide Normalize;
    KindsAreIds();
  }

  lemma RawSegmentRead(w: World, f: map<string, Json>, kind: string, h: string, n: int)
    requires Get(f, "kind") == Str(kind) && Normalize(kind) == "raw_chunk" && Get(f, "hash") == Str(h) && Get(f, "size") == Int(n)
    ensures ParseSegment(w, Obj(f)) == if Normalize(h) != "" && n >= 0 then Some(RawChunk(Normalize(h), n)) else None
  {
    hide Normalize, ParseChunk;
    KindsAreIds();
    ChunkRead(w, f, h, n);
  }

  lemma PatchRead(w: World, f: map<string, Json>, kind: string, parent: string, dict: string, patch: string,
                  start: int, end: int, patchSize: int, size: int)
    requires Get(f, "kind") == Str(kind) && Normalize(kind) == "zstd_dict_patch"
    requires Get(f, "parent_content_id") == Str(parent) && Get(f, "dict_hash") == Str(dict) && Get(f, "patch_hash") == Str(patch)
    requires Get(f, "range_start") == Int(start) && Get(f, "range_end") == Int(end)
    requires Get(f, "patch_size") == Int(patchSize) && Get(f, "uncompressed_size") == Int(size)
    ensures ParseSegment(w, Obj(f))
         == if Normalize(parent) != "" && Normalize(dict) != "" && Normalize(patch) != ""
               && 0 <= start <= end && patchSize >= 0 && size >= 0
            then Some(ZstdDictPatch(Normalize(parent), start, end, Normalize(dict), Normalize(patch), patchSize, size)) else None
  {
    hide Normalize, ParseChunk, Get;
    KindsAreIds();
  }

  /** A segment of any other kind, or an entry that is no object, is refused. */
  lemma OtherSegmentRefused(w: World, j: Json, kind: string)
    requires j.Obj? ==> Get(j.fields, "kind") == Str(kind)
    requires Normalize(kind) != "raw_chunk" && Normalize(kind) != "zstd_dict_patch"
    ensures ParseSegment(w, j) == None
  {
    hide Normalize, ParseChunk, ParsePatch;
    KindsAreIds();
  }

  /** A number of the chunking block: missing or zero stands for the default. */
  predicate NumberRead(f: map<string, Json>, key: string, default: int, n: int) {
    && (key !in f || f[key] == Int(0) || f[key] == Null ==> n == default)
    && (key in f && f[key].Int? && f[key].n != 0 ==> n == f[key].n)
  }

  /** A text field: missing or empty stands for the default. */
  predicate TextRead(f: map<string, Json>, key: string, default: string, s: string) {
    && (key !in f || f[key] == Str("") || f[key] == Null ==> s == default)
    && (key in f && f[key].Str? && f[key].s != "" ==> s == f[key].s)
  }

  lemma TextIsRead(w: World, f: map<string, Json>, key: string, default: string)
    ensures TextRead(f, key, default, TextOr(w, Get(f, key), default))
  {
  }

  lemma NumberIsRead(w: World, f: map<string, Json>, key: string, default: int)
    ensures IntOr(w, Get(f, key), default).Some? ==> NumberRead(f, key, default, IntOr(w, Get(f, key), default).value)
  {
  }

  predicate ChunkingRead(f: map<string, Json>, c: ChunkingInfo) {
    && TextRead(f, "algo", "fastcdc", c.algo) && NumberRead(f, "avg", 1048576, c.avg)
    && NumberRead(f, "min", 262144, c.min) && NumberRead(f, "max", 4194304, c.max)
  }

  lemma ChunkingIsRead(w: World, j: Json)
    ensures var c := ParseChunking(w, j);
            c.Some? ==> (!Truthy(j) ==> ChunkingRead(map[], c.value)) && (j.Obj? ==> ChunkingRead(j.fields, c.value))
  {
    hide TextRead, NumberRead, TextOr, IntOr;
    var f := if Truthy(j) && j.Obj? then j.fields else map[];
    TextIsRead(w, f, "algo", "fastcdc");
    NumberIsRead(w, f, "avg", 1048576);
    NumberIsRead(w, f, "min", 262144);
    NumberIsRead(w, f, "max", 4194304);
  }

  /** The id of the file: `whole_file_blake3`, or the deprecated `whole_file_sha256` where that is missing. */
  predicate WholeRead(f: map<string, Json>, whole: string) {
    && ("whole_file_blake3" in f && f["whole_file_blake3"].Str? && f["whole_file_blake3"].s != "" ==>
          whole == Normalize(f["whole_file_blake3"].s))
    && ("whole_file_blake3" !in f && "whole_file_sha256" in f && f["whole_file_sha256"].Str? ==>
          whole == Normalize(f["whole_file_sha256"].s))
    && ("whole_file_blake3" !in f && "whole_file_sha256" !in f ==> whole == "")
  }

  lemma WholeIsRead(w: World, f: map<string, Json>)
    ensures var whole := if Truthy(Get(f, "whole_file_blake3")) then Get(f, "whole_file_blake3") else Get(f, "whole_file_sha256");
            WholeRead(f, IdOf(w, whole))
  {
    hide Normalize;
    KindsAreIds();
  }

  /** What an accepted document's fields become, present or not. */
  lemma DocumentRead(w: World, f: map<string, Json>)
    ensures var m := Parse(w, Obj(f));
            m.Some? ==>
              && Get(f, "schema") == Str(m.value.schema)
              && TextRead(f, "filename", "", m.value.filename)
              && NumberRead(f, "size_bytes", 0, m.value.sizeBytes)
              && WholeRead(f, m.value.wholeFile)
              && ("hash_algo" !in f ==> m.value.hashAlgo == "blake3")
              && ("hash_algo" in f && f["hash_algo"].Str? && f["hash_algo"].s != "" ==>
                    m.value.hashAlgo == Normalize(f["hash_algo"].s))
              && ("chunking" !in f ==> ChunkingRead(map[], m.value.chunking))
              && ("chunking" in f && f["chunking"].Obj? ==> ChunkingRead(f["chunking"].fields, m.value.chunking))
  {
    hide Normalize, TextRead, NumberRead, WholeRead, ChunkingRead, IntOr, ParseChunking, ParseChunks, ParseSegments, RawChunks;
    KindsAreIds();
    TextIsRead(w, f, "filename", "");
    NumberIsRead(w, f, "size_bytes", 0);
    WholeIsRead(w, f);
    ChunkingIsRead(w, Get(f, "chunking"));
  }
}
