/** Manifests (zeno_client/manifest.py) as JSON values: the builders, the parser, and their inverse laws. */
module Manifest {
  import opened Base
  import opened Text
  import opened Worlds

  const SCHEMA_V1 := "chimera.manifest.v1"
  const SCHEMA_V2 := "chimera.manifest.v2"
  const SCHEMA_V3 := "chimera.manifest.v3"

  datatype ManifestChunk = ManifestChunk(hash: string, size: int)

  datatype ManifestSegment =
    | RawChunk(hash: string, size: int)
    | ZstdDictPatch(parentContentId: string, rangeStart: int, rangeEnd: int, dictHash: string, patchHash: string,
                    patchSize: int, uncompressedSize: int)

  /** The chunking parameters as written in a manifest, where nothing bounds the numbers. */
  datatype ChunkingInfo = ChunkingInfo(algo: string, avg: int, min: int, max: int)

  datatype Manifest = Manifest(schema: string, filename: string, sizeBytes: int, wholeFile: string,
                               chunking: ChunkingInfo, chunks: seq<ManifestChunk>,
                               segments: Option<seq<ManifestSegment>>, hashAlgo: string)

  // ---------------------------------------------------------------- Python's view of a JSON value

  function Get(fields: map<string, Json>, key: string): Json {
    if key in fields then fields[key] else Null
  }

  predicate Truthy(j: Json) {
    match j
    case Null => false
    case Bool(b) => b
    case Int(n) => n != 0
    case Decimal(m, _) => m != 0
    case Str(s) => s != ""
    case Arr(items) => items != []
    case Obj(fields) => fields != map[]
  }

  /** `str(j or default)`. */
  function TextOr(w: World, j: Json, default: string): string {
    if !Truthy(j) then default else if j.Str? then j.s else w.textOf(j)
  }

  /** `int(j or default)`, None when it raises. */
  function IntOr(w: World, j: Json, default: int): Option<int> {
    if !Truthy(j) then Some(default) else if j.Int? then Some(j.n) else w.intOf(j)
  }

  /** `str(j or "").strip().lower()`. */
  function IdOf(w: World, j: Json): string {
    Normalize(TextOr(w, j, ""))
  }

  // ---------------------------------------------------------------- builders

  function ChunkingJson(c: ChunkingInfo): Json {
    Obj(map["algo" := Str(c.algo), "avg" := Int(c.avg), "min" := Int(c.min), "max" := Int(c.max)])
  }

  function ChunkJson(c: ManifestChunk): Json {
    Obj(map["hash" := Str(c.hash), "size" := Int(c.size)])
  }

  /** The dictionary `ingest_omni_file` appends for a segment. */
  function SegmentJson(s: ManifestSegment): Json {
    match s
    case RawChunk(hash, size) => Obj(map["kind" := Str("raw_chunk"), "hash" := Str(hash), "size" := Int(size)])
    case ZstdDictPatch(parent, start, end, dict, patch, patchSize, size) =>
      Obj(map["kind" := Str("zstd_dict_patch"), "parent_content_id" := Str(parent), "range_start" := Int(start),
              "range_end" := Int(end), "dict_hash" := Str(dict), "patch_hash" := Str(patch),
              "patch_size" := Int(patchSize), "uncompressed_size" := Int(size)])
  }

  function ChunksJson(cs: seq<ManifestChunk>): (j: Json)
    ensures j.Arr?
  {
    Arr(seq(|cs|, i requires 0 <= i < |cs| => ChunkJson(cs[i])))
  }

  function SegmentsJson(ss: seq<ManifestSegment>): (j: Json)
    ensures j.Arr?
  {
    Arr(seq(|ss|, i requires 0 <= i < |ss| => SegmentJson(ss[i])))
  }

  /** The payload of `build_manifest_v1`, None when it raises. */
  function BuildV1(filename: string, size: int, whole: string, chunking: ChunkingInfo, chunks: seq<ManifestChunk>)
    : Option<Json>
  {
    var id := Normalize(whole);
    if id == "" then None
    else
      Some(Obj(map["schema" := Str(SCHEMA_V1), "hash_algo" := Str("blake3"), "filename" := Str(filename),
                   "size_bytes" := Int(size), "whole_file_blake3" := Str(id), "whole_file_sha256" := Str(id),
                   "chunking" := ChunkingJson(chunking), "chunks" := ChunksJson(chunks)]))
  }

  function BuildV2(filename: string, size: int, whole: string, chunking: ChunkingInfo, chunks: seq<ManifestChunk>): (j: Json)
    ensures j.Obj?
  {
    Obj(map["schema" := Str(SCHEMA_V2), "hash_algo" := Str("blake3"), "filename" := Str(filename),
            "size_bytes" := Int(size), "whole_file_blake3" := Str(whole),
            "chunking" := ChunkingJson(chunking), "chunks" := ChunksJson(chunks)])
  }

  function BuildV3(filename: string, size: int, whole: string, chunking: ChunkingInfo, segments: seq<ManifestSegment>,
                   omni: Option<Json>): (j: Json)
    ensures j.Obj?
  {
    var payload := map["schema" := Str(SCHEMA_V3), "hash_algo" := Str("blake3"), "filename" := Str(filename),
                       "size_bytes" := Int(size), "whole_file_blake3" := Str(whole),
                       "chunking" := ChunkingJson(chunking), "segments" := SegmentsJson(segments)];
    Obj(if omni.Some? then payload["omni" := omni.value] else payload)
  }

  // ---------------------------------------------------------------- parser

  function ParseChunking(w: World, j: Json): Option<ChunkingInfo> {
    var raw := if Truthy(j) then j else Obj(map[]);
    if !raw.Obj? then None
    else
      var avg := IntOr(w, Get(raw.fields, "avg"), 1024 * 1024);
      var min := IntOr(w, Get(raw.fields, "min"), 256 * 1024);
      var max := IntOr(w, Get(raw.fields, "max"), 4 * 1024 * 1024);
      if avg.None? || min.None? || max.None? then None
      else Some(ChunkingInfo(TextOr(w, Get(raw.fields, "algo"), "fastcdc"), avg.value, min.value, max.value))
  }

  /** One entry of `chunks`, None when the parser raises. */
  function ParseChunk(w: World, j: Json): Option<ManifestChunk> {
    if !j.Obj? then None
    else
      var h, size := IdOf(w, Get(j.fields, "hash")), IntOr(w, Get(j.fields, "size"), 0);
      if size.None? || h == "" || size.value < 0 then None else Some(ManifestChunk(h, size.value))
  }

  function ParsePatch(w: World, f: map<string, Json>): Option<ManifestSegment> {
    var parent, dict, patch := IdOf(w, Get(f, "parent_content_id")), IdOf(w, Get(f, "dict_hash")), IdOf(w, Get(f, "patch_hash"));
    var start, end := IntOr(w, Get(f, "range_start"), 0), IntOr(w, Get(f, "range_end"), 0);
    var patchSize, size := IntOr(w, Get(f, "patch_size"), 0), IntOr(w, Get(f, "uncompressed_size"), 0);
    if start.None? || end.None? || patchSize.None? || size.None? then None
    else if parent == "" || dict == "" || patch == "" || start.value < 0 || end.value < start.value
            || patchSize.value < 0 || size.value < 0 then None
    else Some(ZstdDictPatch(parent, start.value, end.value, dict, patch, patchSize.value, size.value))
  }

  /** One entry of `segments`, None when the parser raises. */
  function ParseSegment(w: World, j: Json): Option<ManifestSegment> {
    if !j.Obj? then None
    else
      var kind := IdOf(w, Get(j.fields, "kind"));
      if kind == "raw_chunk" then
        var c := ParseChunk(w, j);
        if c.None? then None else Some(RawChunk(c.value.hash, c.value.size))
      else if kind == "zstd_dict_patch" then ParsePatch(w, j.fields)
      else None
  }

  function ParseChunks(w: World, items: seq<Json>): Option<seq<ManifestChunk>> {
    if items == [] then Some([])
    else
      var init, last := ParseChunks(w, items[..|items| - 1]), ParseChunk(w, items[|items| - 1]);
      if init.None? || last.None? then None else Some(init.value + [last.value])
  }

  function ParseSegments(w: World, items: seq<Json>): Option<seq<ManifestSegment>> {
    if items == [] then Some([])
    else
      var init, last := ParseSegments(w, items[..|items| - 1]), ParseSegment(w, items[|items| - 1]);
      if init.None? || last.None? then None else Some(init.value + [last.value])
  }

  /** The raw segments in order, as chunks. */
  function RawChunks(ss: seq<ManifestSegment>): seq<ManifestChunk> {
    if ss == [] then []
    else
      var last := ss[|ss| - 1];
      RawChunks(ss[..|ss| - 1]) + if last.RawChunk? then [ManifestChunk(last.hash, last.size)] else []
  }

  /** `x or []`, None when the result is not a list. */
  function ListOr(j: Json): Option<seq<Json>> {
    if !Truthy(j) then Some([]) else if j.Arr? then Some(j.items) else None
  }

  predicate KnownSchema(j: Json) {
    j.Str? && (j.s == SCHEMA_V1 || j.s == SCHEMA_V2 || j.s == SCHEMA_V3)
  }

  /** `parse_manifest` on the decoded document, None when it raises. */
  function Parse(w: World, data: Json): Option<Manifest> {
    if !data.Obj? || !KnownSchema(Get(data.fields, "schema")) then None
    else
      var f := data.fields;
      var schema := Get(f, "schema").s;
      var chunking, size := ParseChunking(w, Get(f, "chunking")), IntOr(w, Get(f, "size_bytes"), 0);
      var list := ListOr(Get(f, if schema == SCHEMA_V3 then "segments" else "chunks"));
      if chunking.None? || size.None? || list.None? then None
      else
        var whole := if Truthy(Get(f, "whole_file_blake3")) then Get(f, "whole_file_blake3") else Get(f, "whole_file_sha256");
        var head := Manifest(schema, TextOr(w, Get(f, "filename"), ""), size.value, IdOf(w, whole), chunking.value, [], None,
                             Normalize(TextOr(w, Get(f, "hash_algo"), "blake3")));
        if schema == SCHEMA_V3 then
          var segments := ParseSegments(w, list.value);
          if segments.None? then None
          else Some(head.(chunks := RawChunks(segments.value), segments := segments))
        else
          var chunks := ParseChunks(w, list.value);
          if chunks.None? then None else Some(head.(chunks := chunks.value))
  }

  function TryParse(w: World, bytes: Bytes): Option<Manifest> {
    var data := w.decode(bytes);
    if data.None? then None else Parse(w, data.value)
  }

  // ---------------------------------------------------------------- the parsing loops

  method ParseManifest(w: World, bytes: Bytes) returns (r: Option<Manifest>)
    ensures r == TryParse(w, bytes)
  {
    var data := w.decode(bytes);
    if data.None? || !data.value.Obj? || !KnownSchema(Get(data.value.fields, "schema")) {
      return None;
    }
    var f := data.value.fields;
    var schema := Get(f, "schema").s;
    var chunking, size := ParseChunking(w, Get(f, "chunking")), IntOr(w, Get(f, "size_bytes"), 0);
    var list := ListOr(Get(f, if schema == SCHEMA_V3 then "segments" else "chunks"));
    if chunking.None? || size.None? || list.None? {
      return None;
    }
    var chunks: seq<ManifestChunk>;
    var segments: Option<seq<ManifestSegment>> := None;
    if schema == SCHEMA_V3 {
      var ok, raw, segs := CollectSegments(w, list.value);
      if !ok {
        return None;
      }
      chunks, segments := raw, Some(segs);
    } else {
      var ok, cs := CollectChunks(w, list.value);
      if !ok {
        return None;
      }
      chunks := cs;
    }
    var whole := if Truthy(Get(f, "whole_file_blake3")) then Get(f, "whole_file_blake3") else Get(f, "whole_file_sha256");
    return Some(Manifest(schema, TextOr(w, Get(f, "filename"), ""), size.value, IdOf(w, whole), chunking.value, chunks,
                         segments, Normalize(TextOr(w, Get(f, "hash_algo"), "blake3"))));
  }

  method CollectChunks(w: World, items: seq<Json>) returns (ok: bool, chunks: seq<ManifestChunk>)
    ensures ParseChunks(w, items) == if ok then Some(chunks) else None
  {
    hide ParseChunk;
    chunks := [];
    for i := 0 to |items|
      invariant ParseChunks(w, items[..i]) == Some(chunks)
    {
      var c := ParseChunk(w, items[i]);
      assert items[..i + 1][..i] == items[..i];
      if c.None? {
        ChunksFail(w, items, i + 1);
        return false, [];
      }
      chunks := chunks + [c.value];
    }
    assert items[..|items|] == items;
    ok := true;
  }

  /** The version 3 loop fills `chunks` and `segments` side by side. */
  method CollectSegments(w: World, items: seq<Json>)
    returns (ok: bool, chunks: seq<ManifestChunk>, segments: seq<ManifestSegment>)
    ensures ParseSegments(w, items) == if ok then Some(segments) else None
    ensures ok ==> chunks == RawChunks(segments)
  {
    hide ParseSegment;
    chunks, segments := [], [];
    for i := 0 to |items|
      invariant ParseSegments(w, items[..i]) == Some(segments)
      invariant chunks == RawChunks(segments)
    {
      var s := ParseSegment(w, items[i]);
      assert items[..i + 1][..i] == items[..i];
      if s.None? {
        SegmentsFail(w, items, i + 1);
        return false, [], [];
      }
      assert (segments + [s.value])[..|segments|] == segments;
      if s.value.RawChunk? {
        chunks := chunks + [ManifestChunk(s.value.hash, s.value.size)];
      }
      segments := segments + [s.value];
    }
    assert items[..|items|] == items;
    ok := true;
  }

  lemma {:induction false} ChunksFail(w: World, items: seq<Json>, n: nat)
    requires n <= |items| && ParseChunks(w, items[..n]).None?
    ensures ParseChunks(w, items).None?
    decreases |items|
  {
    if n < |items| {
      assert items[..|items| - 1][..n] == items[..n];
      ChunksFail(w, items[..|items| - 1], n);
    } else {
      assert items[..n] == items;
    }
  }

  lemma {:induction false} SegmentsFail(w: World, items: seq<Json>, n: nat)
    requires n <= |items| && ParseSegments(w, items[..n]).None?
    ensures ParseSegments(w, items).None?
    decreases |items|
  {
    if n < |items| {
      assert items[..|items| - 1][..n] == items[..n];
      SegmentsFail(w, items[..|items| - 1], n);
    } else {
      assert items[..n] == items;
    }
  }
}
