/** Rebuilding bytes from version 3 segments: what the segments mean (`Replay`), and the streaming
    materializer of zeno_client/omni_ingest.py proved against it. */
module Materialize {
  import opened Base
  import opened Text
  import opened Worlds
  import opened Manifest
  import opened ManifestTheory
  import opened Cas

  type Blobs = map<string, Bytes>

  // ---------------------------------------------------------------- meaning

  /** The bytes one segment contributes, None when a blob is missing or the patch does not decompress. */
  function Piece(w: World, blobs: Blobs, s: ManifestSegment): Option<Bytes> {
    match s
    case RawChunk(h, _) => if h in blobs then Some(blobs[h]) else None
    case ZstdDictPatch(_, _, _, dict, patch, _, size) =>
      if w.zstdInstalled && dict in blobs && patch in blobs
      then w.decompress(blobs[dict], blobs[patch], Max(1, size)) else None
  }

  /** The bytes a list of segments stands for. It takes no parent file. */
  function Replay(w: World, blobs: Blobs, ss: seq<ManifestSegment>): Option<Bytes> {
    if ss == [] then Some([])
    else
      var init, last := Replay(w, blobs, ss[..|ss| - 1]), Piece(w, blobs, ss[|ss| - 1]);
      if init.None? || last.None? then None else Some(init.value + last.value)
  }

  lemma ReplayOneMore(w: World, blobs: Blobs, ss: seq<ManifestSegment>, s: ManifestSegment)
    ensures Replay(w, blobs, ss + [s])
         == if Replay(w, blobs, ss).None? || Piece(w, blobs, s).None? then None
            else Some(Replay(w, blobs, ss).value + Piece(w, blobs, s).value)
  {
    assert (ss + [s])[..|ss|] == ss;
  }

  /** Adding blobs to the store does not change what a manifest stands for. */
  lemma {:induction false} ReplayMonotone(w: World, a: Blobs, b: Blobs, ss: seq<ManifestSegment>)
    requires Extends(a, b) && Replay(w, a, ss).Some?
    ensures Replay(w, b, ss) == Replay(w, a, ss)
  {
    if ss != [] {
      ReplayMonotone(w, a, b, ss[..|ss| - 1]);
    }
  }

  // ---------------------------------------------------------------- the JSON-level materializer

  /** One dictionary of the `segments` list, None when the loop body raises. */
  function PieceOfJson(w: World, blobs: Blobs, j: Json): Option<Bytes> {
    if !j.Obj? then None
    else
      var kind := IdOf(w, Get(j.fields, "kind"));
      if kind == "raw_chunk" then
        var h := IdOf(w, Get(j.fields, "hash"));
        if h in blobs then Some(blobs[h]) else None
      else if kind == "zstd_dict_patch" then
        var dict, patch := IdOf(w, Get(j.fields, "dict_hash")), IdOf(w, Get(j.fields, "patch_hash"));
        var size := IntOr(w, Get(j.fields, "uncompressed_size"), 0);
        if w.zstdInstalled && size.Some? && dict in blobs && patch in blobs
        then w.decompress(blobs[dict], blobs[patch], Max(1, size.value)) else None
      else None
  }

  function ReplayJson(w: World, blobs: Blobs, items: seq<Json>): Option<Bytes> {
    if items == [] then Some([])
    else
      var init, last := ReplayJson(w, blobs, items[..|items| - 1]), PieceOfJson(w, blobs, items[|items| - 1]);
      if init.None? || last.None? then None else Some(init.value + last.value)
  }

  predicate IsV3(w: World, fields: map<string, Json>) {
    IdOf(w, Get(fields, "schema")) == SCHEMA_V3
  }

  /** `materialize_from_manifest_v3`; `parentBytes` is accepted and, as in the source, never used. */
  method MaterializeFromManifestV3(cas: Store, manifest: map<string, Json>, parentBytes: Option<Bytes>)
    returns (out: Option<Bytes>)
    ensures cas.healthy ==>
              out == if IdOf(cas.w, Get(manifest, "schema")) == "chimera.manifest.v3" && ListOr(Get(manifest, "segments")).Some?
                     then ReplayJson(cas.w, cas.blobs, ListOr(Get(manifest, "segments")).value) else None
  {
    if !IsV3(cas.w, manifest) || ListOr(Get(manifest, "segments")).None? {
      return None;
    }
    var items := ListOr(Get(manifest, "segments")).value;
    var written: Bytes := [];
    for i := 0 to |items|
      invariant cas.healthy ==> ReplayJson(cas.w, cas.blobs, items[..i]) == Some(written)
    {
      assert items[..i + 1][..i] == items[..i];
      var data := MaterializeSegment(cas, items[i]);
      if data.None? {
        if cas.healthy { ReplayJsonFails(cas.w, cas.blobs, items, i + 1); }
        return None;
      }
      written := written + data.value;
    }
    assert items[..|items|] == items;
    out := Some(written);
  }

  method MaterializeSegment(cas: Store, j: Json) returns (data: Option<Bytes>)
    ensures cas.healthy ==> data == PieceOfJson(cas.w, cas.blobs, j)
  {
    hide Normalize, TextOr, IntOr, Get;
    var w := cas.w;
    if !j.Obj? {
      return None;
    }
    var kind := IdOf(w, Get(j.fields, "kind"));
    if kind == "raw_chunk" {
      var h := IdOf(w, Get(j.fields, "hash"));
      NormalizeIdempotent(TextOr(w, Get(j.fields, "hash"), ""));
      var body := cas.GetBytes(h);
      return if body.Ok? then Some(body.value) else None;
    }
    if kind == "zstd_dict_patch" {
      if !w.zstdInstalled {
        return None;
      }
      var dict, patch := IdOf(w, Get(j.fields, "dict_hash")), IdOf(w, Get(j.fields, "patch_hash"));
      NormalizeIdempotent(TextOr(w, Get(j.fields, "dict_hash"), ""));
      NormalizeIdempotent(TextOr(w, Get(j.fields, "patch_hash"), ""));
      var size := IntOr(w, Get(j.fields, "uncompressed_size"), 0);
      if size.None? {
        return None;
      }
      var dbytes := cas.GetBytes(dict);
      if dbytes.Err? {
        return None;
      }
      var pbytes := cas.GetBytes(patch);
      if pbytes.Err? {
        return None;
      }
      return w.decompress(dbytes.value, pbytes.value, Max(1, size.value));
    }
    return None;
  }

  lemma {:induction false} ReplayJsonFails(w: World, blobs: Blobs, items: seq<Json>, n: nat)
    requires n <= |items| && ReplayJson(w, blobs, items[..n]).None?
    ensures ReplayJson(w, blobs, items).None?
    decreases |items|
  {
    if n < |items| {
      assert items[..|items| - 1][..n] == items[..n];
      ReplayJsonFails(w, blobs, items[..|items| - 1], n);
    } else {
      assert items[..n] == items;
    }
  }

  // ---------------------------------------------------------------- agreement

  lemma PiecesAgree(w: World, blobs: Blobs, j: Json)
    ensures ParseSegment(w, j).Some? ==> PieceOfJson(w, blobs, j) == Piece(w, blobs, ParseSegment(w, j).value)
  {
    hide Normalize, TextOr, Get;
  }

  lemma {:induction false} ReplaysAgree(w: World, blobs: Blobs, items: seq<Json>)
    ensures ParseSegments(w, items).Some? ==> ReplayJson(w, blobs, items) == Replay(w, blobs, ParseSegments(w, items).value)
  {
    hide ParseSegment, PieceOfJson, Piece;
    if items != [] {
      var n := |items| - 1;
      ReplaysAgree(w, blobs, items[..n]);
      PiecesAgree(w, blobs, items[n]);
      if ParseSegments(w, items).Some? {
        ReplayOneMore(w, blobs, ParseSegments(w, items[..n]).value, ParseSegment(w, items[n]).value);
      }
    }
  }

  /** On every manifest the parser accepts, reading the JSON directly and replaying the parsed
      segments, as the cache does, produce the same bytes or both fail. */
  lemma MaterializersAgree(w: World, blobs: Blobs, data: Json, m: Manifest)
    requires Parse(w, data) == Some(m) && m.schema == SCHEMA_V3
    ensures IsV3(w, data.fields) && ListOr(Get(data.fields, "segments")).Some? && m.segments.Some?
    ensures ReplayJson(w, blobs, ListOr(Get(data.fields, "segments")).value) == Replay(w, blobs, m.segments.value)
  {
    hide Get, Normalize, ParseChunking, ParseChunks, ParseSegments, IntOr, Replay, ReplayJson;
    SchemaIsId();
    SchemaText(w, data);
    var list := ListOr(Get(data.fields, "segments"));
    ReplaysAgree(w, blobs, list.value);
  }

  lemma SchemaIsId()
    ensures Normalize(SCHEMA_V3) == SCHEMA_V3
  {
    IdLiteral(SCHEMA_V3);
  }

  lemma SchemaText(w: World, data: Json)
    requires data.Obj? && Get(data.fields, "schema") == Str(SCHEMA_V3)
    ensures TextOr(w, Get(data.fields, "schema"), "") == SCHEMA_V3
  {
  }
}
