/** The local cache (zeno_client/cache.py), used by one process: verified downloads, assembly from
    manifests, and size-capped eviction. Hash verification is on, as it is by default. */
module LocalCaches {
  import opened Base
  import opened Text
  import opened Worlds
  import opened Manifest
  import opened ManifestTheory
  import opened Cas
  import opened Materialize
  import opened CacheIndex
  import opened Places

  datatype CacheError = Corrupt | DownloadFailed

  const ManifestLimit: nat := 256 * 1024

  type Files = map<Place, Bytes>

  // ---------------------------------------------------------------- invariants

  /** Every file lies directly in a digest's directory, so that different places are different files, and
      every published one hashes to the name of its directory. */
  ghost predicate ContentOk(w: World, files: Files) {
    forall p :: p in files ==> OwnFile(p) && (FinalName(p.name) ==> w.hash(files[p]) == p.id)
  }

  ghost predicate ChunksOk(w: World, chunkFiles: Blobs) {
    forall h :: h in chunkFiles ==> w.hash(chunkFiles[h]) == h
  }

  /** Every index row is stored under its id and names an existing file of the recorded size. */
  ghost predicate RowsOk(rows: Rows, files: Files) {
    && Keyed(rows)
    && forall k :: k in rows ==>
         && rows[k].relPath.id == k && FinalName(rows[k].relPath.name)
         && rows[k].relPath in files && |files[rows[k].relPath]| == rows[k].sizeBytes
  }

  lemma TmpPut(w: World, rows: Rows, files: Files, p: Place, body: Bytes)
    requires ContentOk(w, files) && RowsOk(rows, files) && OwnFile(p) && !FinalName(p.name)
    ensures ContentOk(w, files[p := body]) && RowsOk(rows, files[p := body])
    ensures ContentOk(w, files - {p}) && RowsOk(rows, files - {p})
  {
  }

  /** Publishing verified bytes keeps every invariant: a file already there had the same bytes. */
  lemma FinalPut(w: World, rows: Rows, files: Files, p: Place, body: Bytes)
    requires w.CollisionFree() && ContentOk(w, files) && RowsOk(rows, files) && PlainPlace(p) && w.hash(body) == p.id
    ensures ContentOk(w, files[p := body]) && RowsOk(rows, files[p := body])
  {
    if p in files && FinalName(p.name) {
      w.SameHash(body, files[p]);
      assert files[p := body] == files;
    }
  }

  lemma RowUpserted(rows: Rows, files: Files, p: Place, now: int)
    requires RowsOk(rows, files) && p in files && FinalName(p.name)
    ensures RowsOk(Upserted(rows, p.id, p.name, p, |files[p]|, now), files)
  {
  }

  lemma RowDropped(w: World, rows: Rows, files: Files, k: string)
    requires ContentOk(w, files) && RowsOk(rows, files) && k in rows
    ensures RowsOk(rows - {k}, files)
    ensures RowsOk(rows - {k}, files - {rows[k].relPath}) && ContentOk(w, files - {rows[k].relPath})
  {
  }

  // ---------------------------------------------------------------- what a manifest stands for

  function AsRaw(cs: seq<ManifestChunk>): seq<ManifestSegment> {
    seq(|cs|, i requires 0 <= i < |cs| => RawChunk(cs[i].hash, cs[i].size))
  }

  /** The pieces the cache writes, in order: the segments of version 3, else the chunks. */
  function PiecesOf(m: Manifest): seq<ManifestSegment> {
    if m.schema == SCHEMA_V3 && m.segments.Some? then m.segments.value else AsRaw(m.chunks)
  }

  function OutPlace(m: Manifest): Place {
    Place(m.wholeFile, if m.filename == "" then m.wholeFile else m.filename)
  }

  /** A blob the cache rebuilds instead of delivering. */
  function SmallManifest(w: World, blob: Bytes): Option<Manifest> {
    if |blob| > ManifestLimit then None
    else
      var m := TryParse(w, blob);
      if m.Some? && m.value.wholeFile != "" then m else None
  }

  /** The store can back the manifest, and what it stands for is what it says it is. */
  ghost predicate Rebuildable(w: World, blobs: Blobs, m: Manifest) {
    && (forall c :: c in m.chunks ==> c.hash in blobs && |blobs[c.hash]| == c.size)
    && var x := Replay(w, blobs, PiecesOf(m));
       x.Some? && w.hash(x.value) == m.wholeFile && (m.sizeBytes == 0 || m.sizeBytes == |x.value|)
  }

  // ---------------------------------------------------------------- the cache

  class LocalCache {
    const w: World
    const index: Index
    const maxBytes: int
    const verifySize: bool
    /** The file system removes every file it is asked to; when false an unlink may fail, which is ignored. */
    const unlinks: bool
    /** `root/<id>/<name>`, temporaries included. */
    var files: Files
    /** `root/chunks/ab/cd/<hash>`. */
    var chunkFiles: Blobs
    /** `root/manifests/<id>.json`. */
    var manifests: Blobs

    constructor (w: World, rank: string -> int, maxBytes: int, verifySize: bool, unlinks: bool)
      requires FixedTieOrder(rank)
      ensures Valid() && fresh(index) && this.w == w && this.maxBytes == maxBytes && this.verifySize == verifySize
      ensures this.unlinks == unlinks && index.rank == rank
      ensures files == map[] && chunkFiles == map[] && manifests == map[] && index.entries == map[]
    {
      this.w := w;
      this.index := new Index(rank);
      this.maxBytes := maxBytes;
      this.verifySize := verifySize;
      this.unlinks := unlinks;
      files, chunkFiles, manifests := map[], map[], map[];
    }

    ghost predicate Valid()
      reads this, index
    {
      && ContentOk(w, files) && ChunksOk(w, chunkFiles) && RowsOk(index.entries, files)
      && FixedTieOrder(index.rank)
    }

    /** The size check, when sizes are checked and one is given. */
    predicate SizeOk(n: nat, size: Option<int>) {
      verifySize && size.Some? ==> n == size.value
    }

    /** `_is_valid_hit`: present, and of the expected size when one is given. */
    predicate IsValidHit(p: Place, size: Option<int>)
      reads this
    {
      p in files && SizeOk(|files[p]|, size)
    }

    method TouchIndex(p: Place)
      requires Valid() && p in files && FinalName(p.name)
      modifies index`entries
      ensures Valid()
      ensures index.entries == Upserted(old(index.entries), p.id, p.name, p, |files[p]|, index.clock)
      ensures RowWritten(old(index.entries), index.entries, p.id, p.name, p, |files[p]|, index.clock)
    {
      var size := if p in files then |files[p]| else 0;
      RowUpserted(index.entries, files, p, index.clock);
      index.UpsertEntry(p.id, p.name, p, size);
    }

    /** `touch`: only the access time of the row changes. */
    method Touch(contentId: string)
      requires Valid()
      modifies index`entries
      ensures Valid() && index.entries.Keys == old(index.entries).Keys
      ensures forall k :: k in index.entries ==>
                index.entries[k] == if k == Normalize(contentId) then old(index.entries)[k].(lastAccessedAt := index.clock)
                                    else old(index.entries)[k]
    {
      hide Normalize, ContentOk, ChunksOk;
      index.Touch(Normalize(contentId));
    }

    // -------------------------------------------------------------- eviction

    /** Deletes a row, and its file as far as the file system lets it. */
    method EvictEntry(e: Entry)
      requires Valid() && e.contentId in index.entries && index.entries[e.contentId] == e
      modifies this`files, index`entries
      ensures Valid()
      ensures index.entries == old(index.entries) - {e.contentId}
      ensures e.relPath.id == e.contentId && (files == old(files) || files == old(files) - {e.relPath})
      ensures unlinks ==> files == old(files) - {e.relPath}
    {
      assert e.relPath.id == e.contentId;
      hide ContentOk, ChunksOk, RowsOk;
      RowDropped(w, index.entries, files, e.contentId);
      assert index.entries[e.contentId].relPath == e.relPath;
      if e.relPath in files {
        var unlinked: bool := *;
        if unlinks || unlinked {
          files := files - {e.relPath};
        }
      }
      index.DeleteEntry(e.contentId);
    }

    /** The batched loop removes exactly the rows that one-at-a-time eviction removes, and no file but theirs. */
    method EvictIfNeeded(exclude: set<string>)
      requires Valid()
      modifies this`files, index`entries
      ensures Valid()
      ensures index.entries == if maxBytes <= 0 then old(index.entries)
                               else Evict(index.rank, old(index.entries), exclude, maxBytes)
      ensures OnlyEvicted(old(files), files, old(index.entries), index.entries)
      ensures unlinks ==> EvictedGone(files, old(index.entries), index.entries)
    {
      hide ContentOk, ChunksOk, RowsOk, Evict, Candidates, OnlyEvicted, FixedTieOrder, Keyed, EvictedGone, OldestRows;
      RowsKeyed(index.entries, files);
      OnlyEvictedNone(files, index.entries);
      var total := index.TotalSizeBytes();
      EvictDone(index.rank, index.entries, exclude, maxBytes);
      if total <= maxBytes {
        return;
      }
      if maxBytes <= 0 {
        return;
      }
      while total > maxBytes
        invariant Valid() && Keyed(index.entries) && total == SumSizes(index.entries)
        invariant Evict(index.rank, index.entries, exclude, maxBytes)
               == Evict(index.rank, old(index.entries), exclude, maxBytes)
        invariant OnlyEvicted(old(files), files, old(index.entries), index.entries)
        invariant unlinks ==> EvictedGone(files, old(index.entries), index.entries)
        decreases |index.entries|
      {
        var candidates := index.EvictionCandidates(exclude, 25);
        EvictDone(index.rank, index.entries, exclude, maxBytes);
        NoCandidates(index.rank, index.entries, exclude, 25);
        if candidates == [] {
          return;
        }
        total := EvictBatch(candidates, exclude, total, old(files), old(index.entries));
      }
      EvictDone(index.rank, index.entries, exclude, maxBytes);
    }

    /** The inner loop over one batch of candidates. */
    method EvictBatch(candidates: seq<Entry>, exclude: set<string>, total0: nat, ghost files0: Files, ghost rows0: Rows)
      returns (total: nat)
      requires Valid() && Keyed(index.entries) && total0 == SumSizes(index.entries) && total0 > maxBytes
      requires candidates != [] && candidates == Candidates(index.rank, index.entries, exclude, 25)
      requires Keyed(rows0) && OnlyEvicted(files0, files, rows0, index.entries)
      requires unlinks ==> EvictedGone(files, rows0, index.entries)
      modifies this`files, index`entries
      ensures Valid() && Keyed(index.entries) && total == SumSizes(index.entries)
      ensures |index.entries| < |old(index.entries)|
      ensures Evict(index.rank, index.entries, exclude, maxBytes) == Evict(index.rank, old(index.entries), exclude, maxBytes)
      ensures OnlyEvicted(files0, files, rows0, index.entries)
      ensures unlinks ==> EvictedGone(files, rows0, index.entries)
    {
      hide ContentOk, ChunksOk, RowsOk, Evict, Candidates, OnlyEvicted, FixedTieOrder, Keyed, SumSizes, EvictedGone;
      total := total0;
      WholeSlices(candidates);
      ghost var limit: nat := 25;
      for i := 0 to |candidates|
        invariant Valid() && Keyed(index.entries) && total == SumSizes(index.entries)
        invariant if i == 0 then index.entries == old(index.entries) && total > maxBytes
                  else |index.entries| < |old(index.entries)|
        invariant candidates[i..] == Candidates(index.rank, index.entries, exclude, limit)
        invariant Evict(index.rank, index.entries, exclude, maxBytes)
               == Evict(index.rank, old(index.entries), exclude, maxBytes)
        invariant OnlyEvicted(files0, files, rows0, index.entries)
        invariant unlinks ==> EvictedGone(files, rows0, index.entries)
      {
        if total <= maxBytes {
          break;
        }
        assert candidates[i..] != [] && candidates[i..][0] == candidates[i] && candidates[i..][1..] == candidates[i + 1..];
        EvictNext(candidates[i..], exclude, limit, files0, rows0);
        limit := limit - 1;
        total := index.TotalSizeBytes();
      }
    }

    /** One candidate of a batch, the oldest one there is. */
    method EvictNext(candidates: seq<Entry>, exclude: set<string>, ghost limit: nat, ghost files0: Files, ghost rows0: Rows)
      requires Valid() && Keyed(index.entries) && SumSizes(index.entries) > maxBytes
      requires candidates != [] && candidates == Candidates(index.rank, index.entries, exclude, limit)
      requires Keyed(rows0) && OnlyEvicted(files0, files, rows0, index.entries)
      requires unlinks ==> EvictedGone(files, rows0, index.entries)
      modifies this`files, index`entries
      ensures Valid() && Keyed(index.entries) && limit > 0 && |index.entries| < |old(index.entries)|
      ensures candidates[1..] == Candidates(index.rank, index.entries, exclude, limit - 1)
      ensures Evict(index.rank, index.entries, exclude, maxBytes) == Evict(index.rank, old(index.entries), exclude, maxBytes)
      ensures OnlyEvicted(files0, files, rows0, index.entries)
      ensures unlinks ==> EvictedGone(files, rows0, index.entries)
    {
      hide ContentOk, ChunksOk, RowsOk, Evict, Candidates, OnlyEvicted, FixedTieOrder, Keyed, SumSizes, EvictedGone;
      var e := candidates[0];
      EvictHead(index.rank, index.entries, exclude, maxBytes, limit, candidates);
      label Before:
      EvictEntry(e);
      OnlyEvictedStep(files0, old@Before(files), files, rows0, old@Before(index.entries), e);
    }

    // -------------------------------------------------------------- verified downloads

    /** After a fetch the index is within a positive cap, or holds nothing but the row just fetched. */
    ghost predicate WithinCap(id: string)
      reads this, index
    {
      maxBytes > 0 ==> SumSizes(index.entries) <= maxBytes || index.entries.Keys == {id}
    }

    /** Size, then hash, of a finished temporary; a mismatch deletes it. */
    method VerifyTmp(tmp: Place, id: string, size: Option<int>) returns (ok: bool)
      requires Valid() && tmp in files && OwnFile(tmp) && !FinalName(tmp.name)
      modifies this`files
      ensures Valid()
      ensures ok <==> SizeOk(|old(files)[tmp]|, size) && w.hash(old(files)[tmp]) == id
      ensures files == if ok then old(files) else old(files) - {tmp}
    {
      hide ContentOk, ChunksOk, RowsOk;
      TmpPut(w, index.entries, files, tmp, []);
      ok := true;
      if verifySize && size.Some? && |files[tmp]| != size.value {
        ok := false;
      } else if w.hash(files[tmp]) != id {
        ok := false;
      }
      if !ok {
        files := files - {tmp};
      }
    }

    /** `tmp.replace(final)`, once the temporary is verified. */
    method PublishTmp(tmp: Place, p: Place)
      requires Valid() && w.CollisionFree() && tmp in files && OwnFile(tmp) && !FinalName(tmp.name)
      requires PlainPlace(p) && w.hash(files[tmp]) == p.id
      modifies this`files
      ensures Valid()
      ensures files == (old(files) - {tmp})[p := old(files)[tmp]]
    {
      hide ContentOk, ChunksOk, RowsOk;
      var body := files[tmp];
      TmpPut(w, index.entries, files, tmp, []);
      files := files - {tmp};
      FinalPut(w, index.entries, files, p, body);
      files := files[p := body];
    }

    /** Writes a temporary, replacing a stale one. */
    method WriteTmp(tmp: Place, body: Bytes)
      requires Valid() && OwnFile(tmp) && !FinalName(tmp.name)
      modifies this`files
      ensures Valid() && files == old(files)[tmp := body]
    {
      hide ContentOk, ChunksOk, RowsOk;
      TmpPut(w, index.entries, files, tmp, body);
      files := files[tmp := body];
    }

    method RemoveTmp(tmp: Place)
      requires Valid() && OwnFile(tmp) && !FinalName(tmp.name)
      modifies this`files
      ensures Valid() && files == old(files) - {tmp}
    {
      hide ContentOk, ChunksOk, RowsOk;
      TmpPut(w, index.entries, files, tmp, []);
      files := files - {tmp};
    }

    /** The table after a fetch: the file recorded as used now, then others evicted down to a positive cap. */
    ghost function AfterFetch(rows: Rows, p: Place, size: nat): Rows
      requires FixedTieOrder(index.rank) && Keyed(rows)
      reads index
    {
      var recorded := Upserted(rows, p.id, p.name, p, size, index.clock);
      if maxBytes <= 0 then recorded else Evict(index.rank, recorded, {p.id}, maxBytes)
    }

    /** The end of every fetch: record the file, then evict others. */
    method RecordAndEvict(p: Place)
      requires Valid() && p in files && FinalName(p.name)
      modifies this`files, index`entries
      ensures Valid() && WithinCap(p.id)
      ensures p in files && files[p] == old(files)[p]
      ensures forall q :: q in files ==> q in old(files)
      ensures Keyed(old(index.entries))
      ensures index.entries == AfterFetch(old(index.entries), p, |old(files)[p]|)
      ensures unlinks ==> EvictedGone(files, old(index.entries), index.entries)
    {
      hide ContentOk, ChunksOk, RowsOk, Evict, OnlyEvicted, EvictedGone;
      RowsKeyed(index.entries, files);
      TouchIndex(p);
      ghost var rows := index.entries;
      RowsKeyed(rows, files);
      EvictStops(index.rank, rows, {p.id}, maxBytes);
      ghost var files1 := files;
      EvictIfNeeded({p.id});
      KeptByEviction(files1, files, rows, index.entries, p);
      assert WithinCap(p.id) by {
        if maxBytes > 0 && SumSizes(index.entries) > maxBytes {
          assert p.id in index.entries;
          assert index.entries.Keys == {p.id};
        }
      }
      GoneBefore(files, old(index.entries), rows, index.entries, p);
    }

    /** A request for a place that is not a plain one, or through a manifest that is not contained, acts
        on whatever its paths lead to, the cache's own files included: nothing is promised about it. */
    method Elsewhere() returns (r: Result<Place, CacheError>, ghost fetched: bool)
      modifies this, index`entries
    {
      files, chunkFiles, manifests := *, *, *;
      index.entries := *;
      r, fetched := *, *;
    }

    /** The last branch of `ensure_cached`: download under the lock, verify, publish, record, evict. The
        lock and the second look it allows are the subject of module CacheProtocol. */
    method DownloadBlob(cas: Store, cid: string, fname: string, size: Option<int>) returns (r: Result<Place, CacheError>)
      requires Valid() && w.Sound() && cas.w == w
      modifies this, index`entries
      ensures PlainPlace(Place(cid, fname)) ==> Fetched(Place(cid, fname), r)
      ensures PlainPlace(Place(cid, fname)) && cas.healthy && Normalize(cid) in cas.blobs ==>
                w.hash(cas.blobs[Normalize(cid)]) == cid && SizeOk(|cas.blobs[Normalize(cid)]|, size) ==> r.Ok?
      ensures PlainPlace(Place(cid, fname)) && r.Ok? ==> SizeOk(|files[r.value]|, size)
      ensures PlainPlace(Place(cid, fname)) && cas.healthy && Normalize(cid) !in cas.blobs ==> r.Err?
    {
      hide ContentOk, ChunksOk, RowsOk, Evict, WithinCap, Normalize, PlainPlace, OwnFile, FinalName;
      var p, tmp := Place(cid, fname), Place(cid, DownloadTmp(fname));
      if !PlainPlace(p) {
        ghost var fetched;
        r, fetched := Elsewhere();
        return;
      }
      PlainIsFinal(p);
      RemoveTmp(tmp);
      var got := cas.GetBytes(cid);
      if got.Err? {
        return Err(DownloadFailed);
      }
      WriteTmp(tmp, got.value);
      var ok := VerifyTmp(tmp, cid, size);
      if !ok {
        return Err(Corrupt);
      }
      if p in files {
        PublishedHash(w, files, p);
        w.SameHash(files[p], got.value);
        RemoveTmp(tmp);
      } else {
        PublishTmp(tmp, p);
      }
      RecordAndEvict(p);
      r := Ok(p);
    }

    /** `_ensure_raw_blob_from_bytes`: the same from bytes already fetched. */
    method StoreBlob(cid: string, fname: string, size: Option<int>, body: Bytes) returns (r: Result<Place, CacheError>)
      requires Valid() && w.Sound()
      modifies this, index`entries
      ensures PlainPlace(Place(cid, fname)) ==> Fetched(Place(cid, fname), r)
      ensures PlainPlace(Place(cid, fname)) ==> (r.Ok? <==> w.hash(body) == cid && SizeOk(|body|, size))
      ensures PlainPlace(Place(cid, fname)) && r.Ok? ==> files[r.value] == body
    {
      hide ContentOk, ChunksOk, RowsOk, Evict, WithinCap, PlainPlace, OwnFile, FinalName;
      var p, tmp := Place(cid, fname), Place(cid, DownloadTmp(fname));
      if !PlainPlace(p) {
        ghost var fetched;
        r, fetched := Elsewhere();
        return;
      }
      PlainIsFinal(p);
      WriteTmp(tmp, body);
      var ok := VerifyTmp(tmp, cid, size);
      if !ok {
        return Err(Corrupt);
      }
      PublishTmp(tmp, p);
      RecordAndEvict(p);
      r := Ok(p);
    }

    /** What a fetch into the plain place `p` leaves behind, whatever the store delivers: a valid cache
        whose only new published file can be `p`; on success that file, on failure an untouched index. */
    twostate predicate Fetched(new p: Place, new r: Result<Place, CacheError>)
      reads this, index
    {
      && Valid() && OnlyAdds(old(files), files, p)
      && (r.Ok? ==> r.value == p && p in files && WithinCap(p.id) && Keyed(old(index.entries))
                    && index.entries == AfterFetch(old(index.entries), p, |files[p]|)
                    && (unlinks ==> EvictedGone(files, old(index.entries), index.entries)))
      && (r.Err? ==> index.entries == old(index.entries))
    }

    // -------------------------------------------------------------- assembly from a manifest

    /** Makes sure every chunk file is present and verified. */
    method FetchChunks(cas: Store, chunks: seq<ManifestChunk>) returns (ok: bool)
      requires Valid() && w.Sound() && cas.w == w
      modifies this`chunkFiles
      ensures Valid() && Extends(old(chunkFiles), chunkFiles)
      ensures ok ==> forall c :: c in chunks ==> c.hash in chunkFiles
      ensures cas.healthy && Addressed(w, cas.blobs) ==>
                (forall c :: c in chunks ==> ChunkSurvives(c) && c.hash in cas.blobs && |cas.blobs[c.hash]| == c.size) ==> ok
    {
      hide ContentOk, RowsOk, Normalize;
      for i := 0 to |chunks|
        invariant Valid() && Extends(old(chunkFiles), chunkFiles)
        invariant forall j :: 0 <= j < i ==> chunks[j].hash in chunkFiles
      {
        var ch := chunks[i];
        assert ch in chunks;
        var one := FetchChunk(cas, ch);
        if !one {
          return false;
        }
      }
      ok := true;
    }

    method FetchChunk(cas: Store, ch: ManifestChunk) returns (ok: bool)
      requires Valid() && w.Sound() && cas.w == w
      modifies this`chunkFiles
      ensures Valid() && Extends(old(chunkFiles), chunkFiles)
      ensures ok ==> ch.hash in chunkFiles
      ensures cas.healthy && Addressed(w, cas.blobs) ==>
                ChunkSurvives(ch) && ch.hash in cas.blobs && |cas.blobs[ch.hash]| == ch.size ==> ok
    {
      hide ContentOk, RowsOk, Normalize;
      if ch.hash in chunkFiles && (!verifySize || |chunkFiles[ch.hash]| == ch.size) {
        return true;
      }
      var got := cas.GetBytes(ch.hash);
      if got.Err? {
        return false;
      }
      var tmp := got.value;
      if verifySize && |tmp| != ch.size {
        return false;
      }
      if w.hash(tmp) != ch.hash {
        return false;
      }
      if ch.hash in chunkFiles {
        w.SameHash(tmp, chunkFiles[ch.hash]);
      }
      chunkFiles := chunkFiles[ch.hash := tmp];
      ok := true;
    }

    /** The bytes one piece contributes to the assembled file. */
    method ReadPiece(cas: Store, s: ManifestSegment) returns (data: Option<Bytes>)
      requires Valid() && w.Sound() && cas.w == w
      ensures cas.healthy && Addressed(w, cas.blobs) && Piece(w, cas.blobs, s).Some? && PieceNamed(s) ==>
                (s.RawChunk? ==> s.hash in chunkFiles) ==> data == Piece(w, cas.blobs, s)
    {
      hide ContentOk, RowsOk, Normalize;
      match s
      case RawChunk(h, _) =>
        if h !in chunkFiles {
          return None;
        }
        if h in cas.blobs && Addressed(w, cas.blobs) {
          w.SameHash(chunkFiles[h], cas.blobs[h]);
        }
        return Some(chunkFiles[h]);
      case ZstdDictPatch(_, _, _, dict, patch, _, size) =>
        if !w.zstdInstalled {
          return None;
        }
        var dbytes := cas.GetBytes(dict);
        if dbytes.Err? {
          return None;
        }
        var pbytes := cas.GetBytes(patch);
        if pbytes.Err? {
          return None;
        }
        return w.decompress(dbytes.value, pbytes.value, Max(1, size));
    }

    /** Writes the pieces one after another into the temporary. */
    method Assemble(cas: Store, pieces: seq<ManifestSegment>, tmp: Place) returns (ok: bool)
      requires Valid() && w.Sound() && cas.w == w && OwnFile(tmp) && !FinalName(tmp.name)
      modifies this`files
      ensures Valid() && files - {tmp} == old(files) - {tmp}
      ensures ok ==> tmp in files
      ensures cas.healthy && Addressed(w, cas.blobs) && Replay(w, cas.blobs, pieces).Some?
              && (forall s :: s in pieces ==> PieceNamed(s) && (s.RawChunk? ==> s.hash in chunkFiles))
              ==> ok && files[tmp] == Replay(w, cas.blobs, pieces).value
    {
      hide ContentOk, ChunksOk, RowsOk, Normalize, Piece, Replay, Addressed, PieceNamed;
      WriteTmp(tmp, []);
      ghost var good := cas.healthy && Addressed(w, cas.blobs) && Replay(w, cas.blobs, pieces).Some?
                        && forall s :: s in pieces ==> PieceNamed(s) && (s.RawChunk? ==> s.hash in chunkFiles);
      WholeSlices(pieces);
      ReplayNil(w, cas.blobs);
      for i := 0 to |pieces|
        invariant Valid() && files - {tmp} == old(files) - {tmp} && tmp in files
        invariant good ==> Replay(w, cas.blobs, pieces[..i]) == Some(files[tmp])
      {
        ReplayPrefix(w, cas.blobs, pieces, i);
        assert pieces[i] in pieces;
        var data := ReadPiece(cas, pieces[i]);
        if data.None? {
          return false;
        }
        WriteTmp(tmp, files[tmp] + data.value);
      }
      ok := true;
    }

    /** What a request that acted on the place `at` leaves behind whatever the store delivers: a valid
        cache, at most one new published file, and a returned file that hashes to its directory. */
    twostate predicate Acted(new at: Place, new r: Result<Place, CacheError>, fetched: bool)
      reads this, index
    {
      && Valid() && OnlyAdds(old(files), files, at)
      && (r.Ok? ==> r.value == at && at in files && w.hash(files[at]) == at.id)
      && (r.Ok? && fetched ==> WithinCap(at.id) && Keyed(old(index.entries))
                               && index.entries == AfterFetch(old(index.entries), at, |files[at]|)
                               && (unlinks ==> EvictedGone(files, old(index.entries), index.entries)))
      && (!fetched ==> files == old(files))
      && (r.Ok? && !fetched ==> RowWritten(old(index.entries), index.entries, at.id, at.name, at, |files[at]|, index.clock))
      && (r.Err? ==> index.entries == old(index.entries))
    }

    /** `_ensure_from_manifest`. The manifest is downloaded again, and is not itself verified; `via` is
        the one the call acted on. */
    method EnsureFromManifest(cas: Store, mid: string)
      returns (r: Result<Place, CacheError>, ghost via: Option<Manifest>, ghost fetched: bool)
      requires Valid() && w.Sound() && cas.w == w && cas.Valid()
      modifies this, index`entries
      ensures via.None? ==> Valid() && r.Err? && !fetched && files == old(files) && index.entries == old(index.entries)
      ensures via.Some? && Contained(via.value) ==> Acted(OutPlace(via.value), r, fetched)
      ensures cas.healthy && Normalize(mid) in cas.blobs ==>
                var m := TryParse(w, cas.blobs[Normalize(mid)]);
                if m.None? || m.value.wholeFile == "" then via.None?
                else via == m && (Contained(m.value) && Rebuildable(w, cas.blobs, m.value) ==> r.Ok?)
    {
      hide ContentOk, ChunksOk, RowsOk, Normalize, TryParse, Rebuildable, Evict, Parse, Addressed, WithinCap, Contained,
           PlainPlace, OwnFile, FinalName, OnlyAdds, EvictedGone;
      fetched, via := false, None;
      var got := cas.GetBytes(mid);
      if got.Err? {
        return Err(DownloadFailed), None, false;
      }
      var parsed := ParseManifest(w, got.value);
      if parsed.None? || parsed.value.wholeFile == "" {
        return Err(Corrupt), None, false;
      }
      var m := parsed.value;
      if mid !in manifests {
        manifests := manifests[mid := got.value];
      }
      var out := OutPlace(m);
      via := Some(m);
      var size := if m.sizeBytes != 0 then Some(m.sizeBytes) else None;
      AcceptedBytes(w, got.value);
      ContainedIsPlain(m);
      if Contained(m) && IsValidHit(out, size) {
        SameAdds(files, out);
        TouchIndex(out);
        PublishedHash(w, files, out);
        return Ok(out), Some(m), false;
      }
      r := Rebuild(cas, m, out, size);
      if r.Ok? && Contained(m) {
        PublishedHash(w, files, out);
      }
      fetched := true;
    }

    /** `ensure_cached`: an existing file, else the blob or the file its manifest describes; `via` is the
        manifest the call acted on, if any. */
    method EnsureCached(cas: Store, contentId: string, filename: string, size: Option<int>)
      returns (r: Result<Place, CacheError>, ghost via: Option<Manifest>, ghost fetched: bool)
      requires Valid() && w.Sound() && cas.w == w && cas.Valid()
      modifies this, index`entries
      ensures var p := Place(Normalize(contentId), Strip(filename));
              PlainPlace(p) && (via.Some? ==> Contained(via.value)) ==>
                Acted(if via.Some? then OutPlace(via.value) else p, r, fetched)
      ensures var p := Place(Normalize(contentId), Strip(filename));
              PlainPlace(p) && old(IsValidHit(p, size)) ==> r == Ok(p) && via.None? && !fetched
      ensures var p := Place(Normalize(contentId), Strip(filename));
              PlainPlace(p) && cas.healthy && p.id in cas.blobs && !old(IsValidHit(p, size)) ==>
                && (cas.headWorks || via.Some? ==> via == SmallManifest(w, cas.blobs[p.id]))
                && (if via.Some? then Contained(via.value) && Rebuildable(w, cas.blobs, via.value) ==> r.Ok?
                    else r.Ok? <==> SizeOk(|cas.blobs[p.id]|, size))
      ensures var p := Place(Normalize(contentId), Strip(filename));
              PlainPlace(p) && cas.healthy && p.id !in cas.blobs && !old(IsValidHit(p, size)) ==> r.Err? && via.None?
    {
      hide ContentOk, ChunksOk, RowsOk, Normalize, TryParse, Rebuildable, Evict, WithinCap, OnlyAdds, Strip, PlainPlace, OwnFile,
           FinalName, Contained, EvictedGone;
      NormalizeIdempotent(contentId);
      var cid, fname := Normalize(contentId), Strip(filename);
      var p := Place(cid, fname);
      via, fetched := None, false;
      if !PlainPlace(p) {
        r, fetched := Elsewhere();
        return;
      }
      PlainIsFinal(p);
      SameAdds(files, p);
      if IsValidHit(p, size) {
        TouchIndex(p);
        PublishedHash(w, files, p);
        return Ok(p), None, false;
      }
      var head := cas.Head(cid);
      if head.Some? && head.value <= ManifestLimit {
        var body := cas.GetBytes(cid);
        if body.Err? {
          return Err(DownloadFailed), None, false;
        }
        var m := ParseManifest(w, body.value);
        if m.Some? && m.value.wholeFile != "" {
          r, via, fetched := EnsureFromManifest(cas, cid);
          return;
        }
        fetched := true;
        r := StoreBlob(cid, fname, size, body.value);
        if r.Ok? { PublishedHash(w, files, p); }
        return;
      }
      fetched := true;
      r := DownloadBlob(cas, cid, fname, size);
      if r.Ok? {
        PublishedHash(w, files, p);
        SameSize(w, cas.blobs, cid, files[p]);
      }
    }

    /** A hit, then another request some time later: whatever that one has to evict, the row just used
        outlives every unprotected row last used before the hit. */
    method HitThenRequest(cas: Store, contentId: string, filename: string, nextId: string, nextName: string, later: int)
      returns (first: Result<Place, CacheError>, second: Result<Place, CacheError>, ghost via: Option<Manifest>)
      requires Valid() && w.Sound() && cas.w == w && cas.Valid()
      requires var p := Place(Normalize(contentId), Strip(filename)); PlainPlace(p) && p in files
      requires PlainPlace(Place(Normalize(nextId), Strip(nextName)))
      modifies this, index
      ensures first == Ok(Place(Normalize(contentId), Strip(filename)))
      ensures via.Some? ==> Contained(via.value) ==> Outlives(Normalize(contentId), OutPlace(via.value).id, old(index.clock))
      ensures via.None? ==> Outlives(Normalize(contentId), Normalize(nextId), old(index.clock))
    {
      hide ContentOk, ChunksOk, RowsOk, Normalize, Strip, PlainPlace, Contained, OnlyAdds, Evict, EvictedGone, Rebuildable,
           SmallManifest, WithinCap, IsValidHit;
      ghost var used := Normalize(contentId);
      ghost var since := index.clock;
      HitWithoutSize(Place(used, Strip(filename)));
      ghost var v, f;
      first, v, f := EnsureCached(cas, contentId, filename, None);
      index.clock := later;
      label Between:
      ghost var fetched;
      second, via, fetched := EnsureCached(cas, nextId, nextName, None);
      if via.Some? ==> Contained(via.value) {
        ghost var at := if via.Some? then OutPlace(via.value) else Place(Normalize(nextId), Strip(nextName));
        if second.Ok? && fetched {
          FetchOutlives(old@Between(index.entries), index.entries, at, |files[at]|, used, since);
        }
      }
    }

    /** The row `used` is there, or every row but the protected one was last used at `since` or later. */
    ghost predicate Outlives(used: string, kept: string, since: int)
      reads index
    {
      forall k :: k in index.entries && k != kept && index.entries[k].lastAccessedAt < since ==> used in index.entries
    }

    lemma HitWithoutSize(p: Place)
      requires p in files
      ensures IsValidHit(p, None)
    {
    }

    lemma FetchOutlives(rows: Rows, after: Rows, at: Place, size: nat, used: string, since: int)
      requires FixedTieOrder(index.rank) && Keyed(rows) && after == AfterFetch(rows, at, size)
      requires used in rows && rows[used].lastAccessedAt == since
      ensures forall k :: k in after && k != at.id && after[k].lastAccessedAt < since ==> used in after
    {
      hide Evict;
      var recorded := Upserted(rows, at.id, at.name, at, size, index.clock);
      EvictStops(index.rank, recorded, {at.id}, maxBytes);
      forall k | k in after && k != at.id && after[k].lastAccessedAt < since
        ensures used in after
      {
        if maxBytes > 0 && used != at.id { UsedLaterOutlives(index.rank, recorded, {at.id}, maxBytes, used, k); }
      }
    }

    /** The body of `_ensure_from_manifest` behind the hit check: chunks, assembly, verification, publication. */
    method Rebuild(cas: Store, m: Manifest, out: Place, size: Option<int>) returns (r: Result<Place, CacheError>)
      requires Valid() && w.Sound() && cas.w == w && cas.Valid() && Accepted(m)
      requires out == OutPlace(m) && size == if m.sizeBytes != 0 then Some(m.sizeBytes) else None
      modifies this, index`entries
      ensures Contained(m) ==> Fetched(out, r)
      ensures Contained(m) && cas.healthy && Rebuildable(w, cas.blobs, m) ==> r.Ok?
    {
      hide ContentOk, ChunksOk, RowsOk, Evict, Addressed, Accepted, WithinCap, Replay, Extends, Contained, PlainPlace, OwnFile,
           FinalName;
      if !Contained(m) {
        ghost var fetched;
        r, fetched := Elsewhere();
        return;
      }
      ContainedIsPlain(m);
      PiecesAccepted(m);
      var ok := FetchChunks(cas, m.chunks);
      if !ok {
        SameAdds(files, out);
        return Err(Corrupt);
      }
      PiecesFetched(m, chunkFiles);
      var tmp := Place(out.id, AssembleTmp(out.name));
      RemoveTmp(tmp);
      ok := Assemble(cas, PiecesOf(m), tmp);
      OnlyTmpDiffers(old(files), files, tmp, out);
      if !ok {
        return Err(Corrupt);
      }
      ok := VerifyTmp(tmp, out.id, size);
      if !ok {
        return Err(Corrupt);
      }
      PublishTmp(tmp, out);
      RecordAndEvict(out);
      r := Ok(out);
    }
  }

  /** The manifest names a plain place and chunks by digests, so that every path made from it stays
      inside the directory meant for it. */
  predicate Contained(m: Manifest) {
    PlainPlace(OutPlace(m)) && forall c :: c in m.chunks ==> IsHex(c.hash)
  }

  lemma ContainedIsPlain(m: Manifest)
    ensures var out := OutPlace(m);
            Contained(m) ==> PlainPlace(out) && FinalName(out.name)
                             && OwnFile(Place(out.id, DownloadTmp(out.name))) && OwnFile(Place(out.id, AssembleTmp(out.name)))
                             && DownloadTmp(out.name) != out.name && AssembleTmp(out.name) != out.name
  {
    if Contained(m) { PlainIsFinal(OutPlace(m)); }
  }

  /** A plain place is published under a final name, and its temporaries are files of its directory. */
  lemma PlainIsFinal(p: Place)
    requires PlainPlace(p)
    ensures FinalName(p.name)
    ensures OwnFile(Place(p.id, DownloadTmp(p.name))) && OwnFile(Place(p.id, AssembleTmp(p.name)))
    ensures DownloadTmp(p.name) != p.name && AssembleTmp(p.name) != p.name
  {
    TemporariesInside(p);
  }

  /** A file under the digest of a stored blob is that blob. */
  lemma SameSize(w: World, blobs: Blobs, id: string, body: Bytes)
    requires w.CollisionFree() && Addressed(w, blobs) && w.hash(body) == id
    ensures id in blobs ==> blobs[id] == body
  {
    if id in blobs { w.SameHash(body, blobs[id]); }
  }

  lemma PublishedHash(w: World, files: Files, p: Place)
    requires ContentOk(w, files) && p in files && FinalName(p.name)
    ensures w.hash(files[p]) == p.id
  {
  }

  lemma SameAdds(files: Files, p: Place)
    ensures OnlyAdds(files, files, p)
  {
  }

  // ---------------------------------------------------------------- assembly lemmas

  /** The ids a piece names are normalized, as in every parsed manifest. */
  ghost predicate PieceNamed(s: ManifestSegment) {
    match s
    case RawChunk(h, _) => IsId(h)
    case ZstdDictPatch(_, _, _, dict, patch, _, _) => IsId(dict) && IsId(patch)
  }

  /** The only published file that can be new is `p`. */
  ghost predicate OnlyAdds(files0: Files, files: Files, p: Place) {
    forall q :: q in files && FinalName(q.name) ==> q in files0 || q == p
  }

  lemma KeptByEviction(files0: Files, files: Files, rows0: Rows, rows: Rows, p: Place)
    requires OnlyEvicted(files0, files, rows0, rows) && p in files0 && p.id in rows
    ensures p in files && files[p] == files0[p]
    ensures forall q :: q in files ==> q in files0
  {
  }

  lemma OnlyTmpDiffers(files0: Files, files: Files, tmp: Place, p: Place)
    requires files - {tmp} == files0 - {tmp} && !FinalName(tmp.name)
    ensures OnlyAdds(files0, files, p)
  {
    forall q | q in files && FinalName(q.name)
      ensures q in files0
    {
      assert q in files - {tmp};
    }
  }

  lemma ReplayNil(w: World, blobs: Blobs)
    ensures Replay(w, blobs, []) == Some([])
  {
  }

  /** A replay that succeeds succeeds piece by piece. */
  lemma {:induction false} ReplayPrefix(w: World, blobs: Blobs, ss: seq<ManifestSegment>, i: nat)
    requires i < |ss|
    ensures Replay(w, blobs, ss).Some? ==>
              && Piece(w, blobs, ss[i]).Some? && Replay(w, blobs, ss[..i]).Some?
              && Replay(w, blobs, ss[..i + 1]) == Some(Replay(w, blobs, ss[..i]).value + Piece(w, blobs, ss[i]).value)
    decreases |ss|
  {
    hide Piece;
    if i < |ss| - 1 {
      var init := ss[..|ss| - 1];
      ReplayPrefix(w, blobs, init, i);
      assert init[..i] == ss[..i] && init[..i + 1] == ss[..i + 1];
    } else {
      assert ss[..i + 1] == ss;
    }
  }

  lemma AcceptedBytes(w: World, bytes: Bytes)
    ensures TryParse(w, bytes).Some? ==> Accepted(TryParse(w, bytes).value)
  {
    hide Parse, Accepted;
    var d := w.decode(bytes);
    if d.Some? { ParsedIsAccepted(w, d.value); }
  }

  lemma PiecesAccepted(m: Manifest)
    requires Accepted(m)
    ensures forall s :: s in PiecesOf(m) ==> PieceNamed(s)
    ensures forall c :: c in m.chunks ==> ChunkSurvives(c)
  {
    hide IsId;
    forall s | s in PiecesOf(m)
      ensures PieceNamed(s)
    {
      if m.schema == SCHEMA_V3 {
        assert SegmentSurvives(s);
      } else {
        var i :| 0 <= i < |PiecesOf(m)| && PiecesOf(m)[i] == s;
        assert m.chunks[i] in m.chunks;
      }
    }
  }

  /** The chunk list covers every raw piece. */
  lemma PiecesFetched(m: Manifest, chunkFiles: Blobs)
    requires Accepted(m) && forall c :: c in m.chunks ==> c.hash in chunkFiles
    ensures forall s :: s in PiecesOf(m) && s.RawChunk? ==> s.hash in chunkFiles
  {
    hide IsId, ChunkSurvives, SegmentSurvives;
    forall s | s in PiecesOf(m) && s.RawChunk?
      ensures s.hash in chunkFiles
    {
      if m.schema == SCHEMA_V3 {
        RawInChunks(m.segments.value, s);
        assert ManifestChunk(s.hash, s.size) in m.chunks;
      } else {
        var i :| 0 <= i < |PiecesOf(m)| && PiecesOf(m)[i] == s;
        assert m.chunks[i] in m.chunks;
      }
    }
  }

  lemma {:induction false} RawInChunks(ss: seq<ManifestSegment>, s: ManifestSegment)
    requires s in ss && s.RawChunk?
    ensures ManifestChunk(s.hash, s.size) in RawChunks(ss)
  {
    if s != ss[|ss| - 1] {
      RawInChunks(ss[..|ss| - 1], s);
    }
  }

  // ---------------------------------------------------------------- eviction lemmas

  /** Files disappear only together with the row that named them, and none is changed. */
  ghost predicate OnlyEvicted(files0: Files, files: Files, rows0: Rows, rows: Rows) {
    && (forall p :: p in files ==> p in files0 && files[p] == files0[p])
    && (forall k :: k in rows ==> k in rows0 && rows[k] == rows0[k])
    && (forall p :: p in files0 && p !in files ==> p.id in rows0 && p.id !in rows && rows0[p.id].relPath == p)
  }

  /** The files of evicted rows are gone. */
  ghost predicate EvictedGone(files: Files, rows0: Rows, rows: Rows) {
    forall k :: k in rows0 && k !in rows ==> rows0[k].relPath !in files
  }

  lemma OnlyEvictedNone(files: Files, rows: Rows)
    ensures OnlyEvicted(files, files, rows, rows) && EvictedGone(files, rows, rows)
  {
  }

  lemma OnlyEvictedStep(files0: Files, files: Files, files': Files, rows0: Rows, rows: Rows, e: Entry)
    requires OnlyEvicted(files0, files, rows0, rows) && e.contentId in rows && rows[e.contentId] == e
    requires e.relPath.id == e.contentId && (files' == files || files' == files - {e.relPath})
    ensures OnlyEvicted(files0, files', rows0, rows - {e.contentId})
    ensures files' == files - {e.relPath} && EvictedGone(files, rows0, rows) ==>
              EvictedGone(files', rows0, rows - {e.contentId})
  {
  }

  lemma GoneBefore(files: Files, rows0: Rows, recorded: Rows, rows: Rows, p: Place)
    requires p.id in rows && forall k :: k in rows0 && k != p.id ==> k in recorded && recorded[k] == rows0[k]
    ensures EvictedGone(files, recorded, rows) ==> EvictedGone(files, rows0, rows)
  {
  }

  lemma RowsKeyed(rows: Rows, files: Files)
    requires RowsOk(rows, files)
    ensures Keyed(rows)
  {
  }

  lemma EvictDone(rank: string -> int, rows: Rows, exclude: set<string>, cap: int)
    requires FixedTieOrder(rank) && Keyed(rows)
    ensures SumSizes(rows) <= cap || !HasCandidate(rows, exclude) ==> Evict(rank, rows, exclude, cap) == rows
  {
  }

  lemma NoCandidates(rank: string -> int, rows: Rows, exclude: set<string>, limit: nat)
    requires FixedTieOrder(rank) && Keyed(rows) && limit > 0
    ensures Candidates(rank, rows, exclude, limit) == [] <==> !HasCandidate(rows, exclude)
  {
  }

  /** While the total is over the cap, the first candidate is the row one-at-a-time eviction drops next. */
  lemma EvictHead(rank: string -> int, rows: Rows, exclude: set<string>, cap: int, limit: nat, cs: seq<Entry>)
    requires FixedTieOrder(rank) && Keyed(rows) && SumSizes(rows) > cap
    requires cs != [] && cs == Candidates(rank, rows, exclude, limit)
    ensures limit > 0 && cs[0].contentId in rows && rows[cs[0].contentId] == cs[0]
    ensures |rows - {cs[0].contentId}| == |rows| - 1 && Keyed(rows - {cs[0].contentId})
    ensures cs[1..] == Candidates(rank, rows - {cs[0].contentId}, exclude, limit - 1)
    ensures Evict(rank, rows - {cs[0].contentId}, exclude, cap) == Evict(rank, rows, exclude, cap)
  {
    CandidatesTail(rank, rows, exclude, limit);
    Shrinks(rows, cs[0].contentId);
  }
}
