/** The content-addressed store as the client sees it (zeno_client/client.py): blobs keyed by their
    digest, versions that point at blobs, and requests that may fail. */
module Cas {
  import opened Base
  import opened Text
  import opened Worlds

  /** Where a version is registered. */
  datatype Target = Target(project: string, asset: string, representation: string, version: string, stage: string)

  /** A registered version; `dedup` is `metadata.dedup_artifact.content_id`. */
  datatype Version = Version(target: Target, contentId: string, filename: string, size: nat, strategy: string,
                             dedup: Option<string>)

  datatype Failure = Unavailable | HashMismatch | NotFound

  /** Every blob of `a` is still there in `b`. */
  ghost predicate Extends(a: map<string, Bytes>, b: map<string, Bytes>) {
    forall k :: k in a ==> k in b && b[k] == a[k]
  }

  lemma ExtendsReflexive(a: map<string, Bytes>)
    ensures Extends(a, a)
  {
  }

  lemma ExtendsTransitive(a: map<string, Bytes>, b: map<string, Bytes>, c: map<string, Bytes>)
    requires Extends(a, b) && Extends(b, c)
    ensures Extends(a, c)
  {
  }

  lemma ExtendsKeys(a: map<string, Bytes>, b: map<string, Bytes>)
    requires Extends(a, b)
    ensures a.Keys <= b.Keys
  {
  }

  /** Every blob is stored under its own digest. */
  ghost predicate Addressed(w: World, blobs: map<string, Bytes>) {
    forall k :: k in blobs ==> w.hash(blobs[k]) == k
  }

  /** The bytes of all blobs together. */
  ghost function StoredBytes(blobs: map<string, Bytes>): nat
    decreases |blobs|
  {
    if blobs == map[] then 0
    else
      var k :| k in blobs;
      Smaller(blobs, k);
      |blobs[k]| + StoredBytes(blobs - {k})
  }

  lemma Smaller(blobs: map<string, Bytes>, k: string)
    requires k in blobs
    ensures |blobs - {k}| < |blobs|
  {
    assert (blobs - {k}).Keys == blobs.Keys - {k};
  }

  lemma {:induction false} StoredBytesWithout(blobs: map<string, Bytes>, k: string)
    requires k in blobs
    ensures StoredBytes(blobs) == |blobs[k]| + StoredBytes(blobs - {k})
    decreases |blobs|
  {
    var j :| j in blobs && StoredBytes(blobs) == |blobs[j]| + StoredBytes(blobs - {j});
    if j != k {
      Smaller(blobs, j);
      Smaller(blobs, k);
      StoredBytesWithout(blobs - {j}, k);
      StoredBytesWithout(blobs - {k}, j);
      assert blobs - {j} - {k} == blobs - {k} - {j};
    }
  }

  /** A new blob adds its length. */
  lemma StoredBytesWith(blobs: map<string, Bytes>, k: string, body: Bytes)
    requires k !in blobs
    ensures StoredBytes(blobs[k := body]) == StoredBytes(blobs) + |body|
  {
    var more := blobs[k := body];
    StoredBytesWithout(more, k);
    assert more - {k} == blobs;
  }

  class Store {
    const w: World
    /** No request is lost and no download is garbled. */
    const healthy: bool
    /** HEAD requests report the length; when false they may fail, which callers treat as "unknown". */
    const headWorks: bool
    var blobs: map<string, Bytes>
    var versions: seq<Version>

    constructor (w: World, healthy: bool, headWorks: bool)
      ensures this.w == w && this.healthy == healthy && this.headWorks == headWorks
      ensures blobs == map[] && versions == []
    {
      this.w := w;
      this.healthy := healthy;
      this.headWorks := headWorks;
      blobs := map[];
      versions := [];
    }

    ghost predicate Valid()
      reads this
    {
      Addressed(w, blobs)
    }

    method Lost() returns (lost: bool)
      ensures healthy ==> !lost
    {
      if healthy { return false; }
      lost := *;
    }

    method BlobExists(contentHash: string) returns (r: Result<bool, Failure>)
      ensures r.Ok? ==> r.value == (Normalize(contentHash) in blobs)
      ensures healthy ==> r.Ok?
    {
      var lost := Lost();
      r := if lost then Err(Unavailable) else Ok(Normalize(contentHash) in blobs);
    }

    /** The store refuses a body that does not hash to its key. A lost reply may hide a stored blob. */
    method UploadBytes(body: Bytes, contentHash: string) returns (r: Result<bool, Failure>)
      modifies this`blobs
      ensures blobs == old(blobs)
           || (w.hash(body) == Normalize(contentHash) && blobs == old(blobs)[Normalize(contentHash) := body])
      ensures r.Ok? ==> w.hash(body) == Normalize(contentHash) && blobs == old(blobs)[Normalize(contentHash) := body]
      ensures healthy && w.hash(body) == Normalize(contentHash) ==> r.Ok?
    {
      var key := Normalize(contentHash);
      var lostRequest := Lost();
      if lostRequest {
        return Err(Unavailable);
      }
      if w.hash(body) != key {
        return Err(HashMismatch);
      }
      var created := key !in blobs;
      blobs := blobs[key := body];
      var lostReply := Lost();
      r := if lostReply then Err(Unavailable) else Ok(created);
    }

    /** A download. On an unhealthy connection it may fail or deliver anything. */
    method GetBytes(contentHash: string) returns (r: Result<Bytes, Failure>)
      ensures healthy ==> (r.Ok? <==> Normalize(contentHash) in blobs)
      ensures healthy && r.Ok? ==> r.value == blobs[Normalize(contentHash)]
    {
      var key := Normalize(contentHash);
      var lost := Lost();
      if lost {
        var garbled: Result<Bytes, Failure> := *;
        return garbled;
      }
      r := if key in blobs then Ok(blobs[key]) else Err(NotFound);
    }

    /** The length of a blob, None when it is absent or the request fails. */
    method Head(contentHash: string) returns (size: Option<nat>)
      ensures size.Some? ==> Normalize(contentHash) in blobs && size.value == |blobs[Normalize(contentHash)]|
      ensures headWorks && Normalize(contentHash) in blobs ==> size.Some?
    {
      var key := Normalize(contentHash);
      if !headWorks {
        var failed: bool := *;
        if failed { return None; }
      }
      size := if key in blobs then Some(|blobs[key]|) else None;
    }

    /** Registers a version; a lost reply may hide a registration. */
    method RegisterVersion(v: Version) returns (r: Result<(), Failure>)
      modifies this`versions
      ensures versions == old(versions) || versions == old(versions) + [v]
      ensures r.Ok? ==> versions == old(versions) + [v]
      ensures healthy ==> r.Ok?
    {
      var lostRequest := Lost();
      if lostRequest {
        return Err(Unavailable);
      }
      versions := versions + [v];
      var lostReply := Lost();
      r := if lostReply then Err(Unavailable) else Ok(());
    }
  }

  /** Storing a body under its digest again changes nothing, and storing it anew only adds it. */
  lemma Restore(w: World, blobs: map<string, Bytes>, body: Bytes, h: string)
    requires Addressed(w, blobs) && w.CollisionFree() && h == w.hash(body)
    ensures h in blobs ==> blobs == blobs[h := body]
    ensures Extends(blobs, blobs[h := body]) && Addressed(w, blobs[h := body])
    ensures |blobs[h := body]| == |blobs| + (if h in blobs then 0 else 1)
  {
    if h in blobs {
      w.SameHash(body, blobs[h]);
      assert blobs == blobs[h := body];
    }
  }

  /** `if not blob_exists(h): upload_blob_bytes(body, h)`; true when it uploaded. */
  method UploadMissing(cas: Store, body: Bytes, h: string) returns (r: Result<bool, Failure>)
    requires cas.Valid() && cas.w.Sound() && h == cas.w.hash(body)
    modifies cas`blobs
    ensures cas.Valid() && Extends(old(cas.blobs), cas.blobs)
    ensures r.Ok? ==> cas.blobs == old(cas.blobs)[h := body]
    ensures r.Ok? ==> |cas.blobs| == |old(cas.blobs)| + (if r.value then 1 else 0)
    ensures r.Ok? ==> r.value == (h !in old(cas.blobs))
    ensures cas.healthy ==> r.Ok?
  {
    hide Extends, Addressed;
    HexIsNormal(h);
    ExtendsReflexive(cas.blobs);
    var exists_ := cas.BlobExists(h);
    if exists_.Err? {
      return Err(exists_.error);
    }
    Restore(cas.w, cas.blobs, body, h);
    if exists_.value {
      return Ok(false);
    }
    var up := cas.UploadBytes(body, h);
    r := if up.Err? then Err(up.error) else Ok(true);
  }
}
