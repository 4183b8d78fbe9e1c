/** Omni ingest (zeno_client/omni_ingest.py): entropy segments become raw chunks or one dictionary
    patch each, and the manifest segments written down replay to exactly the ingested bytes. */
module Ingest {
  import opened Base
  import opened Text
  import opened Worlds
  import opened Chunking
  import opened ChunkingTheory
  import opened Entropy
  import opened Manifest
  import opened ManifestTheory
  import opened Cas
  import opened Materialize

  datatype OmniIngestResult = OmniIngestResult(
    manifestId: string, manifestBytes: Bytes, wholeFile: string, chunks: seq<Chunk>, uploadedChunks: nat,
    uploadedAuxBlobs: nat, segments: seq<ManifestSegment>, dccCanonical: bool)

  // ---------------------------------------------------------------- dictionary patches

  /** `[parent[i : i + step] for i in range(0, n, step)]`. */
  function Slices(parent: Bytes, step: nat): seq<Bytes>
    requires step > 0
    decreases |parent|
  {
    if parent == [] then [] else [parent[..Min(step, |parent|)]] + Slices(parent[Min(step, |parent|)..], step)
  }

  function SampleStep(n: nat, maxChunk: nat): (step: nat)
    ensures step >= 1
  {
    Max(1, Min(maxChunk, n / Max(8, Min(256, n / 4096))))
  }

  function TrainingSamples(parent: Bytes, maxChunk: nat): seq<Bytes> {
    if |parent| < 2 then []
    else
      var samples := Slices(parent, SampleStep(|parent|, maxChunk));
      if |samples| < 2 then [parent[..|parent| / 2], parent[|parent| / 2..]] else samples
  }

  lemma ConcatCons(head: Bytes, rest: seq<Bytes>)
    ensures Concat([head] + rest) == head + Concat(rest)
  {
    assert ([head] + rest)[1..] == rest;
  }

  lemma {:induction false} SlicesPartition(parent: Bytes, step: nat)
    requires step > 0
    ensures Concat(Slices(parent, step)) == parent
    ensures forall s :: s in Slices(parent, step) ==> s != [] && |s| <= step
    ensures |parent| > step ==> |Slices(parent, step)| >= 2
    decreases |parent|
  {
    if parent != [] {
      var n := Min(step, |parent|);
      var first, rest := parent[..n], Slices(parent[n..], step);
      SlicesPartition(parent[n..], step);
      SlicesFirst(parent, step, n);
      hide Slices, Concat;
      ConcatCons(first, rest);
      assert first + parent[n..] == parent;
    }
  }

  lemma SlicesFirst(parent: Bytes, step: nat, n: nat)
    requires step > 0 && parent != [] && n == Min(step, |parent|)
    ensures Slices(parent, step) == [parent[..n]] + Slices(parent[n..], step)
    ensures n < |parent| ==> Slices(parent[n..], step) != []
  {
  }

  /** A parent of two bytes or more always gives at least two non-empty samples that partition it: the
      half-and-half fallback is never reached. */
  lemma SamplesPartitionParent(parent: Bytes, maxChunk: nat)
    requires |parent| >= 2
    ensures var samples := TrainingSamples(parent, maxChunk);
            && samples == Slices(parent, SampleStep(|parent|, maxChunk))
            && |samples| >= 2 && Concat(samples) == parent && forall s :: s in samples ==> s != []
  {
    var step := SampleStep(|parent|, maxChunk);
    StepBelow(|parent|, maxChunk);
    hide SampleStep, Slices, Concat;
    SlicesPartition(parent, step);
  }

  lemma StepBelow(n: nat, maxChunk: nat)
    requires n >= 2
    ensures SampleStep(n, maxChunk) < n
  {
    DivAtLeast8(n, Max(8, Min(256, n / 4096)));
  }

  lemma DivAtLeast8(n: nat, d: nat)
    requires d >= 8
    ensures (n / d) * 8 <= n
  {
    var q, r := n / d, n % d;
    assert n == q * d + r;
    MulAtLeast8(q, d);
  }

  lemma MulAtLeast8(q: nat, d: nat)
    requires d >= 8
    ensures q * 8 <= q * d
  {
    assert q * d == q * 8 + q * (d - 8);
  }

  /** `_high_entropy_patch`: (dictionary, patch), or None to fall back to chunking. */
  function HighEntropyPatch(w: World, newBytes: Bytes, parent: Option<Bytes>): Option<(Bytes, Bytes)> {
    if !w.zstdInstalled || parent.None? then None
    else if parent.value == [] || newBytes == [] then None
    else
      var samples := TrainingSamples(parent.value, 256 * 1024);
      if samples == [] then None
      else
        var dict := w.train(Min(131072, Max(1024, |parent.value|)), samples);
        if dict.None? then None else Some((dict.value, w.compress(dict.value, newBytes)))
  }

  lemma {:induction false} SliceAt(parent: Bytes, step: nat, i: nat)
    requires step > 0
    ensures i < |Slices(parent, step)| <==> i * step < |parent|
    ensures i < |Slices(parent, step)| ==> Slices(parent, step)[i] == parent[i * step..Min(i * step + step, |parent|)]
    decreases i
  {
    Products(i, step);
    if i > 0 && step < |parent| {
      SliceAt(parent[step..], step, i - 1);
      NextSlice(parent, step, i, (i - 1) * step);
    } else if i > 0 {
      ShortSlices(parent, step);
    }
  }

  lemma NextSlice(parent: Bytes, step: nat, i: nat, at: nat)
    requires 0 < step < |parent| && i > 0
    requires var rest := parent[step..];
             && (i - 1 < |Slices(rest, step)| <==> at < |rest|)
             && (at < |rest| ==> Slices(rest, step)[i - 1] == rest[at..Min(at + step, |rest|)])
    ensures i < |Slices(parent, step)| <==> at + step < |parent|
    ensures at + step < |parent| ==> Slices(parent, step)[i] == parent[at + step..Min(at + step + step, |parent|)]
  {
    SlicesCons(parent, step);
    hide Slices;
    if at + step < |parent| { SliceShift(parent, step, at); }
  }

  lemma Products(i: nat, step: nat)
    ensures i * step == (i - 1) * step + step && (i > 0 ==> (i - 1) * step >= 0)
  {
    if i > 0 { assert (i - 1) * step >= 0; }
  }

  lemma SlicesCons(parent: Bytes, step: nat)
    requires 0 < step < |parent|
    ensures Slices(parent, step) == [parent[..step]] + Slices(parent[step..], step)
  {
  }

  lemma ShortSlices(parent: Bytes, step: nat)
    requires |parent| <= step && step > 0
    ensures |Slices(parent, step)| <= 1
  {
    if parent != [] { assert parent[Min(step, |parent|)..] == []; }
  }

  lemma SliceShift(parent: Bytes, step: nat, a: nat)
    requires a + step < |parent|
    ensures parent[step..][a..Min(a + step, |parent| - step)] == parent[a + step..Min(a + step + step, |parent|)]
  {
    WholeSlices(parent);
    SliceOfSlice(parent, step, |parent|, a, Min(a + step, |parent| - step));
    assert parent[step..] == parent[step..|parent|];
  }

  /** About 256 samples for a large parent and at least eight for a small one, none above the limit. */
  predicate StepFor(n: nat, maxChunk: nat, step: nat) {
    var pieces := if n / 4096 < 8 then 8 else if n / 4096 > 256 then 256 else n / 4096;
    var share := n / pieces;
    step == if maxChunk == 0 || share == 0 then 1 else if maxChunk < share then maxChunk else share
  }

  /** The samples are consecutive slices of one length. */
  lemma SamplesAt(parent: Bytes, maxChunk: nat, step: nat, i: nat)
    requires |parent| >= 2 && StepFor(|parent|, maxChunk, step)
    ensures i < |TrainingSamples(parent, maxChunk)| <==> i * step < |parent|
    ensures i < |TrainingSamples(parent, maxChunk)| ==>
              TrainingSamples(parent, maxChunk)[i] == parent[i * step..Min(i * step + step, |parent|)]
  {
    hide *;
    StepIs(|parent|, maxChunk, step);
    SamplesPartitionParent(parent, maxChunk);
    SliceAt(parent, step, i);
  }

  lemma StepIs(n: nat, maxChunk: nat, step: nat)
    ensures StepFor(n, maxChunk, step) <==> SampleStep(n, maxChunk) == step
  {
    assert Max(8, Min(256, n / 4096)) == if n / 4096 < 8 then 8 else if n / 4096 > 256 then 256 else n / 4096;
  }

  lemma PatchUsesDictionary(w: World, newBytes: Bytes, parent: Option<Bytes>)
    ensures var r := HighEntropyPatch(w, newBytes, parent);
            r.Some? ==> w.zstdInstalled && r.value.1 == w.compress(r.value.0, newBytes)
  {
  }

  /** The part of the parent that lies at the same offsets as the segment. */
  function ParentSegment(parent: Option<Bytes>, start: nat, end: nat): Option<Bytes>
    requires start <= end
  {
    if parent.None? || start >= |parent.value| then None else Some(parent.value[start..Min(end, |parent.value|)])
  }

  // ---------------------------------------------------------------- which segments are written

  function RawSegments(cs: seq<Chunk>): seq<ManifestSegment> {
    seq(|cs|, i requires 0 <= i < |cs| => RawChunk(cs[i].contentHash, cs[i].size))
  }

  /** The manifest segments of one entropy segment: one patch when it is high-entropy and a dictionary
      can be trained on the parent's bytes at the same offsets, otherwise its chunks. */
  function SegmentPlan(w: World, source: Bytes, seg: Segment, chunking: ChunkingConfig, forced: set<int>, parentId: string,
                       parentBytes: Option<Bytes>): seq<ManifestSegment>
  {
    if !(seg.start <= seg.end <= |source|) then [] else
    var bytes := source[seg.start..seg.end];
    var payload := if seg.mode == High then HighEntropyPatch(w, bytes, ParentSegment(parentBytes, seg.start, seg.end)) else None;
    if payload.Some? then
      [ZstdDictPatch(parentId, seg.start, seg.end, w.hash(payload.value.0), w.hash(payload.value.1), |payload.value.1|, |bytes|)]
    else RawSegments(Chunks(w, bytes, seg.start, chunking, forced))
  }

  function Plan(w: World, source: Bytes, segs: seq<Segment>, chunking: ChunkingConfig, forced: set<int>, parentId: string,
                parentBytes: Option<Bytes>): seq<ManifestSegment>
  {
    if segs == [] then []
    else
      Plan(w, source, segs[..|segs| - 1], chunking, forced, parentId, parentBytes)
      + SegmentPlan(w, source, segs[|segs| - 1], chunking, forced, parentId, parentBytes)
  }

  /** A segment becomes one patch iff it is high-entropy, the codec is there, and a dictionary can be
      trained on the at least two bytes the parent has at the same offsets; else it becomes its chunks. */
  lemma PatchIff(w: World, source: Bytes, seg: Segment, chunking: ChunkingConfig, forced: set<int>, parentId: string,
                 parentBytes: Option<Bytes>)
    requires seg.start <= seg.end <= |source|
    ensures var bytes := source[seg.start..seg.end];
            var plan := SegmentPlan(w, source, seg, chunking, forced, parentId, parentBytes);
            var cs := Chunks(w, bytes, seg.start, chunking, forced);
            var overlap: Bytes := if parentBytes.Some? && seg.start < |parentBytes.value|
                                  then parentBytes.value[seg.start..Min(seg.end, |parentBytes.value|)] else [];
            var size := if |overlap| < 1024 then 1024 else if |overlap| > 131072 then 131072 else |overlap|;
            var dict := w.train(size, TrainingSamples(overlap, 262144));
            if seg.mode == High && w.zstdInstalled && seg.start < seg.end && |overlap| >= 2 && dict.Some? then
              var patch := w.compress(dict.value, bytes);
              plan == [ZstdDictPatch(parentId, seg.start, seg.end, w.hash(dict.value), w.hash(patch), |patch|, seg.end - seg.start)]
            else
              |plan| == |cs| && forall i :: 0 <= i < |cs| ==> plan[i] == RawChunk(cs[i].contentHash, cs[i].size)
  {
    hide Chunks, Slices, SampleStep;
    var bytes := source[seg.start..seg.end];
    var parent := ParentSegment(parentBytes, seg.start, seg.end);
    if parent.Some? && |parent.value| >= 2 {
      SamplesPartitionParent(parent.value, 262144);
    }
    hide TrainingSamples;
    if parent.Some? && |parent.value| < 2 { NoSamples(parent.value); }
  }

  lemma NoSamples(parent: Bytes)
    requires |parent| < 2
    ensures TrainingSamples(parent, 262144) == []
  {
  }

  // ---------------------------------------------------------------- what the loop maintains

  datatype Progress = Progress(chunks: seq<Chunk>, segments: seq<ManifestSegment>, uploadedChunks: nat, uploadedAux: nat)

  function SegmentSize(s: ManifestSegment): int {
    match s
    case RawChunk(_, size) => size
    case ZstdDictPatch(_, _, _, _, _, _, size) => size
  }

  function TotalSize(ss: seq<ManifestSegment>): int {
    if ss == [] then 0 else TotalSize(ss[..|ss| - 1]) + SegmentSize(ss[|ss| - 1])
  }

  /** A segment as ingest writes it for the bytes from offset `at`: normal except perhaps for its parent
      id, with the ranges and sizes of what it names. */
  ghost predicate Written(blobs: Blobs, s: ManifestSegment, parentId: string, at: int) {
    match s
    case RawChunk(h, size) => IsId(h) && h in blobs && size == |blobs[h]|
    case ZstdDictPatch(parent, start, end, dict, patch, patchSize, size) =>
      && parent == parentId && IsId(dict) && IsId(patch) && patch in blobs && patchSize == |blobs[patch]|
      && start == at && end == at + size && size >= 0
  }

  ghost predicate AllWritten(blobs: Blobs, ss: seq<ManifestSegment>, parentId: string) {
    ss != [] ==>
      var init, last := ss[..|ss| - 1], ss[|ss| - 1];
      AllWritten(blobs, init, parentId) && Written(blobs, last, parentId, TotalSize(init))
  }

  lemma {:induction false} AllWrittenMonotone(a: Blobs, b: Blobs, ss: seq<ManifestSegment>, parentId: string)
    requires AllWritten(a, ss, parentId) && Extends(a, b)
    ensures AllWritten(b, ss, parentId)
  {
    if ss != [] {
      AllWrittenMonotone(a, b, ss[..|ss| - 1], parentId);
    }
  }

  lemma {:induction false} PatchParent(blobs: Blobs, ss: seq<ManifestSegment>, parentId: string, i: nat)
    requires AllWritten(blobs, ss, parentId) && i < |ss| && ss[i].ZstdDictPatch?
    ensures ss[i].parentContentId == parentId
  {
    hide IsId;
    if i < |ss| - 1 {
      PatchParent(blobs, ss[..|ss| - 1], parentId, i);
    }
  }

  function AsManifestChunks(cs: seq<Chunk>): seq<ManifestChunk> {
    seq(|cs|, i requires 0 <= i < |cs| => ManifestChunk(cs[i].contentHash, cs[i].size))
  }

  /** The segments so far replay to the first `upTo` bytes, add up to them, and list the chunks in order. */
  ghost predicate Ingested(w: World, blobs: Blobs, source: Bytes, upTo: nat, p: Progress, parentId: string) {
    && upTo <= |source|
    && Replay(w, blobs, p.segments) == Some(source[..upTo])
    && TotalSize(p.segments) == upTo
    && RawChunks(p.segments) == AsManifestChunks(p.chunks)
    && AllWritten(blobs, p.segments, parentId)
  }

  lemma IngestOne(w: World, a: Blobs, b: Blobs, source: Bytes, upTo: nat, next: nat, p: Progress, p': Progress,
                  parentId: string, s: ManifestSegment)
    requires Ingested(w, a, source, upTo, p, parentId) && Extends(a, b)
    requires upTo <= next <= |source| && Piece(w, b, s) == Some(source[upTo..next]) && SegmentSize(s) == next - upTo
    requires Written(b, s, parentId, upTo) && p'.segments == p.segments + [s]
    requires match s case RawChunk(h, size) => exists c: Chunk :: p'.chunks == p.chunks + [c] && c.contentHash == h && c.size == size
                     case ZstdDictPatch(_, _, _, _, _, _, _) => p'.chunks == p.chunks
    ensures Ingested(w, b, source, next, p', parentId)
  {
    hide Piece, Replay, Written, Extends;
    ReplayMonotone(w, a, b, p.segments);
    AllWrittenMonotone(a, b, p.segments, parentId);
    ReplayOneMore(w, b, p.segments, s);
    assert source[..upTo] + source[upTo..next] == source[..next];
    assert (p.segments + [s])[..|p.segments|] == p.segments;
    if s.RawChunk? {
      var c: Chunk :| p'.chunks == p.chunks + [c] && c.contentHash == s.hash && c.size == s.size;
      assert AsManifestChunks(p'.chunks) == AsManifestChunks(p.chunks) + [ManifestChunk(s.hash, s.size)];
    }
  }

  // ---------------------------------------------------------------- the loops

  /** The raw branch: chunk the segment's bytes and upload every chunk the store lacks. */
  method IngestRaw(cas: Store, source: Bytes, start: nat, end: nat, chunking: ChunkingConfig, forced: set<int>, p0: Progress,
                   ghost parentId: string)
    returns (r: Result<Progress, Failure>)
    requires cas.Valid() && cas.w.Sound() && chunking.max > 0 && start <= end <= |source|
    requires Ingested(cas.w, cas.blobs, source, start, p0, parentId)
    modifies cas`blobs
    ensures cas.Valid() && Extends(old(cas.blobs), cas.blobs)
    ensures r.Ok? ==> Ingested(cas.w, cas.blobs, source, end, r.value, parentId)
    ensures r.Ok? ==> var cs := Chunks(cas.w, source[start..end], start, chunking, forced);
                      r.value.chunks == p0.chunks + cs && r.value.segments == p0.segments + RawSegments(cs)
    ensures r.Ok? ==> |cas.blobs| - |old(cas.blobs)| == r.value.uploadedChunks - p0.uploadedChunks
    ensures r.Ok? ==> r.value.uploadedAux == p0.uploadedAux
    ensures cas.healthy ==> r.Ok?
  {
    hide Ingested, Chunks, RangeChunks, Remaining, Extends, Addressed, RawSegments;
    ExtendsReflexive(cas.blobs);
    assert p0.segments + RawSegments([]) == p0.segments by { RawSegmentsNil(); }
    var w := cas.w;
    var segBytes := source[start..end];
    var segForced := set fc | fc in forced && start < fc <= end;
    var cs := IterChunksInRange(w, segBytes, 0, |segBytes|, start, chunking, segForced);
    SegmentCopyRoute(w, source, start, end, chunking, forced);
    assert cs == Chunks(w, segBytes, start, chunking, forced);
    RemainingAtStart(w, cs, source, start, end, chunking, forced);
    var p := p0;
    ghost var at: nat := start;
    for i := 0 to |cs|
      invariant Remaining(w, cs, i, at, source, end)
      invariant cas.Valid() && Extends(old(cas.blobs), cas.blobs)
      invariant Ingested(w, cas.blobs, source, at, p, parentId)
      invariant p.chunks == p0.chunks + cs[..i] && p.segments == p0.segments + RawSegments(cs[..i])
      invariant |cas.blobs| - |old(cas.blobs)| == p.uploadedChunks - p0.uploadedChunks && p.uploadedAux == p0.uploadedAux
    {
      ChunkAt(w, cs, i, at, source, end);
      label Before:
      var next := IngestChunk(cas, source, cs[i], p, parentId);
      ExtendsTransitive(old(cas.blobs), old@Before(cas.blobs), cas.blobs);
      if next.Err? {
        return Err(next.error);
      }
      p := next.value;
      at := at + cs[i].size;
      RawSegmentsStep(cs, i);
    }
    assert cs[..|cs|] == cs;
    RemainingAtEnd(w, cs, at, source, end);
    r := Ok(p);
  }

  lemma RawSegmentsNil()
    ensures RawSegments([]) == []
  {
  }

  lemma RawSegmentsStep(cs: seq<Chunk>, i: nat)
    requires i < |cs|
    ensures cs[..i + 1] == cs[..i] + [cs[i]]
    ensures RawSegments(cs[..i + 1]) == RawSegments(cs[..i]) + [RawChunk(cs[i].contentHash, cs[i].size)]
  {
  }

  /** The chunks from the `i`-th on name the bytes of the segment from `at` on. */
  ghost predicate Remaining(w: World, cs: seq<Chunk>, i: nat, at: nat, source: Bytes, end: nat) {
    i <= |cs| && at <= end <= |source| && Names(w, cs[i..], at, source[at..end])
  }

  lemma RemainingAtStart(w: World, cs: seq<Chunk>, source: Bytes, start: nat, end: nat, chunking: ChunkingConfig, forced: set<int>)
    requires chunking.max > 0 && start <= end <= |source|
    requires cs == Chunks(w, source[start..end], start, chunking, forced)
    ensures Remaining(w, cs, 0, start, source, end)
  {
    hide Chunks, Describes;
    assert cs[0..] == cs;
    ChunksDescribe(w, source[start..end], start, chunking, forced);
    DescribesNames(w, cs, start, source[start..end]);
  }

  lemma RemainingAtEnd(w: World, cs: seq<Chunk>, at: nat, source: Bytes, end: nat)
    requires Remaining(w, cs, |cs|, at, source, end)
    ensures at == end
  {
    assert cs[|cs|..] == [];
    assert |source[at..end]| == end - at;
  }

  lemma ChunkAt(w: World, cs: seq<Chunk>, i: nat, at: nat, source: Bytes, end: nat)
    requires i < |cs| && Remaining(w, cs, i, at, source, end)
    ensures cs[i].offset == at && at + cs[i].size <= end <= |source|
    ensures cs[i].contentHash == w.hash(source[at..at + cs[i].size])
    ensures Remaining(w, cs, i + 1, at + cs[i].size, source, end)
  {
    assert cs[i..][0] == cs[i] && cs[i..][1..] == cs[i + 1..];
    var n := cs[i].size;
    SliceOfSlice(source, at, end, 0, n);
    SliceOfSlice(source, at, end, n, end - at);
  }

  method IngestChunk(cas: Store, source: Bytes, ch: Chunk, p: Progress, ghost parentId: string)
    returns (r: Result<Progress, Failure>)
    requires cas.Valid() && cas.w.Sound() && 0 <= ch.offset && ch.offset + ch.size <= |source|
    requires ch.contentHash == cas.w.hash(source[ch.offset..ch.offset + ch.size])
    requires Ingested(cas.w, cas.blobs, source, ch.offset, p, parentId)
    modifies cas`blobs
    ensures cas.Valid() && Extends(old(cas.blobs), cas.blobs)
    ensures r.Ok? ==> Ingested(cas.w, cas.blobs, source, ch.offset + ch.size, r.value, parentId)
    ensures r.Ok? ==> r.value.chunks == p.chunks + [ch]
                      && r.value.segments == p.segments + [RawChunk(ch.contentHash, ch.size)]
    ensures r.Ok? ==> |cas.blobs| - |old(cas.blobs)| == r.value.uploadedChunks - p.uploadedChunks
    ensures r.Ok? ==> r.value.uploadedAux == p.uploadedAux
    ensures cas.healthy ==> r.Ok?
  {
    hide Ingested, Extends, Addressed, Normalize;
    var body := source[ch.offset..ch.offset + ch.size];
    var up := UploadMissing(cas, body, ch.contentHash);
    if up.Err? {
      return Err(up.error);
    }
    HexIsNormal(ch.contentHash);
    var s := RawChunk(ch.contentHash, ch.size);
    var p' := Progress(p.chunks + [ch], p.segments + [s], p.uploadedChunks + (if up.value then 1 else 0), p.uploadedAux);
    IngestOne(cas.w, old(cas.blobs), cas.blobs, source, ch.offset, ch.offset + ch.size, p, p', parentId, s);
    r := Ok(p');
  }

  /** The patch branch: upload the dictionary and the patch, write one segment. */
  method IngestPatch(cas: Store, source: Bytes, start: nat, end: nat, dict: Bytes, patch: Bytes, parentId: string, p: Progress)
    returns (r: Result<Progress, Failure>)
    requires cas.Valid() && cas.w.Sound() && cas.w.zstdInstalled && start <= end <= |source|
    requires patch == cas.w.compress(dict, source[start..end])
    requires Ingested(cas.w, cas.blobs, source, start, p, parentId)
    modifies cas`blobs
    ensures cas.Valid() && Extends(old(cas.blobs), cas.blobs)
    ensures r.Ok? ==> Ingested(cas.w, cas.blobs, source, end, r.value, parentId)
    ensures r.Ok? ==> r.value.segments == p.segments + [ZstdDictPatch(parentId, start, end, cas.w.hash(dict), cas.w.hash(patch),
                                                                      |patch|, end - start)]
    ensures r.Ok? ==> |cas.blobs| - |old(cas.blobs)| == r.value.uploadedAux - p.uploadedAux
    ensures r.Ok? ==> r.value.uploadedChunks == p.uploadedChunks && r.value.chunks == p.chunks
    ensures cas.healthy ==> r.Ok?
  {
    hide Ingested;
    var w := cas.w;
    var dictHash, patchHash := w.hash(dict), w.hash(patch);
    HexIsNormal(dictHash);
    HexIsNormal(patchHash);
    var up1 := UploadMissing(cas, dict, dictHash);
    if up1.Err? {
      return Err(up1.error);
    }
    var up2 := UploadMissing(cas, patch, patchHash);
    if up2.Err? {
      return Err(up2.error);
    }
    var s := ZstdDictPatch(parentId, start, end, dictHash, patchHash, |patch|, end - start);
    var p' := Progress(p.chunks, p.segments + [s], p.uploadedChunks,
                       p.uploadedAux + (if up1.value then 1 else 0) + (if up2.value then 1 else 0));
    PatchPiece(w, cas.blobs, dict, patch, source[start..end], s);
    IngestOne(w, old(cas.blobs), cas.blobs, source, start, end, p, p', parentId, s);
    r := Ok(p');
  }

  lemma PatchPiece(w: World, blobs: Blobs, dict: Bytes, patch: Bytes, bytes: Bytes, s: ManifestSegment)
    requires w.Sound() && w.zstdInstalled && patch == w.compress(dict, bytes) && Addressed(w, blobs)
    requires s.ZstdDictPatch? && s.dictHash == w.hash(dict) && s.patchHash == w.hash(patch) && s.uncompressedSize == |bytes|
    requires s.dictHash in blobs && s.patchHash in blobs
    ensures Piece(w, blobs, s) == Some(bytes)
  {
    w.SameHash(dict, blobs[s.dictHash]);
    w.SameHash(patch, blobs[s.patchHash]);
    assert w.decompress(dict, w.compress(dict, bytes), Max(1, |bytes|)) == Some(bytes);
  }

  method IngestSegment(cas: Store, source: Bytes, seg: Segment, chunking: ChunkingConfig, forced: set<int>, parentId: string,
                       parentBytes: Option<Bytes>, p: Progress)
    returns (r: Result<Progress, Failure>)
    requires cas.Valid() && cas.w.Sound() && chunking.max > 0 && seg.start <= seg.end <= |source|
    requires Ingested(cas.w, cas.blobs, source, seg.start, p, parentId)
    modifies cas`blobs
    ensures cas.Valid() && Extends(old(cas.blobs), cas.blobs)
    ensures r.Ok? ==> Ingested(cas.w, cas.blobs, source, seg.end, r.value, parentId)
    ensures r.Ok? ==> r.value.segments
                      == p.segments + SegmentPlan(cas.w, source, seg, chunking, forced, parentId, parentBytes)
    ensures r.Ok? ==> |cas.blobs| - |old(cas.blobs)| ==
                        r.value.uploadedChunks + r.value.uploadedAux - p.uploadedChunks - p.uploadedAux
    ensures cas.healthy ==> r.Ok?
  {
    hide Ingested, HighEntropyPatch, ParentSegment, Chunks, RawSegments, Extends, Addressed;
    PatchUsesDictionary(cas.w, source[seg.start..seg.end], ParentSegment(parentBytes, seg.start, seg.end));
    if seg.mode == Low || seg.mode == Middle {
      r := IngestRaw(cas, source, seg.start, seg.end, chunking, forced, p, parentId);
      return;
    }
    var newBytes := source[seg.start..seg.end];
    var payload := HighEntropyPatch(cas.w, newBytes, ParentSegment(parentBytes, seg.start, seg.end));
    if payload.None? {
      r := IngestRaw(cas, source, seg.start, seg.end, chunking, forced, p, parentId);
      return;
    }
    r := IngestPatch(cas, source, seg.start, seg.end, payload.value.0, payload.value.1, parentId, p);
  }

  /** Everything before the manifest: the uploads counted are exactly the blobs the store gained, and
      the segments stand for exactly the source. */
  method IngestSegments(cas: Store, source: Bytes, chunking: ChunkingConfig, entropyCfg: EntropyConfig, forced: set<int>,
                        parentId: string, parentBytes: Option<Bytes>)
    returns (r: Result<Progress, Failure>)
    requires cas.Valid() && cas.w.Sound() && chunking.max > 0 && entropyCfg.windowSize > 0
    modifies cas`blobs
    ensures cas.Valid() && Extends(old(cas.blobs), cas.blobs)
    ensures r.Ok? ==> Ingested(cas.w, cas.blobs, source, |source|, r.value, parentId)
    ensures r.Ok? ==> r.value.segments == Plan(cas.w, source, EntropySegments(cas.w, source, entropyCfg), chunking, forced,
                                               parentId, parentBytes)
    ensures r.Ok? ==> |cas.blobs| - |old(cas.blobs)| == r.value.uploadedChunks + r.value.uploadedAux
    ensures cas.healthy ==> r.Ok?
  {
    hide Covers, EntropySegments, CoarsestPartition, Plan, Extends, Addressed, Ingested;
    ExtendsReflexive(cas.blobs);
    var segments := ScanEntropySegments(cas.w, source, entropyCfg);
    SegmentsCover(cas.w, source, entropyCfg);
    var p := Progress([], [], 0, 0);
    NothingIngested(cas.w, cas.blobs, source, parentId);
    PlanNil(cas.w, source, chunking, forced, parentId, parentBytes);
    ghost var at: nat := 0;
    WholeSlices(segments);
    for i := 0 to |segments|
      invariant at <= |source| && Covers(segments[i..], at, |source|)
      invariant cas.Valid() && Extends(old(cas.blobs), cas.blobs)
      invariant Ingested(cas.w, cas.blobs, source, at, p, parentId)
      invariant p.segments == Plan(cas.w, source, segments[..i], chunking, forced, parentId, parentBytes)
      invariant |cas.blobs| - |old(cas.blobs)| == p.uploadedChunks + p.uploadedAux
    {
      CoverStep(segments, i, at, |source|);
      label Before:
      var next := IngestSegment(cas, source, segments[i], chunking, forced, parentId, parentBytes, p);
      ExtendsTransitive(old(cas.blobs), old@Before(cas.blobs), cas.blobs);
      if next.Err? {
        return Err(next.error);
      }
      p := next.value;
      at := segments[i].end;
      PlanStep(cas.w, source, segments, i, chunking, forced, parentId, parentBytes);
    }
    CoversEnd(segments, at, |source|);
    r := Ok(p);
  }

  lemma CoversEnd(segs: seq<Segment>, at: nat, to: nat)
    requires Covers(segs[|segs|..], at, to)
    ensures at == to
  {
    WholeSlices(segs);
  }

  lemma PlanNil(w: World, source: Bytes, chunking: ChunkingConfig, forced: set<int>, parentId: string,
                parentBytes: Option<Bytes>)
    ensures Plan(w, source, [], chunking, forced, parentId, parentBytes) == []
  {
  }

  lemma PlanStep(w: World, source: Bytes, segs: seq<Segment>, i: nat, chunking: ChunkingConfig, forced: set<int>,
                 parentId: string, parentBytes: Option<Bytes>)
    requires i < |segs|
    ensures Plan(w, source, segs[..i + 1], chunking, forced, parentId, parentBytes)
         == Plan(w, source, segs[..i], chunking, forced, parentId, parentBytes)
            + SegmentPlan(w, source, segs[i], chunking, forced, parentId, parentBytes)
  {
    hide SegmentPlan;
    assert segs[..i + 1][..i] == segs[..i];
  }

  lemma NothingIngested(w: World, blobs: Blobs, source: Bytes, parentId: string)
    ensures Ingested(w, blobs, source, 0, Progress([], [], 0, 0), parentId)
  {
    assert source[..0] == [];
  }

  lemma SegmentsCover(w: World, data: Bytes, cfg: EntropyConfig)
    requires cfg.windowSize > 0
    ensures Covers(EntropySegments(w, data, cfg), 0, |data|)
  {
    ScanIsCoarsest(w, data, cfg);
  }

  lemma CoverStep(segs: seq<Segment>, i: nat, at: nat, to: nat)
    requires i < |segs| && Covers(segs[i..], at, to)
    ensures segs[i].start == at < segs[i].end <= to && Covers(segs[i + 1..], segs[i].end, to)
  {
    assert segs[i..][1..] == segs[i + 1..];
    CoversEmpty(segs[i + 1..], segs[i].end, to);
  }

  function Info(cfg: ChunkingConfig): ChunkingInfo {
    ChunkingInfo(cfg.algo, cfg.avg, cfg.min, cfg.max)
  }

  /** The `omni` metadata block of the manifest. */
  function OmniJson(w: World, cfg: EntropyConfig, canonical: bool, dcc: string, sourceHash: string, sourceSize: nat): Json {
    Obj(map["entropy_thresholds" := Obj(map["low" := w.floatJson(cfg.lowThreshold), "high" := w.floatJson(cfg.highThreshold)]),
            "window_size" := Int(cfg.windowSize), "engine_version" := Str("omni-v2"), "dcc_canonical" := Bool(canonical),
            "dcc" := Str(dcc), "source_blake3" := Str(sourceHash), "source_size_bytes" := Int(sourceSize)])
  }

  const DefaultEntropy := EntropyConfig(16 * 1024, 4.9, 7.2)

  /** The metadata block records the thresholds and window in force, by default 4.9, 7.2 and 16 KiB, and the
      identity of the file on disk, not of its canonical bytes. */
  lemma OmniFields(w: World, entropyCfg: Option<EntropyConfig>, canonical: bool, dcc: string, sourceHash: string, sourceSize: nat)
    ensures var j := OmniJson(w, entropyCfg.GetOr(DefaultEntropy), canonical, dcc, sourceHash, sourceSize);
            && j.Obj?
            && Get(j.fields, "entropy_thresholds").Obj?
            && var t := Get(j.fields, "entropy_thresholds").fields;
               && Get(t, "low") == w.floatJson(if entropyCfg.Some? then entropyCfg.value.lowThreshold else 4.9)
               && Get(t, "high") == w.floatJson(if entropyCfg.Some? then entropyCfg.value.highThreshold else 7.2)
               && Get(j.fields, "window_size") == Int(if entropyCfg.Some? then entropyCfg.value.windowSize else 16384)
               && Get(j.fields, "engine_version") == Str("omni-v2") && Get(j.fields, "dcc_canonical") == Bool(canonical)
               && Get(j.fields, "dcc") == Str(dcc) && Get(j.fields, "source_blake3") == Str(sourceHash)
               && Get(j.fields, "source_size_bytes") == Int(sourceSize)
  {
  }

  /** What a finished ingest has left in the store for `source`. */
  ghost predicate Stored(w: World, blobs: Blobs, source: Bytes, filename: string, chunking: ChunkingConfig, parentId: string,
                         o: OmniIngestResult)
  {
    && o.wholeFile == w.hash(source)
    && Ingested(w, blobs, source, |source|, Progress(o.chunks, o.segments, o.uploadedChunks, o.uploadedAuxBlobs), parentId)
    && o.manifestId == w.hash(o.manifestBytes)
    && o.manifestId in blobs && blobs[o.manifestId] == o.manifestBytes
    && exists omni: Json :: w.Printable(omni) && o.manifestBytes
                      == w.encode(BuildV3(filename, |source|, o.wholeFile, Info(chunking), o.segments, Some(omni)))
  }

  lemma OmniPrints(w: World, cfg: EntropyConfig, canonical: bool, dcc: string, sourceHash: string, sourceSize: nat)
    requires w.JsonRoundTrips()
    ensures w.Printable(OmniJson(w, cfg, canonical, dcc, sourceHash, sourceSize))
  {
    var thresholds := Obj(map["low" := w.floatJson(cfg.lowThreshold), "high" := w.floatJson(cfg.highThreshold)]);
    assert w.Printable(thresholds);
  }

  method IngestOmniFile(cas: Store, whole: Bytes, filename: string, chunking: ChunkingConfig, entropyCfg: Option<EntropyConfig>,
                        parentContentId: Option<string>, parentBytes: Option<Bytes>, canonical: Option<Bytes>, dcc: string,
                        forcedCuts: set<int>)
    returns (r: Result<OmniIngestResult, Failure>)
    requires cas.Valid() && cas.w.Sound() && chunking.max > 0 && entropyCfg.GetOr(DefaultEntropy).windowSize > 0
    modifies cas`blobs
    ensures cas.Valid() && Extends(old(cas.blobs), cas.blobs)
    ensures r.Ok? ==> Stored(cas.w, cas.blobs, canonical.GetOr(whole), filename, chunking,
                             Normalize(parentContentId.GetOr("")), r.value)
    ensures r.Ok? ==> r.value.segments
                      == Plan(cas.w, canonical.GetOr(whole),
                              EntropySegments(cas.w, canonical.GetOr(whole), entropyCfg.GetOr(DefaultEntropy)), chunking,
                              forcedCuts, Normalize(parentContentId.GetOr("")), parentBytes)
    ensures r.Ok? ==> r.value.dccCanonical == canonical.Some?
    ensures r.Ok? ==>
              r.value.manifestBytes
              == cas.w.encode(BuildV3(filename, |canonical.GetOr(whole)|, r.value.wholeFile, Info(chunking), r.value.segments,
                                      Some(OmniJson(cas.w, entropyCfg.GetOr(DefaultEntropy), canonical.Some?, dcc,
                                                    cas.w.hash(whole), |whole|))))
    ensures r.Ok? ==> 0 <= |cas.blobs| - |old(cas.blobs)| - (r.value.uploadedChunks + r.value.uploadedAuxBlobs) <= 1
    ensures cas.healthy ==> r.Ok?
  {
    hide Ingested, Normalize, Plan, OmniJson;
    var w := cas.w;
    var source := canonical.GetOr(whole);
    var cfg := entropyCfg.GetOr(DefaultEntropy);
    var wholeFile := w.hash(source);
    var parentId := Normalize(parentContentId.GetOr(""));
    var done := IngestSegments(cas, source, chunking, cfg, forcedCuts, parentId, parentBytes);
    if done.Err? {
      return Err(done.error);
    }
    var p := done.value;
    var omni := OmniJson(w, cfg, canonical.Some?, dcc, w.hash(whole), |whole|);
    OmniPrints(w, cfg, canonical.Some?, dcc, w.hash(whole), |whole|);
    var manifestBytes := w.encode(BuildV3(filename, |source|, wholeFile, Info(chunking), p.segments, Some(omni)));
    var mid := w.hash(manifestBytes);
    label Before:
    var up := UploadMissing(cas, manifestBytes, mid);
    if up.Err? {
      return Err(up.error);
    }
    IngestedMonotone(w, old@Before(cas.blobs), cas.blobs, source, |source|, p, parentId);
    r := Ok(OmniIngestResult(mid, manifestBytes, wholeFile, p.chunks, p.uploadedChunks, p.uploadedAux, p.segments,
                             canonical.Some?));
  }

  lemma IngestedMonotone(w: World, a: Blobs, b: Blobs, source: Bytes, upTo: nat, p: Progress, parentId: string)
    requires Ingested(w, a, source, upTo, p, parentId) && Extends(a, b)
    ensures Ingested(w, b, source, upTo, p, parentId)
  {
    ReplayMonotone(w, a, b, p.segments);
    AllWrittenMonotone(a, b, p.segments, parentId);
  }

  // ---------------------------------------------------------------- materializing what was ingested

  lemma WrittenPiece(w: World, blobs: Blobs, s: ManifestSegment, parentId: string, at: int)
    requires Written(blobs, s, parentId, at)
    ensures PieceOfJson(w, blobs, SegmentJson(s)) == Piece(w, blobs, s)
  {
    hide Normalize;
    KindsAreIds();
    if s.ZstdDictPatch? { PatchPieceOfJson(w, blobs, s); }
  }

  lemma PatchPieceOfJson(w: World, blobs: Blobs, s: ManifestSegment)
    requires s.ZstdDictPatch? && IsId(s.dictHash) && IsId(s.patchHash)
    ensures PieceOfJson(w, blobs, SegmentJson(s)) == Piece(w, blobs, s)
  {
    hide Normalize;
    KindsAreIds();
    PatchFields(s);
    hide SegmentJson, Get;
  }

  lemma {:induction false} WrittenReplay(w: World, blobs: Blobs, ss: seq<ManifestSegment>, parentId: string)
    requires AllWritten(blobs, ss, parentId)
    ensures ReplayJson(w, blobs, SegmentsJson(ss).items) == Replay(w, blobs, ss)
  {
    hide PieceOfJson, Piece, SegmentJson, Written;
    if ss != [] {
      var init, last := ss[..|ss| - 1], ss[|ss| - 1];
      assert SegmentsJson(ss).items[..|ss| - 1] == SegmentsJson(init).items;
      WrittenReplay(w, blobs, init, parentId);
      WrittenPiece(w, blobs, last, parentId, TotalSize(init));
    }
  }

  /** The inverse law: the stored manifest is one the streaming materializer accepts, and replaying its
      segments against the store gives exactly the ingested bytes, for every segmentation, every set of
      forced cuts and every choice of patch or fallback, with or without a parent id. */
  lemma IngestedMaterializes(w: World, blobs: Blobs, source: Bytes, filename: string, chunking: ChunkingConfig,
                             parentId: string, o: OmniIngestResult)
    requires w.Sound() && Stored(w, blobs, source, filename, chunking, parentId, o)
    ensures o.manifestId in blobs
    ensures var data := w.decode(blobs[o.manifestId]);
            && data.Some? && data.value.Obj? && IsV3(w, data.value.fields)
            && var list := ListOr(Get(data.value.fields, "segments"));
               list.Some? && ReplayJson(w, blobs, list.value) == Some(source)
  {
    hide BuildV3, Replay, ReplayJson, AllWritten, SegmentsJson, Normalize, Get, TotalSize;
    var omni: Json :| w.Printable(omni) && o.manifestBytes
                      == w.encode(BuildV3(filename, |source|, o.wholeFile, Info(chunking), o.segments, Some(omni)));
    var document := BuildV3(filename, |source|, o.wholeFile, Info(chunking), o.segments, Some(omni));
    V3Encodes(w, filename, |source|, o.wholeFile, Info(chunking), o.segments, omni);
    V3Fields(filename, |source|, o.wholeFile, Info(chunking), o.segments, Some(omni));
    SchemaIsId();
    SchemaText(w, document);
    ListOrArr(SegmentsJson(o.segments));
    WrittenReplay(w, blobs, o.segments, parentId);
    WholeSlices(source);
  }
}
