/** Content-defined chunking (zeno_client/chunking.py): the specification functions, and the file
    loops proved against them. */
module Chunking {
  import opened Base
  import opened Bits
  import opened Worlds

  datatype ChunkingConfig = ChunkingConfig(algo: string, avg: int, min: nat, max: nat)

  datatype Chunk = Chunk(offset: int, size: nat, contentHash: string)

  // ---------------------------------------------------------------- one cut

  /** One step of the rolling 64-bit gear hash. */
  function Roll(w: World, h: nat, b: byte): nat {
    BitAnd(2 * h + w.gear(b), U64)
  }

  function GearHash(w: World, s: Bytes): nat {
    if s == [] then 0 else Roll(w, GearHash(w, s[..|s| - 1]), s[|s| - 1])
  }

  function Mid(n: nat, cfg: ChunkingConfig): nat {
    Min(n, (cfg.min + cfg.max) / 2)
  }

  /** Whether the hash started at `cfg.min` vanishes under the mask in force when the cut would be `c`. */
  predicate NaturalCut(w: World, buf: Bytes, cfg: ChunkingConfig, c: nat) {
    && cfg.min < c <= |buf|
    && var masks := NormalizeMasks(cfg.avg);
       BitAnd(GearHash(w, buf[cfg.min..c]), if c <= Mid(|buf|, cfg) then masks.0 else masks.1) == 0
  }

  /** The first natural cut at `c` or later, and the buffer's length when there is none. */
  function NaturalScan(w: World, buf: Bytes, cfg: ChunkingConfig, c: nat): (r: nat)
    ensures Min(c, |buf|) <= r <= |buf|
    decreases |buf| - c
  {
    if c >= |buf| then |buf|
    else if NaturalCut(w, buf, cfg, c) then c
    else NaturalScan(w, buf, cfg, c + 1)
  }

  function ForcedCandidates(n: nat, cfg: ChunkingConfig, forced: set<int>): set<int> {
    set c | c in forced && cfg.min <= c <= n
  }

  predicate ForcedApplies(n: nat, cfg: ChunkingConfig, forced: set<int>) {
    var cs := ForcedCandidates(n, cfg, forced);
    cs != {} && MinOf(cs) > 0
  }

  /** What `_find_cut` returns. */
  function Cut(w: World, buf: Bytes, cfg: ChunkingConfig, forced: set<int>): (cut: nat)
    ensures Min(|buf|, Max(1, cfg.min)) <= cut <= |buf|
  {
    if |buf| <= cfg.min then |buf|
    else if ForcedApplies(|buf|, cfg, forced) then MinOf(ForcedCandidates(|buf|, cfg, forced))
    else NaturalScan(w, buf, cfg, cfg.min + 1)
  }

  method FindCut(w: World, buf: Bytes, cfg: ChunkingConfig, forced: set<int>) returns (cut: nat)
    requires |buf| <= cfg.max
    ensures cut == Cut(w, buf, cfg, forced)
  {
    var masks := NormalizeMasks(cfg.avg);
    var n := |buf|;
    if n <= cfg.min {
      return n;
    }
    var mid := Mid(n, cfg);
    var candidates := ForcedCandidates(n, cfg, forced);
    if candidates != {} {
      var forcedCut := MinOf(candidates);
      if forcedCut > 0 {
        return forcedCut;
      }
    }
    // Phase 1: min..mid with mask_small; phase 2: mid..n with mask_large.
    var h := 0;
    h, cut := ScanPhase(w, buf, cfg, cfg.min, mid, h, masks.0);
    if cut > 0 {
      return cut;
    }
    h, cut := ScanPhase(w, buf, cfg, mid, n, h, masks.1);
    if cut > 0 {
      return cut;
    }
    return n;
  }

  /** One phase of the scan: rolls the hash over `buf[lo..hi]` and stops at the first natural cut, 0 for none. */
  method ScanPhase(w: World, buf: Bytes, cfg: ChunkingConfig, lo: nat, hi: nat, h0: nat, mask: nat)
    returns (h: nat, cut: nat)
    requires cfg.min <= lo <= hi <= |buf|
    requires h0 == GearHash(w, buf[cfg.min..lo])
    requires forall c :: lo < c <= hi ==>
               (NaturalCut(w, buf, cfg, c) <==> BitAnd(GearHash(w, buf[cfg.min..c]), mask) == 0)
    ensures cut > 0 ==> lo < cut <= hi && cut == NaturalScan(w, buf, cfg, lo + 1)
    ensures cut == 0 ==> h == GearHash(w, buf[cfg.min..hi])
    ensures cut == 0 ==> NaturalScan(w, buf, cfg, lo + 1) == NaturalScan(w, buf, cfg, hi + 1)
  {
    hide BitAnd, GearHash, NormalizeMasks;
    h := h0;
    for i := lo to hi
      invariant h == GearHash(w, buf[cfg.min..i])
      invariant NaturalScan(w, buf, cfg, lo + 1) == NaturalScan(w, buf, cfg, i + 1)
    {
      HashOneMore(w, buf, cfg.min, i);
      h := Roll(w, h, buf[i]);
      if BitAnd(h, mask) == 0 {
        return h, i + 1;
      }
    }
    cut := 0;
  }

  lemma HashOneMore(w: World, buf: Bytes, lo: nat, i: nat)
    requires lo <= i < |buf|
    ensures GearHash(w, buf[lo..i + 1]) == Roll(w, GearHash(w, buf[lo..i]), buf[i])
  {
    var s := buf[lo..i + 1];
    assert s[..|s| - 1] == buf[lo..i] && s[|s| - 1] == buf[i];
  }

  // ---------------------------------------------------------------- all cuts

  /** The forced cuts that fall in the window of `n` bytes after absolute offset `at`, made relative to it. */
  function Window(forced: set<int>, at: int, n: nat): set<int> {
    set fc | fc in forced && at < fc <= at + n :: fc - at
  }

  /** The buffer read when `bytes` are left in the range. */
  function Buffer(bytes: Bytes, cfg: ChunkingConfig): (buf: Bytes)
    ensures |buf| <= cfg.max
  {
    bytes[..Min(cfg.max, |bytes|)]
  }

  /** The size of the first chunk of `bytes`, which lie at absolute offset `at`. */
  function FirstCut(w: World, bytes: Bytes, at: int, cfg: ChunkingConfig, forced: set<int>): (cut: nat)
    ensures Min(Min(cfg.max, |bytes|), Max(1, cfg.min)) <= cut <= Min(cfg.max, |bytes|)
  {
    var buf := Buffer(bytes, cfg);
    Cut(w, buf, cfg, Window(forced, at, |buf|))
  }

  /** The chunks of `bytes`, which lie at absolute offset `at`. With `cfg.max == 0` every read is
      empty and the loop stops at once. */
  function Chunks(w: World, bytes: Bytes, at: int, cfg: ChunkingConfig, forced: set<int>): seq<Chunk>
    decreases |bytes|
  {
    if bytes == [] || cfg.max == 0 then []
    else
      var cut := FirstCut(w, bytes, at, cfg, forced);
      [Chunk(at, cut, w.hash(bytes[..cut]))] + Chunks(w, bytes[cut..], at + cut, cfg, forced)
  }

  /** `iter_chunks`: an empty file is one empty chunk. */
  function FileChunks(w: World, data: Bytes, cfg: ChunkingConfig, forced: set<int>): seq<Chunk> {
    if data == [] then [Chunk(0, 0, w.hash([]))] else Chunks(w, data, 0, cfg, forced)
  }

  /** `iter_chunks_in_range`: nothing for an empty or out-of-file range; a negative start is moved to 0. */
  function RangeChunks(w: World, data: Bytes, start: int, length: int, base: int, cfg: ChunkingConfig, forced: set<int>)
    : seq<Chunk>
  {
    if length <= 0 || start >= |data| then []
    else
      var from := Max(0, start);
      Chunks(w, data[from..Max(from, Min(|data|, from + length))], from + base, cfg, forced)
  }

  // ---------------------------------------------------------------- the file loops

  /** A binary file open for reading. */
  class ByteFile {
    const data: Bytes
    var pos: nat

    constructor (data: Bytes)
      ensures this.data == data && pos == 0
    {
      this.data := data;
      pos := 0;
    }

    method Read(n: nat) returns (buf: Bytes)
      modifies this
      ensures buf == if old(pos) <= |data| then data[old(pos)..Min(old(pos) + n, |data|)] else []
      ensures pos == old(pos) + |buf|
    {
      buf := if pos <= |data| then data[pos..Min(pos + n, |data|)] else [];
      pos := pos + |buf|;
    }

    method Seek(target: nat)
      modifies this
      ensures pos == target
    {
      pos := target;
    }

    method SeekBack(n: nat)
      requires n <= pos
      modifies this
      ensures pos == old(pos) - n
    {
      pos := pos - n;
    }
  }

  /** The loop shared by both iterators: read up to `max` bytes, cut, hash, seek back over the unread tail. */
  method ChunkLoop(w: World, f: ByteFile, start: nat, end: nat, base: int, cfg: ChunkingConfig, forced: set<int>)
    returns (chunks: seq<Chunk>)
    requires start <= end <= |f.data| && f.pos == start
    modifies f
    ensures chunks == Chunks(w, f.data[start..end], start + base, cfg, forced)
  {
    hide Cut, Window, Chunks;
    var offset := start;
    chunks := [];
    while offset < end
      invariant start <= offset <= end && f.pos == offset
      invariant Chunks(w, f.data[start..end], start + base, cfg, forced)
             == chunks + Chunks(w, f.data[offset..end], offset + base, cfg, forced)
    {
      var buf := f.Read(Min(cfg.max, end - offset));
      if buf == [] {
        break;
      }
      var cut := FindCut(w, buf, cfg, Window(forced, offset + base, |buf|));
      ChunksUnfold(w, f.data, offset, end, base, cfg, forced, buf, chunks);
      chunks := chunks + [Chunk(offset + base, cut, w.hash(buf[..cut]))];
      var tail := |buf| - cut;
      if tail > 0 {
        f.SeekBack(tail);
      }
      offset := offset + cut;
    }
    ChunksEnd(w, f.data[offset..end], offset + base, cfg, forced);
  }

  lemma ChunksEnd(w: World, bytes: Bytes, at: int, cfg: ChunkingConfig, forced: set<int>)
    requires bytes == [] || cfg.max == 0
    ensures Chunks(w, bytes, at, cfg, forced) == []
  {
  }

  lemma ChunksUnfold(w: World, data: Bytes, offset: nat, end: nat, base: int, cfg: ChunkingConfig, forced: set<int>,
                     buf: Bytes, done: seq<Chunk>)
    requires offset < end <= |data| && cfg.max > 0
    requires buf == data[offset..Min(offset + Min(cfg.max, end - offset), |data|)]
    ensures var cut := Cut(w, buf, cfg, Window(forced, offset + base, |buf|));
            && 1 <= cut
            && done + Chunks(w, data[offset..end], offset + base, cfg, forced)
               == done + [Chunk(offset + base, cut, w.hash(buf[..cut]))]
                  + Chunks(w, data[offset + cut..end], offset + cut + base, cfg, forced)
  {
    hide Cut, Window, Chunks;
    var bytes := data[offset..end];
    SliceOfSlice(data, offset, end, 0, Min(cfg.max, end - offset));
    assert buf == Buffer(bytes, cfg);
    var cut := Cut(w, buf, cfg, Window(forced, offset + base, |buf|));
    SliceOfSlice(data, offset, end, cut, end - offset);
    SliceOfSlice(data, offset, end, 0, cut);
    assert buf[..cut] == bytes[..cut];
    ChunksHead(w, bytes, offset + base, cfg, forced);
  }

  lemma ChunksHead(w: World, bytes: Bytes, at: int, cfg: ChunkingConfig, forced: set<int>)
    requires bytes != [] && cfg.max > 0
    ensures var cut := FirstCut(w, bytes, at, cfg, forced);
            Chunks(w, bytes, at, cfg, forced)
            == [Chunk(at, cut, w.hash(bytes[..cut]))] + Chunks(w, bytes[cut..], at + cut, cfg, forced)
  {
  }

  method IterChunks(w: World, data: Bytes, cfg: ChunkingConfig, forced: set<int>) returns (chunks: seq<Chunk>)
    ensures chunks == FileChunks(w, data, cfg, forced)
  {
    if |data| == 0 {
      return [Chunk(0, 0, w.hash([]))];
    }
    var f := new ByteFile(data);
    assert data[0..|data|] == data;
    hide Chunks;
    chunks := ChunkLoop(w, f, 0, |data|, 0, cfg, forced);
  }

  lemma RangeUnfold(w: World, data: Bytes, start: int, length: int, base: int, cfg: ChunkingConfig, forced: set<int>)
    ensures length <= 0 || start >= |data| ==> RangeChunks(w, data, start, length, base, cfg, forced) == []
    ensures length > 0 && start < |data| ==>
              var from := Max(0, start);
              var end := Min(|data|, from + length);
              && from <= end
              && RangeChunks(w, data, start, length, base, cfg, forced) == Chunks(w, data[from..end], from + base, cfg, forced)
  {
    hide Chunks;
  }

  method IterChunksInRange(w: World, data: Bytes, start: int, length: int, base: int, cfg: ChunkingConfig, forced: set<int>)
    returns (chunks: seq<Chunk>)
    ensures chunks == RangeChunks(w, data, start, length, base, cfg, forced)
  {
    hide Chunks, RangeChunks;
    RangeUnfold(w, data, start, length, base, cfg, forced);
    if length <= 0 || start >= |data| {
      return [];
    }
    var from := Max(0, start);
    var f := new ByteFile(data);
    f.Seek(from);
    chunks := ChunkLoop(w, f, from, Min(|data|, from + length), base, cfg, forced);
  }
}
