/** What the chunker promises: the chunks describe the file, cuts depend only on nearby bytes, equal
    suffixes re-synchronise, forced cuts are obeyed, and the three chunking routes agree. */
module ChunkingTheory {
  import opened Base
  import opened Bits
  import opened Worlds
  import opened Chunking

  // ---------------------------------------------------------------- tiling

  /** The chunks lie end to end from offset `at`, are non-empty, and name exactly the bytes they cover. */
  predicate Describes(w: World, cs: seq<Chunk>, at: int, bytes: Bytes)
    decreases cs
  {
    if cs == [] then bytes == []
    else
      && cs[0].offset == at
      && 0 < cs[0].size <= |bytes|
      && cs[0].contentHash == w.hash(bytes[..cs[0].size])
      && Describes(w, cs[1..], at + cs[0].size, bytes[cs[0].size..])
  }

  /** Chunks tile the range with no gap or overlap exactly when the loop can read at all. */
  lemma {:induction false} ChunksDescribe(w: World, bytes: Bytes, at: int, cfg: ChunkingConfig, forced: set<int>)
    ensures Describes(w, Chunks(w, bytes, at, cfg, forced), at, bytes) <==> (cfg.max > 0 || bytes == [])
    decreases |bytes|
  {
    hide FirstCut, Chunks, Describes;
    if bytes == [] || cfg.max == 0 {
      ChunksEnd(w, bytes, at, cfg, forced);
      DescribesNil(w, at, bytes);
    } else {
      var cut := FirstCut(w, bytes, at, cfg, forced);
      ChunksHead(w, bytes, at, cfg, forced);
      ChunksDescribe(w, bytes[cut..], at + cut, cfg, forced);
      DescribesCons(w, Chunk(at, cut, w.hash(bytes[..cut])), Chunks(w, bytes[cut..], at + cut, cfg, forced), at, bytes);
    }
  }

  lemma DescribesNil(w: World, at: int, bytes: Bytes)
    ensures Describes(w, [], at, bytes) <==> bytes == []
  {
  }

  lemma DescribesCons(w: World, c: Chunk, rest: seq<Chunk>, at: int, bytes: Bytes)
    ensures Describes(w, [c] + rest, at, bytes)
       <==> (&& c.offset == at && 0 < c.size <= |bytes| && c.contentHash == w.hash(bytes[..c.size])
             && Describes(w, rest, at + c.size, bytes[c.size..]))
  {
    assert ([c] + rest)[1..] == rest;
  }

  /** Like `Describes`, but chunks may be empty. */
  predicate Names(w: World, cs: seq<Chunk>, at: int, bytes: Bytes)
    decreases cs
  {
    if cs == [] then bytes == []
    else
      && cs[0].offset == at && cs[0].size <= |bytes|
      && cs[0].contentHash == w.hash(bytes[..cs[0].size])
      && Names(w, cs[1..], at + cs[0].size, bytes[cs[0].size..])
  }

  lemma {:induction false} DescribesNames(w: World, cs: seq<Chunk>, at: int, bytes: Bytes)
    requires Describes(w, cs, at, bytes)
    ensures Names(w, cs, at, bytes)
    decreases cs
  {
    if cs != [] {
      DescribesNames(w, cs[1..], at + cs[0].size, bytes[cs[0].size..]);
    }
  }

  /** The chunks of a whole file name all of it, the single empty chunk of an empty file included. */
  lemma FileChunksName(w: World, data: Bytes, cfg: ChunkingConfig, forced: set<int>)
    requires cfg.max > 0
    ensures Names(w, FileChunks(w, data, cfg, forced), 0, data)
  {
    hide Chunks, Describes;
    if data == [] {
      var c := Chunk(0, 0, w.hash([]));
      assert [c][1..] == [] && data[..0] == [] && data[0..] == [];
    } else {
      ChunksDescribe(w, data, 0, cfg, forced);
      DescribesNames(w, Chunks(w, data, 0, cfg, forced), 0, data);
    }
  }

  /** Every chunk but the last has a size in [lo, hi], the last in [1, hi]. */
  predicate SizesWithin(cs: seq<Chunk>, lo: nat, hi: nat) {
    forall i :: 0 <= i < |cs| ==> 1 <= cs[i].size <= hi && (i < |cs| - 1 ==> lo <= cs[i].size)
  }

  lemma {:induction false} ChunkSizes(w: World, bytes: Bytes, at: int, cfg: ChunkingConfig, forced: set<int>)
    ensures SizesWithin(Chunks(w, bytes, at, cfg, forced), Max(1, Min(cfg.min, cfg.max)), cfg.max)
    decreases |bytes|
  {
    hide FirstCut, Chunks;
    if bytes == [] || cfg.max == 0 {
      ChunksEnd(w, bytes, at, cfg, forced);
    } else {
      var cut := FirstCut(w, bytes, at, cfg, forced);
      ChunksHead(w, bytes, at, cfg, forced);
      ChunkSizes(w, bytes[cut..], at + cut, cfg, forced);
      var rest, cs := Chunks(w, bytes[cut..], at + cut, cfg, forced), Chunks(w, bytes, at, cfg, forced);
      if cut == |bytes| {
        ChunksEnd(w, bytes[cut..], at + cut, cfg, forced);
      }
      assert forall i :: 0 < i < |cs| ==> cs[i] == rest[i - 1];
    }
  }

  function Ceil(a: nat, b: nat): nat
    requires b > 0
  {
    (a + b - 1) / b
  }

  /** A non-empty range of N bytes yields between ceil(N/max) and ceil(N/lo) chunks. */
  lemma ChunkCount(w: World, bytes: Bytes, at: int, cfg: ChunkingConfig, forced: set<int>)
    requires bytes != [] && cfg.max > 0
    ensures var n := |Chunks(w, bytes, at, cfg, forced)|;
            Ceil(|bytes|, cfg.max) <= n <= Ceil(|bytes|, Max(1, Min(cfg.min, cfg.max)))
  {
    ChunksDescribe(w, bytes, at, cfg, forced);
    ChunkSizes(w, bytes, at, cfg, forced);
    var cs := Chunks(w, bytes, at, cfg, forced);
    var lo := Max(1, Min(cfg.min, cfg.max));
    hide Chunks, Describes, SizesWithin, Ceil;
    CountFromSizes(w, cs, at, bytes, lo, cfg.max);
    CeilBounds(|bytes|, cfg.max, |cs|);
    CeilBounds(|bytes|, lo, |cs|);
  }

  lemma {:induction false} CountFromSizes(w: World, cs: seq<Chunk>, at: int, bytes: Bytes, lo: nat, hi: nat)
    requires Describes(w, cs, at, bytes) && SizesWithin(cs, lo, hi) && bytes != []
    ensures cs != []
    ensures |bytes| <= |cs| * hi
    ensures (|cs| - 1) * lo < |bytes|
    decreases cs
  {
    hide SizesWithin;
    var rest, more := bytes[cs[0].size..], cs[1..];
    assert Describes(w, more, at + cs[0].size, rest);
    SizesTail(cs, lo, hi);
    if rest == [] {
      assert more == [];
    } else {
      CountFromSizes(w, more, at + cs[0].size, rest, lo, hi);
    }
    hide Describes;
    OneMore(|more|, hi);
    OneMore(|more| - 1, lo);
  }

  lemma SizesTail(cs: seq<Chunk>, lo: nat, hi: nat)
    requires SizesWithin(cs, lo, hi) && cs != []
    ensures SizesWithin(cs[1..], lo, hi) && cs[0].size <= hi && (|cs| > 1 ==> lo <= cs[0].size)
  {
    assert forall i :: 0 <= i < |cs[1..]| ==> cs[1..][i] == cs[i + 1];
  }

  lemma OneMore(n: int, b: nat)
    ensures (n + 1) * b == n * b + b
  {
  }

  lemma CeilBounds(n: nat, b: nat, m: nat)
    requires b > 0 && m > 0
    ensures n <= m * b ==> Ceil(n, b) <= m
    ensures (m - 1) * b < n ==> m <= Ceil(n, b)
  {
    var q, r := (n + b - 1) / b, (n + b - 1) % b;
    assert n + b - 1 == q * b + r;
    MulGrows(q - m, b);
    MulGrows(m - q, b);
    assert (q - m) * b == q * b - m * b;
    assert (m - q) * b == m * b - q * b;
    assert (m - 1) * b == m * b - b;
  }

  // ---------------------------------------------------------------- displacement

  function Displace(cs: seq<Chunk>, delta: int): seq<Chunk> {
    if cs == [] then [] else [cs[0].(offset := cs[0].offset + delta)] + Displace(cs[1..], delta)
  }

  /** Two forced-cut sets agree on the `n` positions after `at1` and `at2`. */
  ghost predicate SameForced(f1: set<int>, at1: int, f2: set<int>, at2: int, n: nat) {
    Window(f1, at1, n) == Window(f2, at2, n)
  }

  lemma SameForcedPart(f1: set<int>, at1: int, f2: set<int>, at2: int, n: nat, c: nat, m: nat)
    requires SameForced(f1, at1, f2, at2, n) && c + m <= n
    ensures SameForced(f1, at1 + c, f2, at2 + c, m)
  {
    var part1, part2 := Window(f1, at1 + c, m), Window(f2, at2 + c, m);
    forall x
      ensures x in part1 <==> x in part2
    {
      WindowMember(f1, at1, n, c + x);
      WindowMember(f2, at2, n, c + x);
      WindowMember(f1, at1 + c, m, x);
      WindowMember(f2, at2 + c, m, x);
    }
  }

  lemma WindowMember(f: set<int>, at: int, n: nat, x: int)
    ensures x in Window(f, at, n) <==> 0 < x <= n && at + x in f
  {
    if 0 < x <= n && at + x in f {
      assert (at + x) - at == x;
    }
  }

  /** Chunking depends only on the bytes of the range and the forced cuts inside it: moving the range
      moves the chunks. */
  lemma {:induction false} ChunksMove(w: World, bytes: Bytes, cfg: ChunkingConfig, at1: int, f1: set<int>, at2: int, f2: set<int>)
    requires SameForced(f1, at1, f2, at2, |bytes|)
    ensures Chunks(w, bytes, at1, cfg, f1) == Displace(Chunks(w, bytes, at2, cfg, f2), at1 - at2)
    decreases |bytes|
  {
    hide FirstCut, SameForced, Chunks, Displace;
    if bytes != [] && cfg.max > 0 {
      var cut := FirstCut(w, bytes, at1, cfg, f1);
      SameFirstCut(w, bytes, cfg, at1, f1, at2, f2);
      SameForcedPart(f1, at1, f2, at2, |bytes|, cut, |bytes| - cut);
      ChunksHead(w, bytes, at1, cfg, f1);
      ChunksHead(w, bytes, at2, cfg, f2);
      ChunksMove(w, bytes[cut..], cfg, at1 + cut, f1, at2 + cut, f2);
      DisplaceCons(Chunk(at2, cut, w.hash(bytes[..cut])), Chunks(w, bytes[cut..], at2 + cut, cfg, f2), at1 - at2);
    } else {
      ChunksEnd(w, bytes, at1, cfg, f1);
      ChunksEnd(w, bytes, at2, cfg, f2);
      DisplaceNil(at1 - at2);
    }
  }

  lemma DisplaceNil(delta: int)
    ensures Displace([], delta) == []
  {
  }

  lemma DisplaceCons(c: Chunk, rest: seq<Chunk>, delta: int)
    ensures Displace([c] + rest, delta) == [c.(offset := c.offset + delta)] + Displace(rest, delta)
  {
    assert ([c] + rest)[1..] == rest;
  }

  lemma SameFirstCut(w: World, bytes: Bytes, cfg: ChunkingConfig, at1: int, f1: set<int>, at2: int, f2: set<int>)
    requires SameForced(f1, at1, f2, at2, |bytes|)
    ensures FirstCut(w, bytes, at1, cfg, f1) == FirstCut(w, bytes, at2, cfg, f2)
  {
    SameForcedPart(f1, at1, f2, at2, |bytes|, 0, |Buffer(bytes, cfg)|);
    hide Cut, Window;
  }

  // ---------------------------------------------------------------- the three routes

  lemma {:induction false} DisplaceZero(cs: seq<Chunk>)
    ensures Displace(cs, 0) == cs
  {
    if cs != [] { DisplaceZero(cs[1..]); }
  }

  /** On a non-empty file `iter_chunks` is `iter_chunks_in_range` over the whole file; on an empty one it is not. */
  lemma WholeFileIsRange(w: World, data: Bytes, cfg: ChunkingConfig, forced: set<int>)
    ensures FileChunks(w, data, cfg, forced) == RangeChunks(w, data, 0, |data|, 0, cfg, forced) <==> data != []
  {
    assert data[0..|data|] == data;
  }

  /** Chunking a copy of `data[start..end]` with `base_offset=start`, and with the forced cuts first
      filtered to the segment, is chunking that range of the original file in place. */
  lemma SegmentCopyRoute(w: World, data: Bytes, start: nat, end: nat, cfg: ChunkingConfig, forced: set<int>)
    requires start <= end <= |data|
    ensures var inSegment := set fc | fc in forced && start < fc <= end;
            RangeChunks(w, data[start..end], 0, end - start, start, cfg, inSegment)
            == RangeChunks(w, data, start, end - start, 0, cfg, forced)
            == Chunks(w, data[start..end], start, cfg, forced)
  {
    hide Chunks, Window, SameForced;
    var inSegment := set fc | fc in forced && start < fc <= end;
    var seg := data[start..end];
    assert seg[0..|seg|] == seg;
    ChunksEnd(w, [], start, cfg, forced);
    ChunksEnd(w, [], start, cfg, inSegment);
    FilterKeepsWindow(forced, start, end);
    ChunksMove(w, seg, cfg, start, inSegment, start, forced);
    DisplaceZero(Chunks(w, seg, start, cfg, forced));
  }

  lemma FilterKeepsWindow(forced: set<int>, start: nat, end: nat)
    requires start <= end
    ensures SameForced((set fc | fc in forced && start < fc <= end), start, forced, start, end - start)
  {
    hide Window;
    var inSegment := set fc | fc in forced && start < fc <= end;
    var n := end - start;
    forall x
      ensures x in Window(inSegment, start, n) <==> x in Window(forced, start, n)
    {
      WindowMember(inSegment, start, n, x);
      WindowMember(forced, start, n, x);
    }
  }

  // ---------------------------------------------------------------- re-synchronisation

  /** From any chunk start on, the chunks are those of a fresh run from that offset. */
  lemma {:induction false} ChunksFrom(w: World, bytes: Bytes, at: int, cfg: ChunkingConfig, forced: set<int>, i: nat)
    requires i < |Chunks(w, bytes, at, cfg, forced)|
    ensures var cs := Chunks(w, bytes, at, cfg, forced);
            && 0 <= cs[i].offset - at < |bytes|
            && cs[i..] == Chunks(w, bytes[cs[i].offset - at..], cs[i].offset, cfg, forced)
    decreases i
  {
    hide FirstCut, Chunks;
    var cs := Chunks(w, bytes, at, cfg, forced);
    if bytes == [] || cfg.max == 0 {
      ChunksEnd(w, bytes, at, cfg, forced);
    } else {
      ChunksHead(w, bytes, at, cfg, forced);
      if i > 0 {
        var cut := FirstCut(w, bytes, at, cfg, forced);
        ChunksFrom(w, bytes[cut..], at + cut, cfg, forced, i - 1);
        var rest := Chunks(w, bytes[cut..], at + cut, cfg, forced);
        assert cs[i] == rest[i - 1] && cs[i..] == rest[i - 1..];
        assert bytes[cut..][cs[i].offset - at - cut..] == bytes[cs[i].offset - at..];
      }
    }
  }

  /** Two files share the bytes from `o1` and from `o2` to the end, and both chunkings have a chunk
      starting there. From there on their chunks are equal but for the offset. */
  lemma Resynchronise(w: World, cfg: ChunkingConfig, d1: Bytes, f1: set<int>, o1: nat, i1: nat,
                      d2: Bytes, f2: set<int>, o2: nat, i2: nat)
    requires o1 <= |d1| && o2 <= |d2| && d1[o1..] == d2[o2..]
    requires SameForced(f1, o1, f2, o2, |d1| - o1)
    requires var cs := Chunks(w, d1, 0, cfg, f1); i1 < |cs| && cs[i1].offset == o1
    requires var cs := Chunks(w, d2, 0, cfg, f2); i2 < |cs| && cs[i2].offset == o2
    ensures Chunks(w, d1, 0, cfg, f1)[i1..] == Displace(Chunks(w, d2, 0, cfg, f2)[i2..], o1 - o2)
  {
    hide *;
    var suffix := d1[o1..];
    TailOfSuffix(w, cfg, d1, f1, i1, suffix);
    TailOfSuffix(w, cfg, d2, f2, i2, suffix);
    ChunksMove(w, suffix, cfg, o1, f1, o2, f2);
  }

  lemma TailOfSuffix(w: World, cfg: ChunkingConfig, data: Bytes, forced: set<int>, i: nat, suffix: Bytes)
    requires i < |Chunks(w, data, 0, cfg, forced)|
    requires var o := Chunks(w, data, 0, cfg, forced)[i].offset; 0 <= o <= |data| && data[o..] == suffix
    ensures var cs := Chunks(w, data, 0, cfg, forced);
            cs[i..] == Chunks(w, suffix, cs[i].offset, cfg, forced)
  {
    ChunksFrom(w, data, 0, cfg, forced, i);
  }

  // ---------------------------------------------------------------- the hash in closed form

  /** The bytes' gear values, each weighted by the number of bytes behind it. */
  function GearSum(w: World, s: Bytes): nat {
    if s == [] then 0 else w.gear(s[0]) * Pow2(|s| - 1) + GearSum(w, s[1..])
  }

  lemma {:induction false} GearSumLast(w: World, s: Bytes, b: byte)
    ensures GearSum(w, s + [b]) == 2 * GearSum(w, s) + w.gear(b)
  {
    if s == [] {
      assert (s + [b])[1..] == [];
    } else {
      assert (s + [b])[1..] == s[1..] + [b];
      GearSumLast(w, s[1..], b);
      Double(w.gear(s[0]), |s|);
    }
  }

  lemma Double(g: nat, n: nat)
    requires n > 0
    ensures g * Pow2(n) == 2 * (g * Pow2(n - 1))
  {
  }

  /** The rolling hash in closed form: what is shifted out of the 64 bits is all that is lost. */
  lemma {:induction false} GearHashIsSum(w: World, s: Bytes)
    ensures GearHash(w, s) == GearSum(w, s) % Pow2(64)
  {
    hide Pow2, Roll, BitAnd;
    if s == [] {
      SmallMod(0, Pow2(64));
    } else {
      var init, last := s[..|s| - 1], s[|s| - 1];
      assert s == init + [last];
      GearHashIsSum(w, init);
      GearSumLast(w, init, last);
      RollIs(w, GearHash(w, init), last);
      RemainderDoubled(GearSum(w, init), w.gear(last), Pow2(64));
    }
  }

  lemma RollIs(w: World, h: nat, b: byte)
    ensures Roll(w, h, b) == (2 * h + w.gear(b)) % Pow2(64)
  {
    U64IsPow2();
    AndLowMask(2 * h + w.gear(b), 64);
  }

  lemma RemainderDoubled(a: nat, g: nat, m: nat)
    requires m > 0
    ensures (2 * (a % m) + g) % m == (2 * a + g) % m
  {
    SmallMod(a % m, m);
    DoubleMod(a % m, a, g, m);
    ModModMul(2 * (a % m) + g, m, 2);
    ModModMul(2 * a + g, m, 2);
  }

  // ---------------------------------------------------------------- locality of natural cuts

  lemma RollIsMod(w: World, h: nat, b: byte, j: nat)
    requires j <= 64
    ensures Roll(w, h, b) % Pow2(j) == (2 * h + w.gear(b)) % Pow2(j)
  {
    U64IsPow2();
    AndLowMask(2 * h + w.gear(b), 64);
    hide Pow2;
    ModMod(2 * h + w.gear(b), j, 64);
  }

  /** Despite the carry out of 64 bits, the last |t| bytes fix the hash modulo 2^|t|. */
  lemma {:induction false} GearIsLocal(w: World, p: Bytes, t: Bytes)
    requires |t| <= 64
    ensures GearHash(w, p + t) % Pow2(|t|) == GearHash(w, t) % Pow2(|t|)
    decreases |t|
  {
    var j := |t|;
    if j > 0 {
      var t', b := t[..j - 1], t[j - 1];
      assert (p + t)[..|p + t| - 1] == p + t' && (p + t)[|p + t| - 1] == b;
      GearIsLocal(w, p, t');
      var x, y := GearHash(w, p + t'), GearHash(w, t');
      assert Pow2(j) == 2 * Pow2(j - 1);
      hide Pow2, Roll;
      DoubleMod(x, y, w.gear(b), Pow2(j - 1));
      RollIsMod(w, x, b, j);
      RollIsMod(w, y, b, j);
    }
  }

  /** A hash masked with k low bits is a function of the last k bytes it consumed. */
  lemma MaskedHashIsLocal(w: World, s: Bytes, k: nat)
    requires k <= 64 && k <= |s|
    ensures BitAnd(GearHash(w, s), Pow2(k) - 1) == BitAnd(GearHash(w, s[|s| - k..]), Pow2(k) - 1)
  {
    var p, t := s[..|s| - k], s[|s| - k..];
    assert s == p + t;
    GearIsLocal(w, p, t);
    AndLowMask(GearHash(w, s), k);
    AndLowMask(GearHash(w, t), k);
  }

  /** The number of bits of mask_small. */
  function WindowBits(cfg: ChunkingConfig): nat {
    MaskBits(cfg.avg) + 1
  }

  /** The WindowBits bytes before position `p` hash to zero under mask_small. */
  predicate Anchor(w: World, bytes: Bytes, cfg: ChunkingConfig, p: nat) {
    var k := WindowBits(cfg);
    k <= p <= |bytes| && GearHash(w, bytes[p - k..p]) % Pow2(k) == 0
  }

  /** In either phase an anchor far enough from the start of the buffer is a natural cut. */
  lemma AnchorIsNatural(w: World, buf: Bytes, cfg: ChunkingConfig, p: nat)
    requires cfg.min + WindowBits(cfg) <= p <= |buf| && Anchor(w, buf, cfg, p)
    ensures NaturalCut(w, buf, cfg, p)
  {
    hide GearHash, Pow2, NormalizeMasks, BitAnd, MaskBits, Anchor;
    AnchorMasks(w, buf, cfg, p);
    MasksAreLowOnes(cfg.avg);
  }

  lemma AnchorMasks(w: World, buf: Bytes, cfg: ChunkingConfig, p: nat)
    requires cfg.min + WindowBits(cfg) <= p <= |buf| && Anchor(w, buf, cfg, p)
    ensures var h, k := GearHash(w, buf[cfg.min..p]), WindowBits(cfg);
            BitAnd(h, Pow2(k) - 1) == 0 && BitAnd(h, Pow2(k - 1) - 1) == 0
  {
    hide GearHash, Pow2, BitAnd, MaskBits;
    var k := WindowBits(cfg);
    var s := buf[cfg.min..p];
    var t := s[|s| - k..];
    SliceOfSlice(buf, cfg.min, p, |s| - k, |s|);
    assert t == s[|s| - k..|s|] == buf[p - k..p];
    MaskedHashIsLocal(w, s, k);
    AndLowMask(GearHash(w, t), k);
    AndLowMask(GearHash(w, s), k);
    AndLowMask(GearHash(w, s), k - 1);
    ZeroModSmaller(GearHash(w, s), k - 1, k);
  }

  lemma {:induction false} ScanStopsBy(w: World, buf: Bytes, cfg: ChunkingConfig, c: nat, p: nat)
    requires c <= p <= |buf| && NaturalCut(w, buf, cfg, p)
    ensures NaturalScan(w, buf, cfg, c) <= p
    decreases p - c
  {
    hide NaturalCut;
    if c < p {
      ScanStopsBy(w, buf, cfg, c + 1, p);
    }
  }

  /** Without a forced cut in its window, a chunk does not run past an anchor at distance min + k or more. */
  lemma CutStopsAtAnchor(w: World, bytes: Bytes, at: int, cfg: ChunkingConfig, forced: set<int>, p: nat)
    requires cfg.min + WindowBits(cfg) <= p <= |bytes| && Anchor(w, bytes, cfg, p)
    requires !ForcedApplies(|Buffer(bytes, cfg)|, cfg, Window(forced, at, |Buffer(bytes, cfg)|))
    ensures FirstCut(w, bytes, at, cfg, forced) <= p
  {
    var buf := Buffer(bytes, cfg);
    var k := WindowBits(cfg);
    if p <= |buf| {
      assert buf[p - k..p] == bytes[p - k..p] by {
        SliceOfSlice(bytes, 0, |buf|, p - k, p);
        assert bytes[0..|buf|] == buf;
      }
      hide GearHash, Pow2, NaturalCut, MaskBits;
      AnchorIsNatural(w, buf, cfg, p);
      ScanStopsBy(w, buf, cfg, cfg.min + 1, p);
    }
  }

  /** Where the `i`-th chunk ends, a fresh run produces the remaining chunks. */
  lemma ChunksAfter(w: World, bytes: Bytes, at: int, cfg: ChunkingConfig, forced: set<int>, i: nat)
    requires i < |Chunks(w, bytes, at, cfg, forced)|
    ensures var cs := Chunks(w, bytes, at, cfg, forced);
            var start, next := cs[i].offset - at, cs[i].offset + cs[i].size - at;
            && 0 <= start < next <= |bytes|
            && cs[i].size == FirstCut(w, bytes[start..], cs[i].offset, cfg, forced)
            && cs[i + 1..] == Chunks(w, bytes[next..], next + at, cfg, forced)
  {
    hide Cut, Window;
    ChunksFrom(w, bytes, at, cfg, forced, i);
    var cs := Chunks(w, bytes, at, cfg, forced);
    var start := cs[i].offset - at;
    var rest := Chunks(w, bytes[start..], cs[i].offset, cfg, forced);
    assert cs[i..] == rest;
    assert cs[i] == rest[0] && cs[i + 1..] == rest[1..];
    assert bytes[start..][cs[i].size..] == bytes[start + cs[i].size..];
  }

  /** No chunk of a file without forced cuts has an anchor strictly inside it at distance min + k or more. */
  lemma NoAnchorInsideAChunk(w: World, data: Bytes, cfg: ChunkingConfig, i: nat, p: nat)
    requires i < |Chunks(w, data, 0, cfg, {})| && Anchor(w, data, cfg, p)
    ensures var c := Chunks(w, data, 0, cfg, {})[i];
            !(c.offset + cfg.min + WindowBits(cfg) <= p < c.offset + c.size)
  {
    hide Chunks, GearHash, Pow2, MaskBits, FirstCut, Anchor, ForcedApplies;
    var c := Chunks(w, data, 0, cfg, {})[i];
    ChunksAfter(w, data, 0, cfg, {}, i);
    AnchorWithin(w, data, cfg, p);
    if c.offset + cfg.min + WindowBits(cfg) <= p {
      var rest := data[c.offset..];
      AnchorInSuffix(w, cfg, data, c.offset, p);
      NothingForced(|Buffer(rest, cfg)|, cfg, c.offset);
      CutStopsAtAnchor(w, rest, c.offset, cfg, {}, p - c.offset);
    }
  }

  lemma AnchorWithin(w: World, data: Bytes, cfg: ChunkingConfig, p: nat)
    requires Anchor(w, data, cfg, p)
    ensures p <= |data|
  {
  }

  lemma AnchorInSuffix(w: World, cfg: ChunkingConfig, data: Bytes, start: nat, p: nat)
    requires start + WindowBits(cfg) <= p && Anchor(w, data, cfg, p)
    ensures Anchor(w, data[start..], cfg, p - start)
  {
    var rest := data[start..];
    assert rest[0..] == rest;
    SameAnchor(w, cfg, data, start, rest, 0, p - start);
  }

  lemma NothingForced(n: nat, cfg: ChunkingConfig, at: int)
    ensures !ForcedApplies(n, cfg, Window({}, at, n))
  {
    assert Window({}, at, n) == {};
    assert ForcedCandidates(n, cfg, {}) == {};
  }

  /** Insertions heal at the next usable anchor: two files agree from `o1` and `o2` to the end, and `q`
      bytes further lies an anchor whose window is shared. If in both files the chunk that reaches
      the anchor began at least min + k bytes before it, both chunkings cut exactly there and all later
      chunks are equal but for the offset. */
  lemma AnchorResynchronises(w: World, cfg: ChunkingConfig, d1: Bytes, o1: nat, i1: nat, d2: Bytes, o2: nat, i2: nat, q: nat)
    requires o1 <= |d1| && o2 <= |d2| && d1[o1..] == d2[o2..]
    requires WindowBits(cfg) <= q && Anchor(w, d1, cfg, o1 + q)
    requires var cs := Chunks(w, d1, 0, cfg, {});
             i1 < |cs| && cs[i1].offset + cfg.min + WindowBits(cfg) <= o1 + q <= cs[i1].offset + cs[i1].size
    requires var cs := Chunks(w, d2, 0, cfg, {});
             i2 < |cs| && cs[i2].offset + cfg.min + WindowBits(cfg) <= o2 + q <= cs[i2].offset + cs[i2].size
    ensures var cs1, cs2 := Chunks(w, d1, 0, cfg, {}), Chunks(w, d2, 0, cfg, {});
            && cs1[i1].offset + cs1[i1].size == o1 + q
            && cs2[i2].offset + cs2[i2].size == o2 + q
            && cs1[i1 + 1..] == Displace(cs2[i2 + 1..], o1 - o2)
  {
    hide Chunks, Displace, GearHash, Pow2, MaskBits;
    SameAnchor(w, cfg, d1, o1, d2, o2, q);
    NoAnchorInsideAChunk(w, d1, cfg, i1, o1 + q);
    NoAnchorInsideAChunk(w, d2, cfg, i2, o2 + q);
    ChunksAfter(w, d1, 0, cfg, {}, i1);
    ChunksAfter(w, d2, 0, cfg, {}, i2);
    ChunksMove(w, d1[o1 + q..], cfg, o1 + q, {}, o2 + q, {});
  }

  lemma SameAnchor(w: World, cfg: ChunkingConfig, d1: Bytes, o1: nat, d2: Bytes, o2: nat, q: nat)
    requires o1 <= |d1| && o2 <= |d2| && d1[o1..] == d2[o2..] && q <= |d1| - o1
    requires WindowBits(cfg) <= q
    ensures |d1| - o1 == |d2| - o2 && d1[o1 + q..] == d2[o2 + q..]
    ensures Anchor(w, d1, cfg, o1 + q) <==> Anchor(w, d2, cfg, o2 + q)
  {
    var k, t := WindowBits(cfg), d1[o1..];
    assert |t| == |d2[o2..]|;
    assert d1[o1 + q - k..o1 + q] == t[q - k..q] by { SliceOfSlice(d1, o1, |d1|, q - k, q); assert d1[o1..|d1|] == t; }
    assert d2[o2 + q - k..o2 + q] == t[q - k..q] by { SliceOfSlice(d2, o2, |d2|, q - k, q); assert d2[o2..|d2|] == t; }
    assert d1[o1 + q..] == t[q..] && d2[o2 + q..] == t[q..];
  }

  // ---------------------------------------------------------------- what a cut is

  /** A position is a natural cut iff the hash up to it is divisible by 2^n, and before the middle by
      2^(n+1), which makes early cuts half as likely. */
  lemma NaturalCutIsDivisibility(w: World, buf: Bytes, cfg: ChunkingConfig, c: nat)
    requires cfg.min < c <= |buf|
    ensures NaturalCut(w, buf, cfg, c)
       <==> GearHash(w, buf[cfg.min..c]) % Pow2(MaskBits(cfg.avg) + if c <= Mid(|buf|, cfg) then 1 else 0) == 0
  {
    hide GearHash, BitAnd, Pow2, NormalizeMasks, MaskBits;
    var h, n := GearHash(w, buf[cfg.min..c]), MaskBits(cfg.avg);
    MasksAreLowOnes(cfg.avg);
    AndLowMask(h, n + 1);
    AndLowMask(h, n);
  }

  /** The cut rule in numbers: with 2^n the average, kept between 2^8 and 2^24, the hash from the minimum
      on must be divisible by 2^(n+1) up to half way between minimum and maximum, by 2^n behind it. */
  predicate CutRule(w: World, buf: Bytes, cfg: ChunkingConfig, n: nat, c: nat) {
    && cfg.min < c <= |buf|
    && GearHash(w, buf[cfg.min..c]) % Pow2(if 2 * c <= cfg.min + cfg.max then n + 1 else n) == 0
  }

  lemma NaturalCutRule(w: World, buf: Bytes, cfg: ChunkingConfig, n: nat, c: nat)
    requires Exponent(cfg.avg, n)
    ensures NaturalCut(w, buf, cfg, c) <==> CutRule(w, buf, cfg, n, c)
  {
    hide GearHash, NormalizeMasks, Exponent, BitAnd, Pow2;
    ExponentIsMaskBits(cfg.avg, n);
    if cfg.min < c <= |buf| {
      NaturalCutIsDivisibility(w, buf, cfg, c);
      assert c <= Mid(|buf|, cfg) <==> 2 * c <= cfg.min + cfg.max;
    }
  }

  /** Without forced cuts the search returns the least position the rule allows, the buffer's length when
      there is none or the buffer is no longer than the minimum. */
  lemma CutByRule(w: World, buf: Bytes, cfg: ChunkingConfig, n: nat)
    requires Exponent(cfg.avg, n)
    ensures var cut := Cut(w, buf, cfg, {});
            && (cut == |buf| || CutRule(w, buf, cfg, n, cut))
            && (forall c :: CutRule(w, buf, cfg, n, c) ==> cut <= c)
            && (|buf| <= cfg.min ==> cut == |buf|)
  {
    hide CutRule, NaturalCut, Exponent;
    var cut := Cut(w, buf, cfg, {});
    if cfg.min < |buf| {
      CutIsTheFirst(w, buf, cfg, {});
      NaturalCutRule(w, buf, cfg, n, cut);
    }
    forall c | CutRule(w, buf, cfg, n, c)
      ensures cut <= c
    {
      NaturalCutRule(w, buf, cfg, n, c);
      CutBehindMin(w, buf, cfg, c);
    }
  }

  lemma CutBehindMin(w: World, buf: Bytes, cfg: ChunkingConfig, c: nat)
    ensures NaturalCut(w, buf, cfg, c) ==> cfg.min < c <= |buf|
  {
  }

  lemma {:induction false} ScanIsFirst(w: World, buf: Bytes, cfg: ChunkingConfig, c: nat)
    requires c <= |buf|
    ensures var r := NaturalScan(w, buf, cfg, c);
            && (r == |buf| || NaturalCut(w, buf, cfg, r))
            && forall p :: c <= p < r ==> !NaturalCut(w, buf, cfg, p)
    decreases |buf| - c
  {
    hide NaturalCut;
    if c < |buf| && !NaturalCut(w, buf, cfg, c) {
      ScanIsFirst(w, buf, cfg, c + 1);
    }
  }

  /** The cut of a buffer longer than the minimum, without reference to how it is searched for: with a
      forced cut in reach it is the smallest one; otherwise it is the first natural cut behind the
      minimum, or the buffer's end. */
  lemma CutIsTheFirst(w: World, buf: Bytes, cfg: ChunkingConfig, forced: set<int>)
    requires cfg.min < |buf| && forall fc :: fc in forced ==> fc > 0
    ensures var cut := Cut(w, buf, cfg, forced);
            if exists fc :: fc in forced && cfg.min <= fc <= |buf| then
              cut in forced && cfg.min <= cut && forall fc :: fc in forced && cfg.min <= fc <= |buf| ==> cut <= fc
            else
              (cut == |buf| || NaturalCut(w, buf, cfg, cut)) && forall p :: cfg.min < p < cut ==> !NaturalCut(w, buf, cfg, p)
  {
    hide NaturalCut;
    var cs := ForcedCandidates(|buf|, cfg, forced);
    if cs != {} {
      var m := MinOf(cs);
      assert m in cs && m in forced;
      forall fc | fc in forced && cfg.min <= fc <= |buf|
        ensures m <= fc
      {
        assert fc in cs;
      }
    } else {
      forall fc | fc in forced
        ensures !(cfg.min <= fc <= |buf|)
      {
        assert fc !in cs;
      }
      ScanIsFirst(w, buf, cfg, cfg.min + 1);
    }
  }

  // ---------------------------------------------------------------- forced cuts

  /** A chunk does not run past a forced cut that lies at distance min or more from its start. */
  lemma CutStopsAtForced(w: World, bytes: Bytes, at: int, cfg: ChunkingConfig, forced: set<int>, fc: int)
    requires fc in forced && at < fc && at + cfg.min <= fc
    ensures at + FirstCut(w, bytes, at, cfg, forced) <= fc
  {
    var n := |Buffer(bytes, cfg)|;
    if cfg.min < n && fc <= at + n {
      var rel := Window(forced, at, n);
      WindowMember(forced, at, n, fc - at);
      assert fc - at in ForcedCandidates(n, cfg, rel);
      assert forall x :: x in ForcedCandidates(n, cfg, rel) ==> x > 0;
    }
  }

  /** Over a whole chunking, no forced cut lies strictly inside a chunk at distance min or more. */
  lemma NoForcedCutInsideAChunk(w: World, bytes: Bytes, at: int, cfg: ChunkingConfig, forced: set<int>, i: nat, fc: int)
    requires i < |Chunks(w, bytes, at, cfg, forced)| && fc in forced
    ensures var c := Chunks(w, bytes, at, cfg, forced)[i];
            !(c.offset + Max(1, cfg.min) <= fc < c.offset + c.size)
  {
    hide Chunks, FirstCut;
    var c := Chunks(w, bytes, at, cfg, forced)[i];
    ChunksAfter(w, bytes, at, cfg, forced, i);
    if c.offset + Max(1, cfg.min) <= fc {
      CutStopsAtForced(w, bytes[c.offset - at..], c.offset, cfg, forced, fc);
    }
  }
}
