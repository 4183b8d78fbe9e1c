/** Entropy segmentation (zeno_client/entropy_segment.py): window scan, merge of adjacent windows, and
    the proof that the result is the coarsest partition that respects every window's mode. */
module Entropy {
  import opened Base
  import opened Bits
  import opened Worlds

  datatype Mode = Low | High | Middle

  datatype EntropyConfig = EntropyConfig(windowSize: nat, lowThreshold: real, highThreshold: real)

  datatype Segment = Segment(start: nat, end: nat, mode: Mode, entropy: real)

  function Classify(h: real, cfg: EntropyConfig): Mode {
    if h <= cfg.lowThreshold then Low else if h >= cfg.highThreshold then High else Middle
  }

  // ---------------------------------------------------------------- specification

  /** One segment for each window of the remaining `bytes`, which start at offset `at`. */
  function Windows(w: World, bytes: Bytes, at: nat, cfg: EntropyConfig): seq<Segment>
    decreases |bytes|
  {
    if bytes == [] || cfg.windowSize == 0 then []
    else
      var n := Min(cfg.windowSize, |bytes|);
      var h := w.entropy(bytes[..n]);
      [Segment(at, at + n, Classify(h, cfg), h)] + Windows(w, bytes[n..], at + n, cfg)
  }

  predicate Mergeable(prev: Segment, seg: Segment) {
    prev.mode == seg.mode && prev.end == seg.start
  }

  /** `out` after one more segment: `out[-1]` is widened or the segment appended. */
  function Absorb(out: seq<Segment>, seg: Segment): seq<Segment>
    requires out != []
  {
    var prev := out[|out| - 1];
    if Mergeable(prev, seg) then
      out[..|out| - 1] + [Segment(prev.start, seg.end, prev.mode, (prev.entropy + seg.entropy) / 2.0)]
    else out + [seg]
  }

  function AbsorbAll(out: seq<Segment>, segs: seq<Segment>): seq<Segment>
    requires out != []
    decreases segs
  {
    if segs == [] then out else AbsorbAll(Absorb(out, segs[0]), segs[1..])
  }

  function Merge(segs: seq<Segment>): seq<Segment> {
    if segs == [] then [] else AbsorbAll(segs[..1], segs[1..])
  }

  function EntropySegments(w: World, data: Bytes, cfg: EntropyConfig): seq<Segment> {
    Merge(Windows(w, data, 0, cfg))
  }

  // ---------------------------------------------------------------- the loops

  method MergeAdjacentSegments(segments: seq<Segment>) returns (out: seq<Segment>)
    ensures out == Merge(segments)
  {
    if segments == [] {
      return [];
    }
    out := [segments[0]];
    assert segments[..1] == out;
    for i := 1 to |segments|
      invariant out != []
      invariant AbsorbAll(out, segments[i..]) == Merge(segments)
    {
      var seg := segments[i];
      assert segments[i..][0] == seg && segments[i..][1..] == segments[i + 1..];
      var prev := out[|out| - 1];
      if prev.mode == seg.mode && prev.end == seg.start {
        var merged := Segment(prev.start, seg.end, prev.mode, (prev.entropy + seg.entropy) / 2.0);
        out := out[..|out| - 1] + [merged];
      } else {
        out := out + [seg];
      }
    }
  }

  method ScanEntropySegments(w: World, data: Bytes, cfg: EntropyConfig) returns (out: seq<Segment>)
    ensures out == EntropySegments(w, data, cfg)
  {
    hide Windows, Merge;
    var segments: seq<Segment> := [];
    var offset := 0;
    assert data[0..] == data;
    while true
      invariant offset <= |data|
      invariant Windows(w, data, 0, cfg) == segments + Windows(w, data[offset..], offset, cfg)
      decreases |data| - offset
    {
      var buf := data[offset..Min(offset + cfg.windowSize, |data|)];
      if buf == [] {
        break;
      }
      var h := w.entropy(buf);
      WindowsStep(w, data, offset, cfg, buf, segments);
      segments := segments + [Segment(offset, offset + |buf|, Classify(h, cfg), h)];
      offset := offset + |buf|;
    }
    WindowsEnd(w, data[offset..], offset, cfg);
    assert segments + [] == segments == Windows(w, data, 0, cfg);
    out := MergeAdjacentSegments(segments);
  }

  lemma WindowsEnd(w: World, bytes: Bytes, at: nat, cfg: EntropyConfig)
    requires bytes == [] || cfg.windowSize == 0
    ensures Windows(w, bytes, at, cfg) == []
  {
  }

  lemma WindowsStep(w: World, data: Bytes, at: nat, cfg: EntropyConfig, buf: Bytes, done: seq<Segment>)
    requires at < |data| && cfg.windowSize > 0 && buf == data[at..Min(at + cfg.windowSize, |data|)]
    ensures var h := w.entropy(buf);
            done + Windows(w, data[at..], at, cfg)
            == done + [Segment(at, at + |buf|, Classify(h, cfg), h)] + Windows(w, data[at + |buf|..], at + |buf|, cfg)
  {
    var bytes := data[at..];
    assert buf == bytes[..Min(cfg.windowSize, |bytes|)];
    assert bytes[|buf|..] == data[at + |buf|..];
  }

  // ---------------------------------------------------------------- meaning

  /** Non-empty segments laid end to end from `from` to `to`. */
  predicate Covers(segs: seq<Segment>, from: nat, to: nat)
    decreases segs
  {
    if segs == [] then from == to
    else segs[0].start == from && from < segs[0].end && Covers(segs[1..], segs[0].end, to)
  }

  /** No two neighbours share a mode. */
  predicate Alternating(segs: seq<Segment>) {
    forall i :: 0 < i < |segs| ==> segs[i - 1].mode != segs[i].mode
  }

  function Repeat(m: Mode, n: nat): seq<Mode> {
    seq(n, i => m)
  }

  function Width(s: Segment): nat {
    if s.start <= s.end then s.end - s.start else 0
  }

  /** The mode every covered byte is given. */
  function Expand(segs: seq<Segment>): seq<Mode> {
    if segs == [] then [] else Repeat(segs[0].mode, Width(segs[0])) + Expand(segs[1..])
  }

  /** The mode of the window byte `i` falls in. */
  function ByteMode(w: World, data: Bytes, cfg: EntropyConfig, i: nat): Mode
    requires i < |data| && cfg.windowSize > 0
  {
    var lo := i - i % cfg.windowSize;
    Classify(w.entropy(data[lo..Min(lo + cfg.windowSize, |data|)]), cfg)
  }

  /** A partition of the file that respects the windows' modes and cannot be made coarser. */
  ghost predicate CoarsestPartition(w: World, data: Bytes, cfg: EntropyConfig, segs: seq<Segment>)
    requires cfg.windowSize > 0
  {
    && Covers(segs, 0, |data|)
    && Alternating(segs)
    && |Expand(segs)| == |data|
    && forall i :: 0 <= i < |data| ==> Expand(segs)[i] == ByteMode(w, data, cfg, i)
  }

  predicate SameExtents(a: seq<Segment>, b: seq<Segment>) {
    |a| == |b|
    && forall i :: 0 <= i < |a| ==> a[i].start == b[i].start && a[i].end == b[i].end && a[i].mode == b[i].mode
  }

  // ---------------------------------------------------------------- lemmas on lists of segments

  lemma ExpandCons(s: Segment, rest: seq<Segment>)
    ensures Expand([s] + rest) == Repeat(s.mode, Width(s)) + Expand(rest)
  {
    assert ([s] + rest)[1..] == rest;
  }

  lemma {:induction false} ExpandAppend(a: seq<Segment>, b: seq<Segment>)
    ensures Expand(a + b) == Expand(a) + Expand(b)
  {
    hide Expand, Repeat;
    if a == [] {
      assert a + b == b;
      ExpandNil();
    } else {
      var s, rest := a[0], a[1..];
      assert a == [s] + rest && a + b == [s] + (rest + b);
      ExpandAppend(rest, b);
      ExpandCons(s, rest);
      ExpandCons(s, rest + b);
    }
  }

  lemma ExpandNil()
    ensures Expand([]) == []
  {
  }

  lemma {:induction false} CoversAppend(a: seq<Segment>, b: seq<Segment>, from: nat, mid: nat, to: nat)
    requires Covers(a, from, mid) && Covers(b, mid, to)
    ensures Covers(a + b, from, to)
    decreases a
  {
    if a == [] {
      assert a + b == b;
    } else {
      assert (a + b)[1..] == a[1..] + b;
      CoversAppend(a[1..], b, a[0].end, mid, to);
    }
  }

  lemma {:induction false} CoversLast(segs: seq<Segment>, from: nat, to: nat)
    requires Covers(segs, from, to) && segs != []
    ensures var last := segs[|segs| - 1];
            && Covers(segs[..|segs| - 1], from, last.start) && from <= last.start < last.end == to
    decreases segs
  {
    if |segs| == 1 {
      assert Covers(segs[1..], segs[0].end, to) && segs[1..] == [];
      assert segs[..0] == [];
    } else {
      CoversLast(segs[1..], segs[0].end, to);
      assert segs[1..][..|segs| - 2] == segs[..|segs| - 1][1..];
      assert segs[1..][|segs| - 2] == segs[|segs| - 1];
    }
  }

  lemma CoversOne(s: Segment)
    requires s.start < s.end
    ensures Covers([s], s.start, s.end)
  {
    assert [s][1..] == [];
  }

  /** One more segment keeps the cover, the alternation and every byte's mode. */
  lemma AbsorbKeeps(out: seq<Segment>, seg: Segment, from: nat)
    requires out != [] && Covers(out, from, seg.start) && seg.start < seg.end && Alternating(out)
    ensures Absorb(out, seg) != []
    ensures Covers(Absorb(out, seg), from, seg.end) && Alternating(Absorb(out, seg))
    ensures Expand(Absorb(out, seg)) == Expand(out + [seg])
  {
    hide Covers, Expand;
    var init, prev := out[..|out| - 1], out[|out| - 1];
    assert out == init + [prev];
    CoversLast(out, from, seg.start);
    if Mergeable(prev, seg) {
      var merged := Segment(prev.start, seg.end, prev.mode, (prev.entropy + seg.entropy) / 2.0);
      CoversOne(merged);
      CoversAppend(init, [merged], from, prev.start, seg.end);
      MergeExpands(init, prev, seg, merged);
    } else {
      CoversOne(seg);
      CoversAppend(out, [seg], from, seg.start, seg.end);
    }
  }

  lemma MergeExpands(init: seq<Segment>, prev: Segment, seg: Segment, merged: Segment)
    requires prev.start <= prev.end == seg.start <= seg.end && prev.mode == seg.mode
    requires merged.start == prev.start && merged.end == seg.end && merged.mode == prev.mode
    ensures Expand(init + [merged]) == Expand(init + [prev] + [seg])
  {
    hide Expand;
    ExpandAppend(init, [merged]);
    ExpandAppend(init + [prev], [seg]);
    ExpandAppend(init, [prev]);
    ExpandOne(merged);
    ExpandOne(prev);
    ExpandOne(seg);
    assert Repeat(merged.mode, Width(merged)) == Repeat(prev.mode, Width(prev)) + Repeat(seg.mode, Width(seg));
  }

  lemma ExpandOne(s: Segment)
    ensures Expand([s]) == Repeat(s.mode, Width(s))
  {
    assert [s] == [s] + [];
    ExpandCons(s, []);
  }

  lemma {:induction false} AbsorbAllKeeps(out: seq<Segment>, segs: seq<Segment>, from: nat, mid: nat, to: nat)
    requires out != [] && Covers(out, from, mid) && Covers(segs, mid, to) && Alternating(out)
    ensures Covers(AbsorbAll(out, segs), from, to) && Alternating(AbsorbAll(out, segs))
    ensures Expand(AbsorbAll(out, segs)) == Expand(out + segs)
    decreases segs
  {
    hide Alternating, Expand;
    if segs == [] {
      assert out + segs == out;
    } else {
      AbsorbKeeps(out, segs[0], from);
      var next := Absorb(out, segs[0]);
      AbsorbAllKeeps(next, segs[1..], from, segs[0].end, to);
      ExpandAppend(next, segs[1..]);
      ExpandAppend(out + [segs[0]], segs[1..]);
      assert out + [segs[0]] + segs[1..] == out + segs;
    }
  }

  /** Merging a cover keeps it a cover, keeps every byte's mode, and leaves no two neighbours alike. */
  lemma MergeKeeps(segs: seq<Segment>, from: nat, to: nat)
    requires Covers(segs, from, to)
    ensures Covers(Merge(segs), from, to) && Alternating(Merge(segs))
    ensures Expand(Merge(segs)) == Expand(segs)
  {
    if segs != [] {
      assert segs[..1] == [segs[0]] && segs[..1] + segs[1..] == segs;
      AbsorbAllKeeps(segs[..1], segs[1..], from, segs[0].end, to);
    }
  }

  predicate NoneMergeable(segs: seq<Segment>) {
    forall i :: 0 < i < |segs| ==> !Mergeable(segs[i - 1], segs[i])
  }

  /** Whatever the segments, widening the last one or appending leaves nothing to merge. */
  lemma {:induction false} AbsorbAllMerges(out: seq<Segment>, segs: seq<Segment>)
    requires out != [] && NoneMergeable(out)
    ensures AbsorbAll(out, segs) != [] && NoneMergeable(AbsorbAll(out, segs))
    decreases segs
  {
    if segs != [] {
      AbsorbAllMerges(Absorb(out, segs[0]), segs[1..]);
    }
  }

  lemma {:induction false} AbsorbAllApart(out: seq<Segment>, segs: seq<Segment>)
    requires out != [] && NoneMergeable(out + segs)
    ensures AbsorbAll(out, segs) == out + segs
    decreases segs
  {
    if segs == [] {
      assert out + segs == out;
    } else {
      assert (out + segs)[|out| - 1] == out[|out| - 1] && (out + segs)[|out|] == segs[0];
      assert out + [segs[0]] + segs[1..] == out + segs;
      AbsorbAllApart(out + [segs[0]], segs[1..]);
    }
  }

  /** Merging any list twice is merging it once, entropies included. */
  lemma MergeIdempotent(segs: seq<Segment>)
    ensures Merge(Merge(segs)) == Merge(segs)
  {
    if segs != [] {
      var m := Merge(segs);
      AbsorbAllMerges(segs[..1], segs[1..]);
      assert m[..1] + m[1..] == m;
      AbsorbAllApart(m[..1], m[1..]);
    }
  }

  // ---------------------------------------------------------------- the scan

  lemma {:induction false} WindowsCover(w: World, bytes: Bytes, at: nat, cfg: EntropyConfig)
    requires cfg.windowSize > 0
    ensures Covers(Windows(w, bytes, at, cfg), at, at + |bytes|)
    decreases |bytes|
  {
    if bytes != [] {
      var n := Min(cfg.windowSize, |bytes|);
      WindowsCover(w, bytes[n..], at + n, cfg);
    }
  }

  lemma {:induction false} WindowsExpand(w: World, data: Bytes, at: nat, cfg: EntropyConfig)
    requires cfg.windowSize > 0 && at <= |data| && (at % cfg.windowSize == 0 || at == |data|)
    ensures var modes := Expand(Windows(w, data[at..], at, cfg));
            && |modes| == |data| - at
            && forall i :: at <= i < |data| ==> modes[i - at] == ByteMode(w, data, cfg, i)
    decreases |data| - at
  {
    hide Expand, Windows, ByteMode;
    if at == |data| {
      WindowsEnd(w, data[at..], at, cfg);
      ExpandNil();
    } else {
      var buf := data[at..Min(at + cfg.windowSize, |data|)];
      var next := at + |buf|;
      WindowsStep(w, data, at, cfg, buf, []);
      NextWindow(at, cfg.windowSize);
      WindowsExpand(w, data, next, cfg);
      var head := Segment(at, next, Classify(w.entropy(buf), cfg), w.entropy(buf));
      var rest := Windows(w, data[next..], next, cfg);
      assert Windows(w, data[at..], at, cfg) == [] + Windows(w, data[at..], at, cfg) == [] + [head] + rest == [head] + rest;
      ExpandCons(head, rest);
      forall i | at <= i < next
        ensures ByteMode(w, data, cfg, i) == head.mode
      {
        WindowMode(w, data, cfg, at, i);
      }
    }
  }

  lemma WindowMode(w: World, data: Bytes, cfg: EntropyConfig, at: nat, i: nat)
    requires cfg.windowSize > 0 && at % cfg.windowSize == 0 && at <= i < Min(at + cfg.windowSize, |data|)
    ensures ByteMode(w, data, cfg, i) == Classify(w.entropy(data[at..Min(at + cfg.windowSize, |data|)]), cfg)
  {
    InWindow(at, cfg.windowSize, i);
  }

  lemma NextWindow(at: nat, size: nat)
    requires size > 0 && at % size == 0
    ensures (at + size) % size == 0
  {
    var q := at / size;
    assert at == q * size;
    DivModMul(at + size, size, q + 1, 0);
  }

  lemma InWindow(at: nat, size: nat, i: nat)
    requires size > 0 && at % size == 0 && at <= i < at + size
    ensures i - i % size == at
  {
    var q := at / size;
    assert at == q * size;
    DivModMul(i, size, q, i - at);
  }

  /** The scan yields the coarsest mode-respecting partition of the file. */
  lemma ScanIsCoarsest(w: World, data: Bytes, cfg: EntropyConfig)
    requires cfg.windowSize > 0
    ensures CoarsestPartition(w, data, cfg, EntropySegments(w, data, cfg))
  {
    var segs := Windows(w, data, 0, cfg);
    WindowsCover(w, data, 0, cfg);
    assert data[0..] == data;
    WindowsExpand(w, data, 0, cfg);
    MergeKeeps(segs, 0, |data|);
  }

  /** Covers with alternating modes that give every byte the same mode have the same extents. */
  lemma {:induction false} AlternatingUnique(a: seq<Segment>, b: seq<Segment>, from: nat, to: nat)
    requires Covers(a, from, to) && Covers(b, from, to) && Alternating(a) && Alternating(b)
    requires Expand(a) == Expand(b)
    ensures SameExtents(a, b)
    decreases a
  {
    if a == [] {
      CoversEmpty(b, from, to);
    } else if b == [] {
      CoversEmpty(a, from, to);
    } else {
      FirstRun(a, from, to);
      FirstRun(b, from, to);
      SameFirstRun(a[0].mode, a[0].end - from, Expand(a[1..]), b[0].mode, b[0].end - from, Expand(b[1..]));
      AlternatingUnique(a[1..], b[1..], a[0].end, to);
      forall i | 0 < i < |a|
        ensures i < |b| && a[i].start == b[i].start && a[i].end == b[i].end && a[i].mode == b[i].mode
      {
        assert a[i] == a[1..][i - 1] && b[i] == b[1..][i - 1];
      }
    }
  }

  lemma SameFirstRun(m1: Mode, n1: nat, r1: seq<Mode>, m2: Mode, n2: nat, r2: seq<Mode>)
    requires n1 > 0 && n2 > 0 && Repeat(m1, n1) + r1 == Repeat(m2, n2) + r2
    requires (r1 != [] ==> r1[0] != m1) && (r2 != [] ==> r2[0] != m2)
    ensures m1 == m2 && n1 == n2 && r1 == r2
  {
    var x, y := Repeat(m1, n1) + r1, Repeat(m2, n2) + r2;
    assert x[0] == m1 && y[0] == m2;
    assert forall k :: 0 <= k < n1 ==> x[k] == m1;
    assert forall k :: 0 <= k < n2 ==> y[k] == m2;
    assert r1 != [] ==> x[n1] == r1[0];
    assert r2 != [] ==> y[n2] == r2[0];
    assert r1 == x[n1..] && r2 == y[n2..];
  }

  lemma {:induction false} CoversEmpty(segs: seq<Segment>, from: nat, to: nat)
    requires Covers(segs, from, to)
    ensures from <= to && (from == to <==> segs == [])
    decreases segs
  {
    if segs != [] { CoversEmpty(segs[1..], segs[0].end, to); }
  }

  /** The first segment is exactly the first maximal run of equal modes. */
  lemma FirstRun(a: seq<Segment>, from: nat, to: nat)
    requires Covers(a, from, to) && Alternating(a) && a != []
    ensures var n := a[0].end - from;
            && n > 0 && Expand(a) == Repeat(a[0].mode, n) + Expand(a[1..])
            && Alternating(a[1..])
            && (Expand(a[1..]) != [] ==> Expand(a[1..])[0] != a[0].mode)
  {
    if |a| > 1 {
      assert a[1..][0] == a[1];
      assert Expand(a[1..]) == Repeat(a[1].mode, Width(a[1])) + Expand(a[1..][1..]);
    }
  }

  /** The partition is the only one of its kind, whatever entropies are recorded in it. */
  lemma CoarsestIsUnique(w: World, data: Bytes, cfg: EntropyConfig, segs: seq<Segment>)
    requires cfg.windowSize > 0 && CoarsestPartition(w, data, cfg, segs)
    ensures SameExtents(segs, EntropySegments(w, data, cfg))
  {
    ScanIsCoarsest(w, data, cfg);
    AlternatingUnique(segs, EntropySegments(w, data, cfg), 0, |data|);
  }

  /** Inner boundaries fall on window boundaries. */
  lemma InnerBoundariesAligned(w: World, data: Bytes, cfg: EntropyConfig, i: nat)
    requires cfg.windowSize > 0
    requires var segs := EntropySegments(w, data, cfg); 0 < i < |segs|
    ensures EntropySegments(w, data, cfg)[i].start % cfg.windowSize == 0
  {
    hide EntropySegments, Expand, ByteMode, Covers;
    var segs := EntropySegments(w, data, cfg);
    ScanIsCoarsest(w, data, cfg);
    SegmentBounds(segs, 0, |data|, i);
    SegmentBounds(segs, 0, |data|, i - 1);
    var x := segs[i].start;
    SegmentMode(segs, 0, |data|, i, x);
    SegmentMode(segs, 0, |data|, i - 1, x - 1);
    SameWindowSameMode(w, data, cfg, x);
  }

  lemma SameWindowSameMode(w: World, data: Bytes, cfg: EntropyConfig, x: nat)
    requires cfg.windowSize > 0 && 0 < x < |data|
    ensures x % cfg.windowSize != 0 ==> ByteMode(w, data, cfg, x - 1) == ByteMode(w, data, cfg, x)
  {
    var q, r := x / cfg.windowSize, x % cfg.windowSize;
    assert x == q * cfg.windowSize + r;
    if r > 0 {
      DivModMul(x - 1, cfg.windowSize, q, r - 1);
    }
  }

  lemma {:induction false} SegmentBounds(segs: seq<Segment>, from: nat, to: nat, i: nat)
    requires Covers(segs, from, to) && i < |segs|
    ensures from <= segs[i].start < segs[i].end <= to
    ensures i + 1 < |segs| ==> segs[i + 1].start == segs[i].end
    decreases segs
  {
    CoversEmpty(segs[1..], segs[0].end, to);
    if i > 0 {
      SegmentBounds(segs[1..], segs[0].end, to, i - 1);
    } else if |segs| > 1 {
      assert segs[1] == segs[1..][0];
    }
  }

  /** A cover gives every byte of its `i`-th segment that segment's mode. */
  lemma {:induction false} SegmentMode(segs: seq<Segment>, from: nat, to: nat, i: nat, x: nat)
    requires Covers(segs, from, to) && i < |segs| && segs[i].start <= x < segs[i].end
    ensures from <= x && x - from < |Expand(segs)| && Expand(segs)[x - from] == segs[i].mode
    decreases segs
  {
    var s, rest := segs[0], segs[1..];
    assert segs == [s] + rest;
    hide Expand;
    ExpandCons(s, rest);
    if i > 0 {
      SegmentMode(rest, s.end, to, i - 1, x);
    }
  }

  // ---------------------------------------------------------------- what a mode says

  /** Every byte's segment is low when the entropy of its window is at most the low threshold, otherwise
      high when it is at least the high one, otherwise in between. */
  lemma SegmentThresholds(w: World, data: Bytes, cfg: EntropyConfig, i: nat, x: nat)
    requires cfg.windowSize > 0
    requires var segs := EntropySegments(w, data, cfg); i < |segs| && segs[i].start <= x < segs[i].end
    ensures x < |data|
    ensures var from := x - x % cfg.windowSize;
            var e := w.entropy(data[from..Min(from + cfg.windowSize, |data|)]);
            var mode := EntropySegments(w, data, cfg)[i].mode;
            && (mode == Low <==> e <= cfg.lowThreshold)
            && (mode == High <==> e > cfg.lowThreshold && e >= cfg.highThreshold)
            && (mode == Middle <==> cfg.lowThreshold < e < cfg.highThreshold)
  {
    hide EntropySegments, Expand, Covers;
    var segs := EntropySegments(w, data, cfg);
    ScanIsCoarsest(w, data, cfg);
    SegmentBounds(segs, 0, |data|, i);
    SegmentMode(segs, 0, |data|, i, x);
  }

  lemma {:induction false} AbsorbAllSnoc(out: seq<Segment>, segs: seq<Segment>, s: Segment)
    requires out != []
    ensures AbsorbAll(out, segs) != [] && AbsorbAll(out, segs + [s]) == Absorb(AbsorbAll(out, segs), s)
    decreases segs
  {
    if segs == [] {
      assert segs + [s] == [s] && [s][1..] == [];
      assert AbsorbAll(Absorb(out, s), []) == Absorb(out, s);
    } else {
      assert (segs + [s])[0] == segs[0] && (segs + [s])[1..] == segs[1..] + [s];
      AbsorbAllSnoc(Absorb(out, segs[0]), segs[1..], s);
    }
  }

  /** One more segment either widens the last one, the recorded entropy becoming the mean of the two, or
      is appended. */
  lemma MergeOneMore(segs: seq<Segment>, s: Segment)
    ensures segs == [] ==> Merge(segs + [s]) == [s]
    ensures segs != [] ==>
              && Merge(segs) != []
              && var m := Merge(segs);
                 var last := m[|m| - 1];
                 Merge(segs + [s])
                 == if last.mode == s.mode && last.end == s.start
                    then m[..|m| - 1] + [Segment(last.start, s.end, s.mode, (last.entropy + s.entropy) / 2.0)]
                    else m + [s]
  {
    if segs == [] {
      assert segs + [s] == [s] && [s][..1] == [s] && [s][1..] == [];
    } else {
      assert (segs + [s])[..1] == segs[..1] && (segs + [s])[1..] == segs[1..] + [s];
      AbsorbAllSnoc(segs[..1], segs[1..], s);
    }
  }
}
