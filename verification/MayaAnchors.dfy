/** Chunk boundary candidates in canonical Maya text (maya/canonicalize.py, `extract_semantic_anchors`). */
module MayaAnchors {
  import opened Base
  import opened Text
  import opened Worlds
  import opened Chunking
  import opened ChunkingTheory
  import opened MayaLines
  import opened Maya
  import opened MayaTheory

  // ---------------------------------------------------------------- UTF-8

  /** The UTF-8 bytes of one character. */
  function EncodeChar(c: char): (b: Bytes)
    ensures 1 <= |b| <= 4
  {
    var n := c as int;
    if n < 0x80 then [n as byte]
    else if n < 0x800 then [(0xC0 + n / 0x40) as byte, (0x80 + n % 0x40) as byte]
    else if n < 0x10000 then [(0xE0 + n / 0x1000) as byte, (0x80 + n / 0x40 % 0x40) as byte, (0x80 + n % 0x40) as byte]
    else
      [(0xF0 + n / 0x40000) as byte, (0x80 + n / 0x1000 % 0x40) as byte, (0x80 + n / 0x40 % 0x40) as byte, (0x80 + n % 0x40) as byte]
  }

  /** UTF-8 as RFC 3629 section 3 lays it out: the length follows from the code point, the first byte tells
      the length, and the payload bits of all bytes give the code point back. */
  lemma CharEncoded(c: char)
    ensures var n, b := c as int, EncodeChar(c);
            && (n < 0x80 ==> |b| == 1 && b[0] as int == n)
            && (0x80 <= n < 0x800 ==> |b| == 2 && 0xC2 <= b[0] < 0xE0 && n == (b[0] as int - 0xC0) * 0x40 + (b[1] as int - 0x80))
            && (0x800 <= n < 0x10000 ==>
                  && |b| == 3 && 0xE0 <= b[0] < 0xF0
                  && n == (b[0] as int - 0xE0) * 0x1000 + (b[1] as int - 0x80) * 0x40 + (b[2] as int - 0x80))
            && (0x10000 <= n ==>
                  && |b| == 4 && 0xF0 <= b[0] < 0xF5
                  && n == (b[0] as int - 0xF0) * 0x40000 + (b[1] as int - 0x80) * 0x1000 + (b[2] as int - 0x80) * 0x40
                          + (b[3] as int - 0x80))
            && forall k :: 1 <= k < |b| ==> 0x80 <= b[k] < 0xC0
  {
    var n := c as int;
    assert n / 0x1000 == n / 0x40 / 0x40 && n / 0x40000 == n / 0x1000 / 0x40;
  }

  function Encode(s: string): Bytes {
    if s == "" then [] else EncodeChar(s[0]) + Encode(s[1..])
  }

  lemma {:induction false} EncodeCat(a: string, b: string)
    ensures Encode(a + b) == Encode(a) + Encode(b)
  {
    hide EncodeChar;
    if a == "" {
      assert a + b == b;
    } else {
      EncodeCat(a[1..], b);
      assert (a + b)[1..] == a[1..] + b && (a + b)[0] == a[0];
      var first, rest := EncodeChar(a[0]), Encode(a[1..]);
      assert first + rest + Encode(b) == first + (rest + Encode(b));
    }
  }

  // ---------------------------------------------------------------- anchors

  predicate Contains(s: string, l: string) {
    exists i :: 0 <= i <= |s| && At(s, i, l)
  }

  function TypeText(t: string): string {
    "-type \"" + t + "\""
  }

  /** Whether a line is a good place for a chunk to start. */
  predicate AnchorLine(line: string) {
    || At(line, Ws(line, 0), "createNode animCurve")
    || Contains(line, TypeText("pointArray"))
    || Contains(line, TypeText("polyFaces"))
    || Contains(line, TypeText("nurbsCurve"))
    || Contains(line, TypeText("nurbsSurface"))
    || (Contains(line, ".ktv[") && At(line, Ws(line, 0), "setAttr "))
    || Contains(line, TypeText("ngst2SkinLayerDataStorage"))
    || Contains(line, TypeText("dataPolyComponent"))
  }

  /** `l in line` */
  ghost predicate Has(line: string, l: string) {
    exists a, b :: line == a + l + b
  }

  /** `line.lstrip().startswith(l)`: blanks, then `l`, then anything. */
  ghost predicate Starts(line: string, l: string) {
    exists indent, b :: Blank(indent) && line == indent + l + b
  }

  lemma HasIs(line: string, l: string)
    ensures Contains(line, l) <==> Has(line, l)
  {
    if Contains(line, l) {
      var i :| 0 <= i <= |line| && At(line, i, l);
      assert line == line[..i] + l + line[i + |l|..];
    }
    if Has(line, l) {
      var a, b :| line == a + l + b;
      assert At(line, |a|, l);
    }
  }

  lemma StartsIs(line: string, l: string)
    requires l != "" && !IsSpace(l[0])
    ensures At(line, Ws(line, 0), l) <==> Starts(line, l)
  {
    var i := Ws(line, 0);
    if At(line, i, l) {
      assert Blank(line[..i]) && line == line[..i] + l + line[i + |l|..];
    }
    if Starts(line, l) {
      var indent, b :| Blank(indent) && line == indent + l + b;
      assert line[|indent|] == l[0];
      WsIs(line, 0, |indent|);
      assert line[|indent|..|indent| + |l|] == l;
    }
  }

  predicate AnchorType(t: string) {
    || t == "pointArray" || t == "polyFaces" || t == "nurbsCurve" || t == "nurbsSurface"
    || t == "ngst2SkinLayerDataStorage" || t == "dataPolyComponent"
  }

  /** The lines marked are those that begin an animation curve, carry one of the six data types, or set a
      keyframe table. */
  lemma AnchorLineIff(line: string)
    ensures AnchorLine(line)
       <==> || Starts(line, "createNode animCurve") || (Starts(line, "setAttr ") && Has(line, ".ktv["))
            || exists t :: AnchorType(t) && Has(line, "-type \"" + t + "\"")
  {
    hide At, Ws, Contains, Blank, TypeText, Has, Starts;
    StartsIs(line, "createNode animCurve");
    StartsIs(line, "setAttr ");
    HasIs(line, ".ktv[");
    forall t: string ensures Contains(line, TypeText(t)) <==> Has(line, "-type \"" + t + "\"") { HasType(line, t); }
    HasAnchorType(line);
  }

  lemma HasType(line: string, t: string)
    ensures Contains(line, TypeText(t)) <==> Has(line, "-type \"" + t + "\"")
  {
    hide Contains, Has;
    HasIs(line, TypeText(t));
  }

  lemma HasAnchorType(line: string)
    ensures (exists t :: AnchorType(t) && Contains(line, TypeText(t)))
       <==> || Contains(line, TypeText("pointArray")) || Contains(line, TypeText("polyFaces"))
            || Contains(line, TypeText("nurbsCurve")) || Contains(line, TypeText("nurbsSurface"))
            || Contains(line, TypeText("ngst2SkinLayerDataStorage")) || Contains(line, TypeText("dataPolyComponent"))
  {
    hide Contains, TypeText;
    assert AnchorType("pointArray") && AnchorType("polyFaces") && AnchorType("nurbsCurve") && AnchorType("nurbsSurface");
    assert AnchorType("ngst2SkinLayerDataStorage") && AnchorType("dataPolyComponent");
  }

  /** The byte offset of line `k`, counting one byte for each line break. */
  function LineStart(lines: seq<string>, k: nat): nat
    requires k <= |lines|
  {
    if k == 0 then 0 else LineStart(lines, k - 1) + |Encode(lines[k - 1])| + 1
  }

  /** `a` is the offset of one of the first `n` lines, and that line is an anchor line. */
  ghost predicate Marks(lines: seq<string>, n: nat, a: nat)
    requires n <= |lines|
  {
    exists k :: 0 <= k < n && AnchorLine(lines[k]) && a == LineStart(lines, k)
  }

  predicate Increasing(s: seq<nat>) {
    forall i, j :: 0 <= i < j < |s| ==> s[i] < s[j]
  }

  predicate IncreasingTo(s: seq<nat>, end: nat) {
    Increasing(s) && forall i :: 0 <= i < |s| ==> s[i] < end
  }

  lemma IncreasingStep(s: seq<nat>, end: nat, next: nat)
    requires IncreasingTo(s, end) && end < next
    ensures IncreasingTo(s, next) && IncreasingTo(s + [end], next)
  {
  }

  /** The offsets found in the first `n` lines, and where line `n` starts. */
  ghost predicate Found(lines: seq<string>, n: nat, anchors: seq<nat>, cursor: nat)
    requires n <= |lines|
  {
    && cursor == LineStart(lines, n) && IncreasingTo(anchors, cursor)
    && forall a :: a in anchors <==> Marks(lines, n, a)
  }

  lemma FoundNone(lines: seq<string>)
    ensures Found(lines, 0, [], 0)
  {
  }

  lemma FoundStep(lines: seq<string>, n: nat, anchors: seq<nat>, cursor: nat)
    requires n < |lines| && Found(lines, n, anchors, cursor)
    ensures Found(lines, n + 1, if AnchorLine(lines[n]) then anchors + [cursor] else anchors, cursor + |Encode(lines[n])| + 1)
  {
    hide AnchorLine, Encode, Marks, IncreasingTo;
    IncreasingStep(anchors, cursor, cursor + |Encode(lines[n])| + 1);
    MarksStep(lines, n, anchors, cursor);
  }

  /** The offsets of the anchor lines, all of them and nothing else, in increasing order; so sorting and
      removing duplicates, as the code does at the end, leaves the list as it is. */
  method ExtractAnchors(text: string) returns (anchors: seq<nat>)
    ensures Increasing(anchors)
    ensures forall a :: a in anchors <==> Marks(Split(text), |Split(text)|, a)
  {
    hide Found, AnchorLine, Encode, Split;
    var lines := Split(text);
    var cursor: nat := 0;
    anchors := [];
    FoundNone(lines);
    for i := 0 to |lines|
      invariant Found(lines, i, anchors, cursor)
    {
      FoundStep(lines, i, anchors, cursor);
      if AnchorLine(lines[i]) {
        anchors := anchors + [cursor];
      }
      cursor := cursor + |Encode(lines[i])| + 1;
    }
    FoundAll(lines, anchors, cursor);
  }

  lemma FoundAll(lines: seq<string>, anchors: seq<nat>, cursor: nat)
    requires Found(lines, |lines|, anchors, cursor)
    ensures Increasing(anchors) && forall a :: a in anchors <==> Marks(lines, |lines|, a)
  {
    hide Marks;
  }

  lemma MarksNext(lines: seq<string>, n: nat, a: nat)
    requires n < |lines|
    ensures Marks(lines, n + 1, a) <==> Marks(lines, n, a) || (AnchorLine(lines[n]) && a == LineStart(lines, n))
  {
    hide AnchorLine, LineStart;
  }

  lemma MarksStep(lines: seq<string>, n: nat, anchors: seq<nat>, cursor: nat)
    requires n < |lines| && cursor == LineStart(lines, n) && forall a :: a in anchors <==> Marks(lines, n, a)
    ensures var more := if AnchorLine(lines[n]) then anchors + [cursor] else anchors;
            forall a :: a in more <==> Marks(lines, n + 1, a)
  {
    hide AnchorLine, Marks, LineStart;
    var more := if AnchorLine(lines[n]) then anchors + [cursor] else anchors;
    forall a: nat
      ensures a in more <==> Marks(lines, n + 1, a)
    {
      MarksNext(lines, n, a);
    }
  }

  // ---------------------------------------------------------------- anchors are line starts

  lemma {:induction false} JoinSplit(text: string)
    ensures Join(Split(text)) == text
  {
    if text != "" {
      var rest := Split(text[1..]);
      JoinSplit(text[1..]);
      if text[0] == '\n' {
        assert ([""] + rest)[1..] == rest;
      } else {
        var lines := [[text[0]] + rest[0]] + rest[1..];
        assert lines[1..] == rest[1..];
        assert text == [text[0]] + text[1..];
        if |rest| > 1 {
          assert [text[0]] + rest[0] + "\n" + Join(rest[1..]) == [text[0]] + (rest[0] + "\n" + Join(rest[1..]));
        }
      }
    }
  }

  lemma {:induction false} LineStartTail(lines: seq<string>, k: nat)
    requires 0 < k <= |lines|
    ensures LineStart(lines, k) == |Encode(lines[0])| + 1 + LineStart(lines[1..], k - 1)
  {
    hide Encode;
    if k > 1 {
      LineStartTail(lines, k - 1);
    }
  }

  /** In the encoded text, line `k` stands at its offset, and behind a line break unless it is the first. */
  ghost predicate LineStands(data: Bytes, lines: seq<string>, k: nat)
    requires k < |lines|
  {
    var a, line := LineStart(lines, k), Encode(lines[k]);
    && a + |line| <= |data| && data[a..a + |line|] == line
    && (if k == 0 then a == 0 else 0 < a && data[a - 1] == 10)
  }

  lemma {:induction false} LinesStand(lines: seq<string>, k: nat)
    requires k < |lines|
    ensures LineStands(Encode(Join(lines)), lines, k)
    decreases |lines|
  {
    hide Encode;
    var data := Encode(Join(lines));
    if |lines| > 1 {
      var first, rest := Encode(lines[0]), Encode(Join(lines[1..]));
      EncodeCat(lines[0], "\n");
      EncodeCat(lines[0] + "\n", Join(lines[1..]));
      LineBreak();
      assert data == first + [10] + rest;
      if k > 0 {
        LinesStand(lines[1..], k - 1);
        LineStartTail(lines, k);
        var a := LineStart(lines[1..], k - 1);
        var line := Encode(lines[k]);
        assert data[|first| + 1 + a..|first| + 1 + a + |line|] == rest[a..a + |line|];
      }
    }
  }

  lemma LineBreak()
    ensures Encode("\n") == [10]
  {
    assert "\n"[1..] == "";
  }

  /** In encoded Maya text cut at its anchors, no anchor at distance min or more lies strictly inside a
      chunk, and a chunk that ends at an anchor ends with a line break. */
  lemma ChunksEndOnLines(w: World, cfg: ChunkingConfig, text: string, forced: set<int>, i: nat, a: nat)
    requires forall p :: p in forced <==> p >= 0 && Marks(Split(text), |Split(text)|, p)
    requires i < |Chunks(w, Encode(text), 0, cfg, forced)| && a in forced
    ensures var c := Chunks(w, Encode(text), 0, cfg, forced)[i];
            && !(c.offset < a && c.offset + cfg.min <= a < c.offset + c.size)
            && (a == c.offset + c.size ==> 0 < a <= |Encode(text)| && Encode(text)[a - 1] == 10)
  {
    hide Chunks, Encode, AnchorLine, LineStart;
    var data, lines := Encode(text), Split(text);
    var c := Chunks(w, data, 0, cfg, forced)[i];
    NoForcedCutInsideAChunk(w, data, 0, cfg, forced, i, a);
    var k :| 0 <= k < |lines| && AnchorLine(lines[k]) && a == LineStart(lines, k);
    JoinSplit(text);
    LinesStand(lines, k);
    ChunksAfter(w, data, 0, cfg, forced, i);
  }
}
