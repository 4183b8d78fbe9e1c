/** Idempotence of the Maya canonicalizer: every line it emits is a line it would emit unchanged. */
module MayaTheory {
  import opened Base
  import opened Text
  import opened MayaLines
  import opened Maya

  // ---------------------------------------------------------------- locating parts of a line

  lemma {:induction false} WsIs(s: string, i: nat, j: nat)
    requires i <= j <= |s| && (forall k :: i <= k < j ==> IsSpace(s[k])) && (j < |s| ==> !IsSpace(s[j]))
    ensures Ws(s, i) == j
    decreases j - i
  {
    if i < j { WsIs(s, i + 1, j); }
  }

  lemma {:induction false} QuoteIs(s: string, i: nat, q: nat)
    requires i <= q < |s| && s[q] == '"' && forall k :: i <= k < q ==> s[k] != '"'
    ensures FindQuote(s, i) == q
    decreases q - i
  {
    if i < q { QuoteIs(s, i + 1, q); }
  }

  lemma QuotedIs(s: string, i: nat, q: nat, least: nat)
    requires i + 1 + least <= q < |s| && s[i] == '"' && s[q] == '"' && forall k :: i < k < q ==> s[k] != '"'
    ensures Quoted(s, i, least) == Some(q + 1)
  {
    assert s[i..i + 1] == "\"";
    QuoteIs(s, i + 1, q);
  }

  ghost predicate Agree(s: string, t: string, n: nat) {
    n <= |s| && n <= |t| && forall k :: 0 <= k < n ==> s[k] == t[k]
  }

  lemma WsAgree(s: string, t: string, n: nat, i: nat)
    requires Agree(s, t, n) && i <= |s| && Ws(s, i) < n
    ensures Ws(t, i) == Ws(s, i)
  {
    WsIs(t, i, Ws(s, i));
  }

  lemma AtAgree(s: string, t: string, n: nat, i: nat, l: string)
    requires Agree(s, t, n) && i + |l| <= n
    ensures At(s, i, l) == At(t, i, l)
  {
    assert s[i..i + |l|] == t[i..i + |l|];
  }

  lemma QuotedAgree(s: string, t: string, n: nat, i: nat, least: nat)
    requires Agree(s, t, n) && i <= |s| && Quoted(s, i, least).Some? && Quoted(s, i, least).value <= n
    ensures Quoted(t, i, least) == Quoted(s, i, least)
  {
    QuotedIs(t, i, Quoted(s, i, least).value - 1, least);
  }

  lemma {:induction false} WsShift(s: string, i: nat, t: string, j: nat)
    requires i <= |s| && j <= |t| && s[i..] == t[j..]
    ensures Ws(s, i) - i == Ws(t, j) - j
    decreases |s| - i
  {
    var d := Ws(s, i) - i;
    assert |s[i..]| == |t[j..]|;
    forall k | j <= k < j + d
      ensures IsSpace(t[k])
    {
      assert t[k] == t[j..][k - j] == s[i..][k - j] == s[i + (k - j)];
    }
    if j + d < |t| {
      assert t[j + d] == t[j..][d] == s[i..][d] == s[i + d];
    }
    WsIs(t, j, j + d);
  }

  // ---------------------------------------------------------------- one keyword excludes the others

  /** The first non-blank character of the line. */
  predicate First(s: string, c: char) {
    var i := Ws(s, 0);
    i < |s| && s[i] == c
  }

  /** The first non-blank character decides which patterns can match at all. */
  lemma ByFirstChar(s: string)
    ensures !First(s, '/') ==> Comment(s).None?
    ensures !First(s, 'w') ==> WorkspaceFr(s).None?
    ensures !First(s, 'f') ==> FileInfo(s).None?
    ensures !First(s, 'c') ==> ScriptNodeCreate(s).None? && !At(s, Ws(s, 0), "createNode ")
    ensures !First(s, 's') ==> SetAttrString(s).None? && PluginPayload(s).None? && !At(s, Ws(s, 0), "select ")
    ensures !First(s, 'r') ==> UuidRename(s).None?
    ensures !First(s, 'r') && !First(s, 'R') ==> !RequiresMaya(s)
  {
    hide Ws, Ws1, Quoted, ValueEnd, EndsStatement, FirstTail, TypeTail;
    FirstOf(s, "//");
    FirstOf(s, "workspace");
    FirstOf(s, "fileInfo");
    FirstOf(s, "createNode");
    FirstOf(s, "createNode ");
    FirstOf(s, "setAttr");
    FirstOf(s, "select ");
    FirstOf(s, "rename");
    if RequiresMaya(s) {
      assert FoldChar(s[Ws(s, 0) + 0], "requires"[0]);
    }
  }

  lemma FirstOf(s: string, l: string)
    requires l != ""
    ensures At(s, Ws(s, 0), l) ==> First(s, l[0])
  {
    var i := Ws(s, 0);
    if At(s, i, l) { assert s[i..i + |l|][0] == l[0]; }
  }

  lemma AtChars(s: string, i: nat, l: string)
    requires At(s, i, l)
    ensures forall k :: 0 <= k < |l| ==> s[i + k] == l[k]
  {
    forall k | 0 <= k < |l| ensures s[i + k] == l[k] {
      assert s[i..i + |l|][k] == s[i + k];
    }
  }

  /** A single space is a whole run of whitespace. */
  lemma Gap(s: string, i: nat)
    requires i + 1 < |s| && s[i] == ' ' && !IsSpace(s[i + 1])
    ensures Ws1(s, i) == Some(i + 1)
  {
    WsIs(s, i, i + 1);
  }

  /** Two keywords that differ somewhere do not both stand at `i`. */
  lemma NotBoth(s: string, i: nat, l: string, m: string, k: nat)
    requires k < |l| && k < |m| && l[k] != m[k]
    ensures !At(s, i, l) || !At(s, i, m)
  {
    if At(s, i, l) { AtChars(s, i, l); }
    if At(s, i, m) { AtChars(s, i, m); }
  }

  /** A `setAttr` line is none of the other statements. */
  lemma SetAttrLine(alnum: char -> bool, s: string)
    requires At(s, Ws(s, 0), "setAttr")
    ensures !LastModified(alnum, s) && UuidRename(s).None? && WorkspaceFr(s).None? && ScriptNodeCreate(s).None? && !StartsNode(s)
  {
    hide WorkspaceFr, ScriptNodeCreate, UuidRename, FileInfo, SetAttrString, PluginPayload, RequiresMaya, Comment, Ws, At, First;
    FirstOf(s, "setAttr");
    OneFirst(s, 's');
    ByFirstChar(s);
    NotBoth(s, Ws(s, 0), "setAttr", "select ", 2);
  }

  lemma OneFirst(s: string, c: char)
    requires First(s, c)
    ensures forall d :: First(s, d) ==> d == c
  {
  }

  // ---------------------------------------------------------------- renamed uuids

  function ZeroUuid(line: string, m: (nat, nat)): string
    requires m.0 <= m.1 <= |line|
  {
    line[..m.0] + NO_UUID + line[m.1..]
  }

  lemma UuidFixed(alnum: char -> bool, line: string)
    requires UuidRename(line).Some?
    ensures var m := UuidRename(line).value;
            var out := ZeroUuid(line, m);
            !LastModified(alnum, out) && UuidRename(out) == Some((m.0, m.0 + 38)) && ZeroUuid(out, (m.0, m.0 + 38)) == out
  {
    hide UuidRename, LastModified, UuidHead, At, Ws, Quoted, ZeroUuid;
    var m := UuidRename(line).value;
    var out := ZeroUuid(line, m);
    UuidParts(line);
    ZeroShape(line, m);
    ZeroAgain(out, m.0);
    ZeroQuoted(out, m.0);
    UuidPrefix(line, out, m.0);
    UuidEnd(line, m.1, out, m.0 + 38);
    UuidFrom(out, m.0);
    NotComment(alnum, out);
  }

  lemma ZeroShape(line: string, m: (nat, nat))
    requires m.0 < m.1 <= |line| && line[m.0] == '"'
    ensures var out := ZeroUuid(line, m);
            && Agree(line, out, m.0 + 1) && |out| == m.0 + 38 + (|line| - m.1) && out[m.0 + 38..] == line[m.1..]
            && out[..m.0] + NO_UUID + out[m.0 + 38..] == out && forall k :: 0 <= k < |NO_UUID| ==> out[m.0 + k] == NO_UUID[k]
  {
    hide Agree;
    NoQuoteInside();
    SpliceShape(line, m.0, NO_UUID, m.1);
  }

  lemma ZeroAgain(out: string, i: nat)
    requires i + 38 <= |out| && out[..i] + NO_UUID + out[i + 38..] == out
    ensures ZeroUuid(out, (i, i + 38)) == out
  {
  }

  lemma ZeroQuoted(s: string, i: nat)
    requires i + 38 <= |s| && forall k :: 0 <= k < |NO_UUID| ==> s[i + k] == NO_UUID[k]
    ensures Quoted(s, i, 1) == Some(i + 38)
  {
    hide Quoted;
    NoQuoteInside();
    assert s[i + 0] == NO_UUID[0] && s[i + 37] == NO_UUID[37];
    forall k | i < k < i + 37
      ensures s[k] != '"'
    {
      assert s[i + (k - i)] == NO_UUID[k - i];
    }
    QuotedIs(s, i, i + 37, 1);
  }

  lemma SpliceShape(line: string, i: nat, u: string, j: nat)
    requires i < j <= |line| && u != "" && u[0] == line[i]
    ensures var out := line[..i] + u + line[j..];
            && |out| == i + |u| + |line| - j && Agree(line, out, i + 1) && out[i + |u|..] == line[j..]
            && out[..i] + u + out[i + |u|..] == out && forall k :: 0 <= k < |u| ==> out[i + k] == u[k]
  {
    var out := line[..i] + u + line[j..];
    assert out[i + 0] == u[0];
  }

  lemma NoQuoteInside()
    ensures |NO_UUID| == 38 && NO_UUID[0] == NO_UUID[37] == '"' && forall k :: 0 < k < 37 ==> NO_UUID[k] != '"'
  {
  }

  /** The statement up to the uuid: everything before position `d`. */
  predicate UuidHead(s: string, d: nat) {
    var i := Ws(s, 0);
    At(s, i, "rename") &&
    match Ws1(s, i + 6)
    case None => false
    case Some(b) => At(s, b, "-uid") && Ws1(s, b + 4) == Some(d)
  }

  lemma UuidParts(s: string)
    requires UuidRename(s).Some?
    ensures var m := UuidRename(s).value;
            UuidHead(s, m.0) && Quoted(s, m.0, 1) == Some(m.1) && At(s, Ws(s, m.1), ";")
  {
    hide Ws, Ws1, Quoted, At;
  }

  lemma UuidFrom(s: string, d: nat)
    requires UuidHead(s, d) && d <= |s| && Quoted(s, d, 1).Some? && At(s, Ws(s, Quoted(s, d, 1).value), ";")
    ensures UuidRename(s) == Some((d, Quoted(s, d, 1).value))
  {
    hide Ws, Ws1, Quoted, At;
  }

  lemma UuidPrefix(s: string, t: string, d: nat)
    requires UuidHead(s, d) && Agree(s, t, d + 1)
    ensures UuidHead(t, d)
  {
    hide At, Ws, Ws1, Agree;
    var i := Ws(s, 0);
    var b := Ws1(s, i + 6).value;
    WsAgree(s, t, d + 1, 0);
    AtAgree(s, t, d + 1, i, "rename");
    Ws1Agree(s, t, d + 1, i + 6);
    AtAgree(s, t, d + 1, b, "-uid");
    Ws1Agree(s, t, d + 1, b + 4);
  }

  lemma UuidEnd(s: string, i: nat, t: string, j: nat)
    requires i <= |s| && j <= |t| && s[i..] == t[j..] && At(s, Ws(s, i), ";")
    ensures At(t, Ws(t, j), ";")
  {
    WsShift(s, i, t, j);
    var d := Ws(s, i) - i;
    assert |s[i..]| == |t[j..]|;
    assert t[j + d] == t[j..][d] == s[i..][d] == s[i + d];
    assert s[i + d..i + d + 1][0] == ';';
    assert t[j + d..j + d + 1] == ";";
  }

  lemma NotComment(alnum: char -> bool, s: string)
    requires UuidRename(s).Some?
    ensures !LastModified(alnum, s)
  {
    UuidParts(s);
    FirstOf(s, "rename");
    FirstOf(s, "//");
  }

  // ---------------------------------------------------------------- script node strings

  lemma PlaceholderCloses(s: string)
    requires s == "chimera.canonical\";"
    ensures Closes(s)
  {
    WsIs(s, 19, 19);
    assert ClosesAt(s, 17, 0);
  }

  predicate Blank(indent: string) {
    forall k :: 0 <= k < |indent| ==> IsSpace(indent[k])
  }

  lemma StringPlaceholderFixed(cfg: Settings, indent: string, attr: string)
    requires VolatileAttr(attr) && Blank(indent)
    ensures var p := StringPlaceholder(indent, attr);
            PlainStep(cfg, true, p) == (Plain(true), Some(p))
  {
    hide LastModified, UuidRename, WorkspaceFr, ScriptNodeCreate, Closes, StartsNode, StringPlaceholder, SetAttrString, At, Ws;
    var p := StringPlaceholder(indent, attr);
    var n, c := |indent|, |indent| + 10 + |attr|;
    PlaceholderParts(indent, attr);
    PlaceholderMatches(p, n, attr);
    PlaceholderCloses(p[c + 17..]);
    SetAttrLine(cfg.alnum, p);
    assert p[..n] == indent;
  }

  const TAIL := "\"" + (" " + ("-type" + (" " + ("\"string\"" + (" " + ("\"" + REST))))))
  const REST := "chimera.canonical\";"

  /** Where the pieces of the placeholder statement stand. */
  predicate Pieces(p: string, n: nat, attr: string) {
    && |p| == n + 46 + |attr|
    && Ws(p, 0) == n
    && At(p, n, "setAttr" + (" " + "\""))
    && At(p, n + 9, attr)
    && At(p, n + 9 + |attr|, TAIL)
  }

  lemma PlaceholderParts(indent: string, attr: string)
    requires VolatileAttr(attr) && Blank(indent)
    ensures var p := StringPlaceholder(indent, attr);
            Pieces(p, |indent|, attr) && p[..|indent|] == indent
  {
    hide At, VolatileAttr, Ws;
    var p := StringPlaceholder(indent, attr);
    var head := "setAttr" + (" " + "\"");
    TailIs(attr);
    RegroupPlaceholder(indent, head, attr, "\" -type \"string\" ", PLACEHOLDER);
    WsIndent(indent, p);
    AtWhole(p);
    AtSplit(p, 0, indent, head + (attr + TAIL));
    AtSplit(p, |indent|, head, attr + TAIL);
    AtSplit(p, |indent| + 9, attr, TAIL);
  }

  lemma TailIs(attr: string)
    ensures "\" -type \"string\" " + PLACEHOLDER == TAIL && "setAttr" + (" " + "\"") == "setAttr \"" && |TAIL| == 37
  {
  }

  lemma RegroupPlaceholder(i: string, a: string, b: string, c: string, d: string)
    ensures i + a + b + c + d == i + (a + (b + (c + d)))
  {
    assert a + b + c + d == a + (b + (c + d));
  }

  lemma AtWhole(s: string)
    ensures At(s, 0, s)
  {
  }

  lemma AtSplit(s: string, i: nat, a: string, b: string)
    requires At(s, i, a + b)
    ensures At(s, i, a) && At(s, i + |a|, b)
  {
    var e := i + |a| + |b|;
    assert s[i..e][..|a|] == a && s[i..e][|a|..] == b;
    SliceOfSlice(s, i, e, 0, |a|);
    SliceOfSlice(s, i, e, |a|, |a| + |b|);
  }

  /** The positions of five pieces laid end to end. */
  lemma AtFive(s: string, i: nat, a: string, b: string, c: string, d: string, e: string)
    requires At(s, i, a + (b + (c + (d + e))))
    ensures At(s, i, a) && At(s, i + |a|, b) && At(s, i + |a| + |b|, c) && At(s, i + |a| + |b| + |c|, d)
    ensures At(s, i + |a| + |b| + |c| + |d|, e)
  {
    hide At;
    AtSplit(s, i, a, b + (c + (d + e)));
    AtSplit(s, i + |a|, b, c + (d + e));
    AtSplit(s, i + |a| + |b|, c, d + e);
    AtSplit(s, i + |a| + |b| + |c|, d, e);
  }

  lemma CharAt(s: string, i: nat, c: char)
    requires At(s, i, [c])
    ensures i < |s| && s[i] == c
  {
    assert s[i..i + 1][0] == s[i];
  }

  lemma WsIndent(indent: string, p: string)
    requires Blank(indent) && |indent| < |p| && p[..|indent|] == indent && !IsSpace(p[|indent|])
    ensures Ws(p, 0) == |indent|
  {
    WsIs(p, 0, |indent|);
  }

  lemma TailPieces(p: string, c: nat)
    requires At(p, c, TAIL)
    ensures |p| >= c + 37 && At(p, c + 2, "-type") && At(p, c + 8, "\"string\"") && At(p, c + 17, "\"") && At(p, c + 18, REST)
    ensures p[c] == '"' && p[c + 1] == p[c + 7] == p[c + 16] == ' ' && p[c + 2] == '-' && p[c + 8] == '"' && p[c + 17] == '"'
  {
    hide At;
    var t6 := "\"" + REST;
    var t5 := " " + t6;
    var t4 := "\"string\"" + t5;
    var t3 := " " + t4;
    var t2 := "-type" + t3;
    AtSplit(p, c, "\"", " " + t2);
    AtSplit(p, c + 1, " ", t2);
    AtSplit(p, c + 2, "-type", t3);
    AtSplit(p, c + 7, " ", t4);
    AtSplit(p, c + 8, "\"string\"", t5);
    AtSplit(p, c + 16, " ", t6);
    AtSplit(p, c + 17, "\"", REST);
    CharAt(p, c, '"');
    CharAt(p, c + 1, ' ');
    AtChars(p, c + 2, "-type");
    CharAt(p, c + 7, ' ');
    AtChars(p, c + 8, "\"string\"");
    CharAt(p, c + 16, ' ');
    CharAt(p, c + 17, '"');
    assert p[c + 2 + 0] == "-type"[0] && p[c + 8 + 0] == "\"string\""[0];
  }

  lemma HeadPieces(p: string, n: nat)
    requires At(p, n, "setAttr" + (" " + "\""))
    ensures |p| >= n + 9 && At(p, n, "setAttr") && p[n + 7] == ' ' && p[n + 8] == '"'
  {
    hide At;
    AtSplit(p, n, "setAttr", " " + "\"");
    AtSplit(p, n + 7, " ", "\"");
    CharAt(p, n + 7, ' ');
    CharAt(p, n + 8, '"');
  }

  lemma PlaceholderMatches(p: string, n: nat, attr: string)
    requires VolatileAttr(attr) && Pieces(p, n, attr)
    ensures At(p, n, "setAttr") && SetAttrString(p) == Some((attr, n + 26 + |attr|)) && p[n + 27 + |attr|..] == REST
  {
    hide At, Ws, Ws1, Quoted, SetAttrString, VolatileAttr, StringTail;
    var c := n + 9 + |attr|;
    HeadPieces(p, n);
    TailPieces(p, c);
    Gap(p, n + 7);
    AttrQuoted(p, n, attr);
    Gap(p, c + 1);
    Gap(p, c + 7);
    Gap(p, c + 16);
    AtIs(p, n + 9, attr);
    AtIs(p, c + 18, REST);
    StringTailFrom(p, c + 1, c + 2, c + 8, c + 17);
    SetAttrFrom(p, n, n + 8, c + 1, attr, c + 17);
  }

  lemma AtIs(p: string, i: nat, l: string)
    requires At(p, i, l)
    ensures i + |l| <= |p| && p[i..i + |l|] == l
  {
  }

  lemma AttrQuoted(p: string, n: nat, attr: string)
    requires VolatileAttr(attr) && Pieces(p, n, attr)
    ensures Quoted(p, n + 8, 1) == Some(n + 10 + |attr|)
  {
    hide At, Ws, Quoted, VolatileAttr;
    HeadPieces(p, n);
    TailPieces(p, n + 9 + |attr|);
    NoQuoteInAttr(attr);
    QuotedAt(p, n + 8, attr, 1);
  }

  /** A quoted word. */
  lemma QuotedAt(p: string, i: nat, word: string, least: nat)
    requires least <= |word| && (forall k :: 0 <= k < |word| ==> word[k] != '"')
    requires i + |word| + 2 <= |p| && p[i] == '"' && At(p, i + 1, word) && p[i + 1 + |word|] == '"'
    ensures Quoted(p, i, least) == Some(i + |word| + 2)
  {
    hide Quoted;
    AtChars(p, i + 1, word);
    forall k | i < k < i + 1 + |word|
      ensures p[k] != '"'
    {
      assert p[k] == p[i + 1 + (k - i - 1)] == word[k - i - 1];
    }
    QuotedIs(p, i, i + 1 + |word|, least);
  }

  lemma NoQuoteInAttr(attr: string)
    requires VolatileAttr(attr)
    ensures attr != "" && forall k :: 0 <= k < |attr| ==> attr[k] != '"'
  {
  }

  /** The statement from its parts. */
  lemma SetAttrFrom(s: string, n: nat, b: nat, c: nat, attr: string, h: nat)
    requires Ws(s, 0) == n && At(s, n, "setAttr") && Ws1(s, n + 7) == Some(b)
    requires b <= |s| && Quoted(s, b, 1) == Some(c) && s[b + 1..c - 1] == attr && VolatileAttr(attr)
    requires StringTail(s, c) == Some(h)
    ensures SetAttrString(s) == Some((attr, h))
  {
    hide Ws, Ws1, Quoted, At, VolatileAttr, StringTail;
  }

  lemma StringTailFrom(s: string, c: nat, d: nat, f: nat, h: nat)
    requires c <= |s| && Ws1(s, c) == Some(d) && At(s, d, "-type") && Ws1(s, d + 5) == Some(f)
    requires At(s, f, "\"string\"") && Ws1(s, f + 8) == Some(h) && At(s, h, "\"")
    ensures StringTail(s, c) == Some(h)
  {
    hide Ws, Ws1, At;
  }

  // ---------------------------------------------------------------- plugin payloads

  /** The emitted line is one that the machine passes on unchanged, without changing its own state. */
  predicate Settled(cfg: Settings, script: bool, out: string) {
    PlainStep(cfg, script, out) == (Plain(script), Some(out))
  }

  lemma TailParts(s: string, p: nat) returns (b: nat, c: nat)
    requires p <= |s| && TypeTail(s, p).Some?
    ensures At(s, p, "-type") && b <= |s| && Ws1(s, p + 5) == Some(b) && Quoted(s, b, 1) == Some(c)
    ensures var d := TypeTail(s, p).value.2; Ws1(s, c) == Some(d) && At(s, d, "\"")
    ensures TypeTail(s, p).value.0 == b + 1 && TypeTail(s, p).value.1 == c - 1
  {
    hide Ws, Ws1, Quoted, At;
    b := Ws1(s, p + 5).value;
    c := Quoted(s, b, 1).value;
  }

  lemma TailFrom(s: string, p: nat, b: nat, c: nat, d: nat)
    requires At(s, p, "-type") && Ws1(s, p + 5) == Some(b) && b <= |s| && Quoted(s, b, 1) == Some(c)
    requires Ws1(s, c) == Some(d) && At(s, d, "\"")
    ensures TypeTail(s, p) == Some((b + 1, c - 1, d))
  {
    hide Ws, Ws1, Quoted, At;
  }

  lemma Ws1Agree(s: string, t: string, n: nat, i: nat)
    requires Agree(s, t, n) && i <= |s| && Ws1(s, i).Some? && Ws1(s, i).value < n
    ensures Ws1(t, i) == Ws1(s, i)
  {
    WsAgree(s, t, n, i);
  }

  /** The tail is decided by the characters up to its opening quote. */
  lemma TailAgree(s: string, t: string, n: nat, p: nat)
    requires Agree(s, t, n) && p <= |s| && TypeTail(s, p).Some? && TypeTail(s, p).value.2 < n
    ensures p <= |t| && TypeTail(t, p) == TypeTail(s, p)
  {
    hide TypeTail, Ws1, Quoted, At, Agree;
    var d := TypeTail(s, p).value.2;
    var b, c := TailParts(s, p);
    assert n <= |s| && n <= |t| by { AgreeLength(s, t, n); }
    AtAgree(s, t, n, p, "-type");
    Ws1Agree(s, t, n, p + 5);
    QuotedAgree(s, t, n, b, 1);
    Ws1Agree(s, t, n, c);
    AtAgree(s, t, n, d, "\"");
    TailFrom(t, p, b, c, d);
  }

  lemma AgreeLength(s: string, t: string, n: nat)
    requires Agree(s, t, n)
    ensures n <= |s| && n <= |t|
  {
  }

  lemma TailSpace(s: string, p: nat)
    requires p <= |s| && TypeTail(s, p).Some?
    ensures IsSpace(s[TypeTail(s, p).value.2 - 1])
  {
    hide TypeTail, At, Quoted;
    var b, c := TailParts(s, p);
  }

  /** A volatile string assignment is decided by the characters up to its opening quote. */
  lemma SetAttrAgree(s: string, t: string, n: nat)
    requires Agree(s, t, n) && SetAttrString(s).Some? && SetAttrString(s).value.1 < n
    ensures SetAttrString(t).Some?
  {
    hide SetAttrString, StringTail, Ws1, Quoted, At, Agree, VolatileAttr;
    var h := SetAttrString(s).value.1;
    var i, b, c := SetAttrParts(s);
    AgreeLength(s, t, n);
    WsAgree(s, t, n, 0);
    AtAgree(s, t, n, i, "setAttr");
    Ws1Agree(s, t, n, i + 7);
    QuotedAgree(s, t, n, b, 1);
    SliceAgree(s, t, n, b + 1, c - 1);
    StringTailAgree(s, t, n, c);
    SetAttrFrom(t, i, b, c, t[b + 1..c - 1], h);
  }

  lemma StringTailAgree(s: string, t: string, n: nat, c: nat)
    requires Agree(s, t, n) && c <= |s| && StringTail(s, c).Some? && StringTail(s, c).value < n
    ensures c <= |t| && StringTail(t, c) == StringTail(s, c)
  {
    hide StringTail, Ws1, At, Agree;
    var d, f := StringTailParts(s, c);
    var h := StringTail(s, c).value;
    AgreeLength(s, t, n);
    Ws1Agree(s, t, n, c);
    AtAgree(s, t, n, d, "-type");
    Ws1Agree(s, t, n, d + 5);
    AtAgree(s, t, n, f, "\"string\"");
    Ws1Agree(s, t, n, f + 8);
    AtAgree(s, t, n, h, "\"");
    StringTailFrom(t, c, d, f, h);
  }

  lemma StringTailParts(s: string, c: nat) returns (d: nat, f: nat)
    requires c <= |s| && StringTail(s, c).Some?
    ensures c < d && Ws1(s, c) == Some(d) && At(s, d, "-type") && d + 5 < f && Ws1(s, d + 5) == Some(f)
    ensures At(s, f, "\"string\"") && Ws1(s, f + 8) == StringTail(s, c) && At(s, StringTail(s, c).value, "\"")
  {
    hide Ws, Ws1, At;
    d := Ws1(s, c).value;
    f := Ws1(s, d + 5).value;
  }

  lemma SliceAgree(s: string, t: string, n: nat, i: nat, j: nat)
    requires Agree(s, t, n) && i <= j <= n
    ensures s[i..j] == t[i..j]
  {
  }

  lemma SetAttrParts(s: string) returns (i: nat, b: nat, c: nat)
    requires SetAttrString(s).Some?
    ensures Ws(s, 0) == i && At(s, i, "setAttr") && i + 7 < b && Ws1(s, i + 7) == Some(b)
    ensures b <= |s| && Quoted(s, b, 1) == Some(c) && VolatileAttr(s[b + 1..c - 1])
    ensures StringTail(s, c) == Some(SetAttrString(s).value.1)
  {
    hide Ws, Ws1, Quoted, At, VolatileAttr, StringTail;
    i := Ws(s, 0);
    b := Ws1(s, i + 7).value;
    c := Quoted(s, b, 1).value;
  }

  lemma SetAttrSpace(s: string)
    requires SetAttrString(s).Some?
    ensures SetAttrString(s).value.1 > 0 && IsSpace(s[SetAttrString(s).value.1 - 1])
  {
    hide SetAttrString, StringTail, At, Quoted, VolatileAttr;
    var i, b, c := SetAttrParts(s);
    var d, f := StringTailParts(s, c);
  }

  lemma {:induction false} FirstTailIs(s: string, b: nat, p: nat)
    requires b <= p <= |s| && TypeTail(s, p).Some? && forall q :: b <= q < p ==> TypeTail(s, q).None?
    ensures FirstTail(s, b) == Some(p)
    decreases p - b
  {
    hide TypeTail;
    if b < p { FirstTailIs(s, b + 1, p); }
  }

  lemma PayloadParts(s: string) returns (i: nat, b: nat, p: nat)
    requires PluginPayload(s).Some?
    ensures Ws(s, 0) == i && At(s, i, "setAttr") && i + 7 < b <= p && Ws1(s, i + 7) == Some(b)
    ensures b <= |s| && FirstTail(s, b) == Some(p) && p <= |s| && TypeTail(s, p).Some?
    ensures var t := TypeTail(s, p).value; PluginPayload(s) == Some((s[t.0..t.1], t.2))
  {
    hide Ws, Ws1, TypeTail, At;
    i := Ws(s, 0);
    b := Ws1(s, i + 7).value;
    p := FirstTail(s, b).value;
  }

  lemma PayloadFrom(s: string, i: nat, b: nat, p: nat)
    requires Ws(s, 0) == i && At(s, i, "setAttr") && Ws1(s, i + 7) == Some(b)
    requires b <= |s| && FirstTail(s, b) == Some(p) && p <= |s| && TypeTail(s, p).Some?
    ensures var t := TypeTail(s, p).value; PluginPayload(s) == Some((s[t.0..t.1], t.2))
  {
    hide Ws, Ws1, FirstTail, TypeTail, At;
  }

  /** `out` keeps `line` up to the payload's opening quote and has no other quote that follows a space. */
  ghost predicate Shortened(line: string, e: nat, out: string) {
    && e < |line| && Agree(line, out, e + 1) && |out| == e + 20 && out[e + 1..] == REST
    && forall d :: e < d < |out| && out[d] == '"' ==> !IsSpace(out[d - 1])
  }

  lemma PayloadShape(line: string, e: nat)
    requires e < |line| && line[e] == '"'
    ensures Shortened(line, e, line[..e] + PLACEHOLDER)
    ensures var out := line[..e] + PLACEHOLDER; out[..e] == line[..e] && out[e + 1..] == REST
  {
    var out := line[..e] + PLACEHOLDER;
    assert PLACEHOLDER == "\"" + REST;
    assert |REST| == 19;
    assert forall k :: 0 <= k < 20 ==> out[e + k] == PLACEHOLDER[k];
    assert out[e] == PLACEHOLDER[0];
    forall d | e < d < |out| && out[d] == '"'
      ensures !IsSpace(out[d - 1])
    {
      assert out[d] == PLACEHOLDER[d - e] && out[d - 1] == PLACEHOLDER[d - 1 - e];
      OneQuote(d - e);
    }
  }

  lemma OneQuote(k: nat)
    requires 0 < k < 20 && PLACEHOLDER[k] == '"'
    ensures !IsSpace(PLACEHOLDER[k - 1])
  {
    assert k == 18;
  }

  lemma PayloadAgain(line: string, out: string)
    requires PluginPayload(line).Some? && Shortened(line, PluginPayload(line).value.1, out)
    ensures At(line, Ws(line, 0), "setAttr") && At(out, Ws(out, 0), "setAttr") && PluginPayload(out) == PluginPayload(line)
    ensures SetAttrString(out).Some? ==> SetAttrString(line).Some?
  {
    hide PluginPayload, TypeTail, Ws1, At, FirstTail, SetAttrString;
    var e := PluginPayload(line).value.1;
    var i, b, p := PayloadParts(line);
    WsAgree(line, out, e + 1, 0);
    AtAgree(line, out, e + 1, i, "setAttr");
    Ws1Agree(line, out, e + 1, i + 7);
    TailAgree(line, out, e + 1, p);
    forall q | b <= q < p
      ensures TypeTail(out, q).None?
    {
      if TypeTail(out, q).Some? {
        TailSpace(out, q);
        TailAgree(out, line, e + 1, q);
        assert false;
      }
    }
    FirstTailIs(out, b, p);
    PayloadFrom(out, i, b, p);
    var t := TypeTail(line, p).value;
    SliceAgree(line, out, e + 1, t.0, t.1);
    if SetAttrString(out).Some? {
      SetAttrSpace(out);
      SetAttrAgree(out, line, e + 1);
    }
  }

  lemma PayloadFixed(cfg: Settings, script: bool, line: string)
    requires IsPayload(cfg, line) && !(script && SetAttrString(line).Some?)
    ensures At(line, Ws(line, 0), "setAttr") && Settled(cfg, script, line[..PluginPayload(line).value.1] + PLACEHOLDER)
  {
    hide LastModified, UuidRename, WorkspaceFr, ScriptNodeCreate, Closes, StartsNode, SetAttrString, PluginPayload, At, Ws,
         VolatileType, Shortened;
    var e := PluginPayload(line).value.1;
    var out := line[..e] + PLACEHOLDER;
    PayloadShape(line, e);
    PayloadAgain(line, out);
    SetAttrLine(cfg.alnum, out);
    PlaceholderCloses(out[e + 1..]);
  }

  // ---------------------------------------------------------------- stateless normalizations

  lemma IndentedChars(indent: string, l: string)
    requires Blank(indent) && l != "" && !IsSpace(l[0])
    ensures var out := indent + l;
            Ws(out, 0) == |indent| && Indent(out) == indent && At(out, |indent|, l)
            && forall k :: 0 <= k < |l| ==> out[|indent| + k] == l[k]
  {
    hide At, Ws;
    var out := indent + l;
    AtWhole(out);
    AtSplit(out, 0, indent, l);
    AtChars(out, |indent|, l);
    assert out[|indent|] == l[0];
    WsIndent(indent, out);
  }

  /** A line no earlier step touches and Tidy keeps is settled in every state. */
  lemma SettledLine(cfg: Settings, script: bool, s: string)
    requires !LastModified(cfg.alnum, s) && UuidRename(s).None? && Tidy(cfg, s) == s
    requires !First(s, 'w') && !First(s, 'c') && !First(s, 's')
    ensures Settled(cfg, script, s)
  {
    hide LastModified, UuidRename, WorkspaceFr, ScriptNodeCreate, SetAttrString, PluginPayload, At, Tidy, First;
    ByFirstChar(s);
  }

  lemma CommentShape(s: string)
    requires At(s, Ws(s, 0), "//")
    ensures First(s, '/') && Comment(s) == Some(Ws(s, 0) + 2)
  {
    FirstOf(s, "//");
  }

  lemma CreatedFixed(cfg: Settings, indent: string, script: bool)
    requires Blank(indent)
    ensures Settled(cfg, script, indent + "// Created by Maya")
  {
    hide *;
    var out := indent + "// Created by Maya";
    CommentPart(indent, " Created by Maya", "// Created by Maya");
    CreatedMatches(cfg.alnum, out, |indent|);
    NotLastModified(cfg.alnum, out, |indent|, " Created by Maya");
    CommentSettled(cfg, script, out, indent, "// Created by Maya");
  }

  lemma HeaderFixed(cfg: Settings, indent: string, script: bool)
    requires Blank(indent)
    ensures Settled(cfg, script, indent + "//Maya ASCII scene")
  {
    hide *;
    var out := indent + "//Maya ASCII scene";
    CommentPart(indent, "Maya ASCII scene", "//Maya ASCII scene");
    HeaderMatches(cfg.alnum, out, |indent|);
    NotCreated(cfg.alnum, out, |indent|);
    NotLastModified(cfg.alnum, out, |indent|, "Maya ASCII scene");
    CommentSettled(cfg, script, out, indent, "//Maya ASCII scene");
  }

  /** A comment that one of the two comment rules maps to itself. */
  lemma CommentSettled(cfg: Settings, script: bool, out: string, indent: string, l: string)
    requires First(out, '/') && !LastModified(cfg.alnum, out) && Indent(out) == indent && out == indent + l
    requires (l == "// Created by Maya" && CreatedByMaya(cfg.alnum, out))
          || (l == "//Maya ASCII scene" && MayaAsciiHeader(cfg.alnum, out) && !CreatedByMaya(cfg.alnum, out))
    ensures Settled(cfg, script, out)
  {
    hide First, LastModified, CreatedByMaya, MayaAsciiHeader, Indent, Settled, UuidRename, RequiresMaya, FileInfo;
    OneFirst(out, '/');
    ByFirstChar(out);
    SettledLine(cfg, script, out);
  }

  lemma CommentPart(indent: string, l: string, whole: string)
    requires Blank(indent) && whole == "//" + l
    ensures var out := indent + whole;
            && |out| == |indent| + 2 + |l| && Ws(out, 0) == |indent| && Indent(out) == indent && out[|indent| + 1] == '/'
            && First(out, '/') && Comment(out) == Some(|indent| + 2) && At(out, |indent| + 2, l)
  {
    hide Ws, At, Comment, First;
    var out := indent + whole;
    IndentedChars(indent, whole);
    AtSplit(out, |indent|, "//", l);
    CommentShape(out);
    assert out[|indent| + 1] == whole[1];
  }

  lemma CreatedMatches(alnum: char -> bool, out: string, n: nat)
    requires Comment(out) == Some(n + 2) && |out| == n + 18 && At(out, n + 2, " Created by Maya")
    ensures CreatedByMaya(alnum, out)
  {
    hide At, Comment;
    var l, m := " Created by Maya", "created by maya";
    AtChars(out, n + 2, l);
    Folds();
    assert forall k :: 0 <= k < 15 ==> out[n + 3 + k] == out[n + 2 + (k + 1)] == l[k + 1] && FoldChar(l[k + 1], m[k]);
    assert FoldAt(out, n + 3, m);
    assert out[n + 2 + 0] == l[0];
  }

  lemma Folds()
    ensures forall k :: 0 <= k < 15 ==> FoldChar(" Created by Maya"[k + 1], "created by maya"[k])
  {
  }

  lemma HeaderMatches(alnum: char -> bool, out: string, n: nat)
    requires Comment(out) == Some(n + 2) && |out| == n + 18 && At(out, n + 2, "Maya ASCII scene") && out[n + 1] == '/'
    ensures MayaAsciiHeader(alnum, out)
  {
    hide At, Comment;
    assert "Maya ASCII scene" == "Maya ASCII" + (" " + "scene");
    AtSplit(out, n + 2, "Maya ASCII", " " + "scene");
    AtSplit(out, n + 12, " ", "scene");
    CharAt(out, n + 12, ' ');
  }

  lemma FoldFirst(s: string, i: nat, l: string)
    requires l != "" && i < |s|
    ensures FoldAt(s, i, l) ==> FoldChar(s[i], l[0])
  {
    if FoldAt(s, i, l) { assert FoldChar(s[i + 0], l[0]); }
  }

  lemma NotCreated(alnum: char -> bool, out: string, n: nat)
    requires Comment(out) == Some(n + 2) && |out| == n + 18 && At(out, n + 2, "Maya ASCII scene")
    ensures !CreatedByMaya(alnum, out)
  {
    hide At, Comment;
    var l, m := "Maya ASCII scene", "created by maya";
    AtChars(out, n + 2, l);
    assert out[n + 2 + 0] == l[0] && out[n + 2 + 1] == l[1];
    FoldFirst(out, n + 2, m);
    FoldFirst(out, n + 3, m);
  }

  lemma NotLastModified(alnum: char -> bool, out: string, n: nat, l: string)
    requires Comment(out) == Some(n + 2) && |out| == n + 18 && At(out, n + 2, l) && |l| == 16
    requires l[0] in " M" && l[1] in "Ca" && l[2] in "ry"
    ensures !LastModified(alnum, out)
  {
    hide At, Comment;
    var m := "last modified:";
    AtChars(out, n + 2, l);
    assert out[n + 2 + 0] == l[0] && out[n + 2 + 1] == l[1] && out[n + 2 + 2] == l[2];
    FoldFirst(out, n + 2, m);
    FoldFirst(out, n + 3, m);
    FoldFirst(out, n + 4, m);
  }

  // ---------------------------------------------------------------- statements with a replaced value

  lemma {:induction false} ValueEndIs(s: string, i: nat, j: nat)
    requires i <= j < |s| && s[j] == '"' && forall k :: i <= k < j ==> s[k] != '"' && s[k] != '\\'
    ensures ValueEnd(s, i) == j
    decreases j - i
  {
    if i < j { ValueEndIs(s, i + 1, j); }
  }

  lemma PlainName(k: nat)
    requires k < 17
    ensures |REST| == 19 && REST[k] != '"' && REST[k] != '\\'
  {
  }

  /** The placeholder read as a quoted value that ends the statement. */
  lemma PlaceholderValue(s: string, c: nat)
    requires |s| == c + 20 && At(s, c, PLACEHOLDER)
    ensures s[c] == '"' && At(s, c, "\"") && Quoted(s, c, 0) == Some(c + 19)
    ensures ValueEnd(s, c + 1) == c + 18 && At(s, c + 18, "\"") && EndsStatement(s, c + 19)
  {
    hide At, Quoted;
    var name := "chimera.canonical";
    assert PLACEHOLDER == "\"" + (name + ("\"" + ";"));
    AtSplit(s, c, "\"", name + ("\"" + ";"));
    AtSplit(s, c + 1, name, "\"" + ";");
    AtSplit(s, c + 18, "\"", ";");
    CharAt(s, c, '"');
    CharAt(s, c + 18, '"');
    CharAt(s, c + 19, ';');
    AtChars(s, c + 1, name);
    forall k | c < k < c + 18
      ensures s[k] != '"' && s[k] != '\\'
    {
      PlainName(k - c - 1);
      assert s[k] == s[c + 1 + (k - c - 1)] == name[k - c - 1] == REST[k - c - 1];
    }
    QuotedIs(s, c, c + 18, 0);
    ValueEndIs(s, c + 1, c + 18);
    WsIs(s, c + 19, c + 19);
    WsIs(s, c + 20, c + 20);
  }

  lemma FoldOfAt(s: string, i: nat, l: string)
    requires At(s, i, l) && forall k :: 0 <= k < |l| ==> LowerChar(l[k]) == l[k]
    ensures FoldAt(s, i, l)
  {
    AtChars(s, i, l);
  }

  lemma RegroupFour(i: string, a: string, b: string, c: string, d: string, p: string)
    ensures i + (a + (b + (c + d))) + p == i + (a + (b + (c + (d + p))))
  {
    var x := a + (b + (c + d));
    assert x + p == a + (b + (c + (d + p)));
  }

  lemma RequiresShape(indent: string)
    requires Blank(indent)
    ensures var out := indent + "requires maya " + PLACEHOLDER;
            var n := |indent|;
            && |out| == n + 34 && Ws(out, 0) == n && Indent(out) == indent && At(out, n, "requires") && out[n + 8] == ' '
            && At(out, n + 9, "maya") && out[n + 9] == 'm' && out[n + 13] == ' ' && At(out, n + 14, PLACEHOLDER)
  {
    hide At, Ws;
    var out := indent + "requires maya " + PLACEHOLDER;
    var n := |indent|;
    var body := "requires" + (" " + ("maya" + (" " + PLACEHOLDER)));
    assert "requires" + (" " + ("maya" + " ")) == "requires maya ";
    RegroupFour(indent, "requires", " ", "maya", " ", PLACEHOLDER);
    IndentedChars(indent, body);
    AtFive(out, n, "requires", " ", "maya", " ", PLACEHOLDER);
    CharAt(out, n + 8, ' ');
    CharAt(out, n + 13, ' ');
    AtChars(out, n + 9, "maya");
    assert out[n + 9 + 0] == "maya"[0];
  }

  lemma RequiresMatches(indent: string)
    requires Blank(indent)
    ensures var out := indent + "requires maya " + PLACEHOLDER;
            RequiresMaya(out) && Indent(out) == indent && First(out, 'r') && UuidRename(out).None?
  {
    hide At, Ws, FoldAt, Quoted, EndsStatement, UuidRename;
    var out := indent + "requires maya " + PLACEHOLDER;
    var n := |indent|;
    RequiresShape(indent);
    PlaceholderValue(out, n + 14);
    FirstOf(out, "requires");
    Gap(out, n + 8);
    Gap(out, n + 13);
    FoldOfAt(out, n, "requires");
    FoldOfAt(out, n + 9, "maya");
    NotBoth(out, n, "requires", "rename", 2);
    if UuidRename(out).Some? {
      RenameAt(out);
    }
  }

  lemma RenameAt(s: string)
    requires UuidRename(s).Some?
    ensures At(s, Ws(s, 0), "rename")
  {
    hide Ws, Ws1, Quoted, At;
  }

  lemma RequiresFixed(cfg: Settings, indent: string, script: bool)
    requires Blank(indent)
    ensures Settled(cfg, script, indent + "requires maya " + PLACEHOLDER)
  {
    hide Ws, At, Comment, Settled, First, UuidRename, RequiresMaya;
    var out := indent + "requires maya " + PLACEHOLDER;
    RequiresMatches(indent);
    OneFirst(out, 'r');
    ByFirstChar(out);
    SettledLine(cfg, script, out);
  }

  lemma FileInfoShape(indent: string, key: string)
    requires Blank(indent)
    ensures var out := indent + "fileInfo \"" + key + "\" " + PLACEHOLDER;
            var n := |indent|;
            var c := n + 11 + |key|;
            && |out| == c + 21 && Ws(out, 0) == n && Indent(out) == indent && At(out, n, "fileInfo") && out[n + 8] == ' '
            && out[n + 9] == '"' && At(out, n + 10, key) && out[c - 1] == '"' && out[c] == ' ' && At(out, c + 1, PLACEHOLDER)
  {
    FileInfoPieces(indent, "fileInfo \"", key, "\" ", PLACEHOLDER);
    assert "fileInfo \""[0] == 'f';
    var out := indent + "fileInfo \"" + key + "\" " + PLACEHOLDER;
    FileInfoEdges(out, |indent|, |indent| + 10 + |key|);
  }

  lemma FileInfoPieces(indent: string, a: string, key: string, b: string, p: string)
    requires Blank(indent) && a != "" && !IsSpace(a[0])
    ensures var out := indent + a + key + b + p;
            var n := |indent|;
            && |out| == n + |a| + |key| + |b| + |p| && Ws(out, 0) == n && Indent(out) == indent
            && At(out, n, a) && At(out, n + |a|, key) && At(out, n + |a| + |key|, b) && At(out, n + |a| + |key| + |b|, p)
  {
    hide At, Ws;
    var out := indent + a + key + b + p;
    RegroupPlaceholder(indent, a, key, b, p);
    AtWhole(out);
    AtFive(out, 0, indent, a, key, b, p);
    assert out[|indent|] == a[0] && out[..|indent|] == indent;
    WsIndent(indent, out);
  }

  /** The single characters around the quoted key. */
  lemma FileInfoEdges(out: string, n: nat, c: nat)
    requires At(out, n, "fileInfo \"") && At(out, c, "\" ")
    ensures n + 10 <= |out| && At(out, n, "fileInfo") && out[n + 8] == ' ' && out[n + 9] == '"'
    ensures c + 2 <= |out| && out[c] == '"' && out[c + 1] == ' '
  {
    hide At;
    assert "fileInfo \"" == "fileInfo" + (" " + "\"") && "\" " == "\"" + " ";
    AtSplit(out, n, "fileInfo", " " + "\"");
    AtSplit(out, n + 8, " ", "\"");
    AtSplit(out, c, "\"", " ");
    CharAt(out, n + 8, ' ');
    CharAt(out, n + 9, '"');
    CharAt(out, c, '"');
    CharAt(out, c + 1, ' ');
  }

  lemma FileInfoFrom(s: string, n: nat, b: nat, c: nat, d: nat, key: string)
    requires Ws(s, 0) == n && At(s, n, "fileInfo") && Ws1(s, n + 8) == Some(b) && b <= |s| && Quoted(s, b, 1) == Some(c)
    requires s[b + 1..c - 1] == key && Ws1(s, c) == Some(d) && At(s, d, "\"")
    requires d + 1 <= |s| && At(s, ValueEnd(s, d + 1), "\"") && EndsStatement(s, ValueEnd(s, d + 1) + 1)
    ensures FileInfo(s) == Some(key)
  {
    hide Ws, Ws1, Quoted, At, ValueEnd, EndsStatement;
  }

  lemma FileInfoFixed(cfg: Settings, indent: string, key: string, script: bool)
    requires Blank(indent) && key in VolatileKeys && key != "" && forall k :: 0 <= k < |key| ==> key[k] != '"'
    ensures Settled(cfg, script, indent + "fileInfo \"" + key + "\" " + PLACEHOLDER)
  {
    hide Ws, Ws1, At, Comment, Settled, First, UuidRename, RequiresMaya, FileInfo, VolatileKeys, ValueEnd, EndsStatement, Quoted;
    var out := indent + "fileInfo \"" + key + "\" " + PLACEHOLDER;
    var n := |indent|;
    var c := n + 11 + |key|;
    FileInfoShape(indent, key);
    PlaceholderValue(out, c + 1);
    Gap(out, n + 8);
    Gap(out, c);
    QuotedAt(out, n + 9, key, 1);
    AtIs(out, n + 10, key);
    FileInfoFrom(out, n, n + 9, c, c + 1, key);
    FirstOf(out, "fileInfo");
    OneFirst(out, 'f');
    ByFirstChar(out);
    SettledLine(cfg, script, out);
  }

  lemma IndentIsBlank(line: string)
    ensures Blank(Indent(line))
  {
  }

  lemma TidyFixed(cfg: Settings, script: bool, line: string)
    ensures Tidy(cfg, line) != line ==> Settled(cfg, script, Tidy(cfg, line)) && !StartsNode(line)
  {
    hide CreatedByMaya, MayaAsciiHeader, RequiresMaya, FileInfo, At, Ws, First, Indent, Settled, Blank;
    IndentIsBlank(line);
    var indent := Indent(line);
    CreatedFixed(cfg, indent, script);
    HeaderFixed(cfg, indent, script);
    RequiresFixed(cfg, indent, script);
    if FileInfo(line).Some? && FileInfo(line).value in VolatileKeys {
      FileInfoFixed(cfg, indent, FileInfo(line).value, script);
    }
    NotANode(cfg, line);
  }

  lemma NotANode(cfg: Settings, line: string)
    ensures CreatedByMaya(cfg.alnum, line) || MayaAsciiHeader(cfg.alnum, line) || RequiresMaya(line) || FileInfo(line).Some? ==>
              !StartsNode(line)
  {
    hide RequiresMaya, FileInfo, At, Ws, First, Comment;
    ByFirstChar(line);
    forall c | First(line, c)
      ensures forall d :: First(line, d) ==> d == c
    {
      OneFirst(line, c);
    }
  }

  // ---------------------------------------------------------------- the machine

  /** The placeholder a swallowing mode will emit is settled. */
  predicate GoodMode(cfg: Settings, mode: Mode) {
    match mode
    case Plain(_) => true
    case InString(script, indent, attr) => Settled(cfg, script, StringPlaceholder(indent, attr))
    case InPayload(script, prefix) => Settled(cfg, script, prefix + PLACEHOLDER)
  }

  /** A line emitted outside a swallowed string is passed on unchanged the second time, with the same
      next state; a line that emits nothing leaves the script-node flag alone. */
  lemma PlainStepFixed(cfg: Settings, script: bool, line: string)
    ensures var r := PlainStep(cfg, script, line);
            && (r.1.Some? ==> r.0.Plain? && PlainStep(cfg, script, r.1.value) == r)
            && (r.1.None? ==> r.0.inScript == script && GoodMode(cfg, r.0))
  {
    hide LastModified, UuidRename, WorkspaceFr, ScriptNodeCreate, Closes, StartsNode, SetAttrString, PluginPayload, At, Ws,
         VolatileType, StringPlaceholder, Tidy, ZeroUuid, Indent, Blank;
    if UuidRename(line).Some? {
      UuidFixed(cfg.alnum, line);
      ZeroUuidIs(line, UuidRename(line).value);
      ZeroUuidIs(ZeroUuid(line, UuidRename(line).value), (UuidRename(line).value.0, UuidRename(line).value.0 + 38));
    }
    if script && SetAttrString(line).Some? {
      IndentIsBlank(line);
      StringPlaceholderFixed(cfg, Indent(line), SetAttrString(line).value.0);
      var i, b, c := SetAttrParts(line);
      SetAttrLine(cfg.alnum, line);
    } else if IsPayload(cfg, line) {
      PayloadFixed(cfg, script, line);
      SetAttrLine(cfg.alnum, line);
    }
    TidyFixed(cfg, script, line);
  }

  lemma ZeroUuidIs(line: string, m: (nat, nat))
    requires m.0 <= m.1 <= |line|
    ensures ZeroUuid(line, m) == line[..m.0] + NO_UUID + line[m.1..]
  {
  }

  lemma PassesOn(cfg: Settings, mode: Mode, next: Mode, line: string, rest: seq<string>)
    requires Step(cfg, mode, line) == (next, Some(line)) && Process(cfg, next, rest) == rest
    ensures Process(cfg, mode, [line] + rest) == [line] + rest
  {
    hide Step;
    var out := [line] + rest;
    assert out[0] == line && out[1..] == rest;
  }

  /** Processing what was emitted from `mode` on, outside any string, changes nothing. */
  lemma {:induction false} ProcessIdempotent(cfg: Settings, mode: Mode, lines: seq<string>)
    requires GoodMode(cfg, mode)
    ensures var out := Process(cfg, mode, lines); Process(cfg, Plain(mode.inScript), out) == out
    decreases lines
  {
    hide PlainStep, Closes, StringPlaceholder;
    if lines != [] {
      var r := Step(cfg, mode, lines[0]);
      if mode.Plain? { PlainStepFixed(cfg, mode.inScript, lines[0]); }
      var rest := Process(cfg, r.0, lines[1..]);
      ProcessIdempotent(cfg, r.0, lines[1..]);
      if r.1.Some? {
        PassesOn(cfg, Plain(mode.inScript), r.0, r.1.value, rest);
      } else {
        assert [] + rest == rest;
      }
    }
  }

  // ---------------------------------------------------------------- text

  /** A line in the split sense: no line break in it. */
  predicate OneLine(s: string) {
    forall k :: 0 <= k < |s| ==> s[k] != '\n' && s[k] != '\r'
  }

  predicate OneLines(lines: seq<string>) {
    forall k :: 0 <= k < |lines| ==> OneLine(lines[k])
  }

  predicate NoReturn(s: string) {
    forall k :: 0 <= k < |s| ==> s[k] != '\r'
  }

  lemma {:induction false} NewlinesRemoved(text: string)
    ensures NoReturn(UnixNewlines(text))
    ensures NoReturn(text) ==> UnixNewlines(text) == text
    decreases |text|
  {
    if text != "" {
      NewlinesRemoved(text[1..]);
      if text[0] == '\r' && |text| > 1 && text[1] == '\n' {
        NewlinesRemoved(text[2..]);
      }
    }
  }

  lemma {:induction false} SplitLines(text: string)
    requires NoReturn(text)
    ensures OneLines(Split(text))
  {
    if text != "" {
      SplitLines(text[1..]);
    }
  }

  /** Splitting at the first line break. */
  lemma {:induction false} SplitLine(line: string, rest: string)
    requires OneLine(line)
    ensures Split(line) == [line]
    ensures Split(line + "\n" + rest) == [line] + Split(rest)
  {
    if line == "" {
      assert ("\n" + rest)[1..] == rest && line + "\n" + rest == "\n" + rest;
    } else {
      SplitLine(line[1..], rest);
      assert (line + "\n" + rest)[1..] == line[1..] + "\n" + rest;
      assert [line[0]] + line[1..] == line;
    }
  }

  lemma {:induction false} SplitJoin(lines: seq<string>)
    requires OneLines(lines) && lines != []
    ensures Split(Join(lines)) == lines && NoReturn(Join(lines))
  {
    if |lines| == 1 {
      SplitLine(lines[0], "");
    } else {
      SplitJoin(lines[1..]);
      SplitLine(lines[0], Join(lines[1..]));
    }
  }

  predicate OneLineMode(mode: Mode) {
    match mode
    case Plain(_) => true
    case InString(_, indent, attr) => OneLine(indent) && OneLine(attr)
    case InPayload(_, prefix) => OneLine(prefix)
  }

  lemma OneLineCat(a: string, b: string)
    requires OneLine(a) && OneLine(b)
    ensures OneLine(a + b)
  {
  }

  lemma PlaceholdersAreOneLine(indent: string, attr: string, prefix: string)
    requires OneLine(indent) && OneLine(attr) && OneLine(prefix)
    ensures OneLine(StringPlaceholder(indent, attr)) && OneLine(prefix + PLACEHOLDER)
  {
    OneLineCat(indent, "setAttr \"");
    OneLineCat(indent + "setAttr \"", attr);
    OneLineCat(indent + "setAttr \"" + attr, "\" -type \"string\" ");
    OneLineCat(indent + "setAttr \"" + attr + "\" -type \"string\" ", PLACEHOLDER);
    OneLineCat(prefix, PLACEHOLDER);
  }

  lemma TidyIsOneLine(cfg: Settings, line: string)
    requires OneLine(line)
    ensures OneLine(Tidy(cfg, line))
  {
    hide CreatedByMaya, MayaAsciiHeader, RequiresMaya, OneLine;
    var indent := Indent(line);
    assert OneLine(indent) by { OneLineSlice(line, 0, Ws(line, 0)); }
    LiteralLines();
    OneLineCat(indent, "// Created by Maya");
    OneLineCat(indent, "//Maya ASCII scene");
    OneLineCat(indent, "requires maya ");
    OneLineCat(indent + "requires maya ", PLACEHOLDER);
    if FileInfo(line).Some? {
      var key := FileInfo(line).value;
      KeyIsOneLine(line);
      OneLineCat(indent, "fileInfo \"");
      OneLineCat(indent + "fileInfo \"", key);
      OneLineCat(indent + "fileInfo \"" + key, "\" ");
      OneLineCat(indent + "fileInfo \"" + key + "\" ", PLACEHOLDER);
    }
  }

  lemma LiteralLines()
    ensures OneLine("// Created by Maya") && OneLine("//Maya ASCII scene") && OneLine("requires maya ") && OneLine("fileInfo \"")
    ensures OneLine("\" ") && OneLine(PLACEHOLDER) && OneLine(NO_UUID)
  {
  }

  lemma OneLineSlice(line: string, i: nat, j: nat)
    requires OneLine(line) && i <= j <= |line|
    ensures OneLine(line[i..j])
  {
  }

  lemma KeyIsOneLine(line: string)
    requires OneLine(line) && FileInfo(line).Some?
    ensures OneLine(FileInfo(line).value)
  {
    hide Ws, Ws1, ValueEnd, EndsStatement, Quoted, OneLine, At;
    var b := Ws1(line, Ws(line, 0) + 8).value;
    OneLineSlice(line, b + 1, Quoted(line, b, 1).value - 1);
  }

  lemma StepIsOneLine(cfg: Settings, mode: Mode, line: string)
    requires OneLine(line) && OneLineMode(mode)
    ensures var r := Step(cfg, mode, line); OneLineMode(r.0) && (r.1.Some? ==> OneLine(r.1.value))
  {
    hide LastModified, UuidRename, WorkspaceFr, ScriptNodeCreate, Closes, StartsNode, SetAttrString, PluginPayload, Ws,
         VolatileType, StringPlaceholder, Tidy, OneLine;
    LiteralLines();
    TidyIsOneLine(cfg, line);
    OneLineSlice(line, 0, Ws(line, 0));
    if UuidRename(line).Some? {
      var m := UuidRename(line).value;
      OneLineSlice(line, 0, m.0);
      OneLineSlice(line, m.1, |line|);
      assert line[m.1..] == line[m.1..|line|];
      OneLineCat(line[..m.0], NO_UUID);
      OneLineCat(line[..m.0] + NO_UUID, line[m.1..]);
    }
    if SetAttrString(line).Some? {
      AttrIsOneLine(SetAttrString(line).value.0);
      PlaceholdersAreOneLine(Indent(line), SetAttrString(line).value.0, Indent(line));
    }
    if PluginPayload(line).Some? {
      var prefix := line[..PluginPayload(line).value.1];
      OneLineSlice(line, 0, PluginPayload(line).value.1);
      PlaceholdersAreOneLine(prefix, prefix, prefix);
    }
    match mode
    case Plain(_) =>
    case InString(_, indent, attr) => PlaceholdersAreOneLine(indent, attr, indent);
    case InPayload(_, prefix) => PlaceholdersAreOneLine(prefix, prefix, prefix);
  }

  lemma AttrIsOneLine(attr: string)
    requires VolatileAttr(attr)
    ensures OneLine(attr)
  {
  }

  lemma {:induction false} ProcessOneLines(cfg: Settings, mode: Mode, lines: seq<string>)
    requires OneLines(lines) && OneLineMode(mode)
    ensures OneLines(Process(cfg, mode, lines)) && |Process(cfg, mode, lines)| <= |lines|
    decreases lines
  {
    hide Step, OneLineMode, OneLine;
    if lines != [] {
      StepIsOneLine(cfg, mode, lines[0]);
      ProcessOneLines(cfg, Step(cfg, mode, lines[0]).0, lines[1..]);
    }
  }

  /** The lines a text is processed as, and what they become. */
  lemma CanonicalLines(cfg: Settings, text: string) returns (lines: seq<string>, out: seq<string>)
    ensures lines == Split(UnixNewlines(WithoutBom(text))) && OneLines(lines)
    ensures out == Process(cfg, Plain(false), lines) && OneLines(out) && CanonicalText(cfg, text) == Join(out)
    ensures Process(cfg, Plain(false), out) == out
    ensures NoReturn(Join(out)) && Split(Join(out)) == if out == [] then [""] else out
  {
    hide Process;
    var unix := UnixNewlines(WithoutBom(text));
    lines := Split(unix);
    out := Process(cfg, Plain(false), lines);
    NewlinesRemoved(WithoutBom(text));
    SplitLines(unix);
    ProcessOneLines(cfg, Plain(false), lines);
    ProcessIdempotent(cfg, Plain(false), lines);
    if out != [] { SplitJoin(out); }
  }

  predicate StartsWithBom(text: string) {
    text != "" && text[0] == BOM
  }

  /** An empty file stays an empty file. */
  lemma EmptyLine(cfg: Settings)
    ensures Process(cfg, Plain(false), [""]) == [""]
  {
    hide LastModified, UuidRename, WorkspaceFr, ScriptNodeCreate, SetAttrString, PluginPayload, FileInfo, RequiresMaya, CreatedByMaya,
         MayaAsciiHeader;
    NothingMatches(cfg, false, "");
    PassesOn(cfg, Plain(false), Plain(false), "", []);
  }

  /** A line with no first character among the keywords' passes through. */
  lemma NothingMatches(cfg: Settings, script: bool, s: string)
    requires forall c :: First(s, c) ==> c !in "/wfcsrR"
    ensures Settled(cfg, script, s)
  {
    hide UuidRename, WorkspaceFr, ScriptNodeCreate, SetAttrString, PluginPayload, FileInfo, RequiresMaya, Comment, First;
    ByFirstChar(s);
  }

  /** Canonical text without a byte-order mark in front is canonical. */
  lemma CanonicalTextFixed(cfg: Settings, text: string)
    requires !StartsWithBom(CanonicalText(cfg, text))
    ensures CanonicalText(cfg, CanonicalText(cfg, text)) == CanonicalText(cfg, text)
  {
    hide Process;
    var canonical := CanonicalText(cfg, text);
    var lines, out := CanonicalLines(cfg, text);
    NewlinesRemoved(canonical);
    if out == [] { EmptyLine(cfg); }
  }

  // ---------------------------------------------------------------- byte-order marks

  lemma BlankFirst(indent: string, l: string)
    requires Blank(indent) && l != "" && l[0] != BOM
    ensures !StartsWithBom(indent + l)
  {
  }

  lemma BlankHead(line: string, k: nat, l: string)
    requires l != "" && l[0] != BOM && At(line, Ws(line, 0), l) && Ws(line, 0) + |l| <= k <= |line|
    ensures !StartsWithBom(line[..k])
  {
    AtChars(line, Ws(line, 0), l);
    assert line[Ws(line, 0) + 0] == l[0];
  }

  lemma TidyBom(cfg: Settings, line: string)
    ensures StartsWithBom(Tidy(cfg, line)) ==> Tidy(cfg, line) == line
  {
    hide CreatedByMaya, MayaAsciiHeader, RequiresMaya, FileInfo, Blank, Indent;
    var indent := Indent(line);
    IndentIsBlank(line);
    BlankFirst(indent, "// Created by Maya");
    BlankFirst(indent, "//Maya ASCII scene");
    BlankFirst(indent, "requires maya ");
    BlankFirst(indent, "fileInfo \"");
  }

  /** Only an untouched line can come out with a byte-order mark in front. */
  lemma EmittedBom(cfg: Settings, script: bool, line: string)
    ensures var r := PlainStep(cfg, script, line);
            r.1.Some? && StartsWithBom(r.1.value) ==> r.1.value == line
  {
    hide LastModified, UuidRename, WorkspaceFr, ScriptNodeCreate, Closes, StartsNode, SetAttrString, PluginPayload, VolatileType,
         Tidy, StringPlaceholder, StartsWithBom;
    TidyBom(cfg, line);
    UuidBom(line);
    PayloadBom(line);
    if SetAttrString(line).Some? { StringBom(line, SetAttrString(line).value.0); }
  }

  lemma HeadBom(a: string, b: string)
    requires a != ""
    ensures StartsWithBom(a + b) == StartsWithBom(a)
  {
  }

  lemma UuidBom(line: string)
    ensures var m := UuidRename(line); m.Some? ==> !StartsWithBom(line[..m.value.0] + NO_UUID + line[m.value.1..])
  {
    hide UuidRename, At, Ws, StartsWithBom;
    if UuidRename(line).Some? {
      var m := UuidRename(line).value;
      RenameAt(line);
      UuidAfter(line);
      BlankHead(line, m.0, "rename");
      HeadBom(line[..m.0], NO_UUID);
      HeadBom(line[..m.0] + NO_UUID, line[m.1..]);
    }
  }

  lemma PayloadBom(line: string)
    ensures var m := PluginPayload(line); m.Some? ==> !StartsWithBom(line[..m.value.1] + PLACEHOLDER)
  {
    hide PluginPayload, At, Ws, StartsWithBom, TypeTail, FirstTail;
    if PluginPayload(line).Some? {
      var i, b, p := PayloadParts(line);
      BlankHead(line, PluginPayload(line).value.1, "setAttr");
      HeadBom(line[..PluginPayload(line).value.1], PLACEHOLDER);
    }
  }

  lemma StringBom(line: string, attr: string)
    ensures !StartsWithBom(StringPlaceholder(Indent(line), attr))
  {
    hide Indent, Blank, StartsWithBom;
    var head := Indent(line) + "setAttr \"";
    IndentIsBlank(line);
    BlankFirst(Indent(line), "setAttr \"");
    HeadBom(head, attr);
    HeadBom(head + attr, "\" -type \"string\" ");
    HeadBom(head + attr + "\" -type \"string\" ", PLACEHOLDER);
  }

  lemma UuidAfter(s: string)
    requires UuidRename(s).Some?
    ensures Ws(s, 0) + 6 <= UuidRename(s).value.0 <= |s|
  {
    hide Ws, Ws1, Quoted, At;
  }

  lemma {:induction false} ProcessShrinks(cfg: Settings, mode: Mode, lines: seq<string>)
    ensures |Process(cfg, mode, lines)| <= |lines|
    decreases lines
  {
    hide Step;
    if lines != [] { ProcessShrinks(cfg, Step(cfg, mode, lines[0]).0, lines[1..]); }
  }

  /** Text that lost a leading byte-order mark does not come out with it again. */
  lemma BomIsLost(cfg: Settings, line: string, lines: seq<string>)
    requires StartsWithBom(line)
    ensures Process(cfg, Plain(false), [line[1..]] + lines) != [line] + lines
  {
    hide PlainStep;
    var before := [line[1..]] + lines;
    var r := PlainStep(cfg, false, line[1..]);
    EmittedBom(cfg, false, line[1..]);
    ProcessShrinks(cfg, r.0, lines);
    assert before[0] == line[1..] && before[1..] == lines;
    var after := Process(cfg, r.0, lines);
    if r.1.Some? {
      assert ([r.1.value] + after)[0] == r.1.value;
    } else {
      assert [] + after == after;
    }
  }

  lemma BomNotFixed(cfg: Settings, c: string)
    requires NoReturn(c) && StartsWithBom(c)
    ensures CanonicalText(cfg, c) != c
  {
    hide Process, CanonicalText, UnixNewlines, NoReturn, OneLines, Join;
    var rest := Split(c[1..]);
    var line := [BOM] + rest[0];
    var lines, out := CanonicalLines(cfg, c);
    RestHasNoReturn(c);
    NewlinesRemoved(c[1..]);
    assert Split(c) == [line] + rest[1..];
    assert line[1..] == rest[0] && [rest[0]] + rest[1..] == rest;
    BomIsLost(cfg, line, rest[1..]);
    assert line != "" && Split(c)[0] == line;
    assert Split(Join(out)) != Split(c);
  }

  lemma RestHasNoReturn(c: string)
    requires NoReturn(c) && c != ""
    ensures NoReturn(c[1..])
  {
  }

  /** A second pass changes nothing exactly when the first one's result has no leading byte-order mark:
      decoding drops the mark, so the second pass would start from a different text. */
  lemma FixedIffNoBom(cfg: Settings, text: string)
    ensures CanonicalText(cfg, CanonicalText(cfg, text)) == CanonicalText(cfg, text) <==> !StartsWithBom(CanonicalText(cfg, text))
  {
    hide CanonicalText, StartsWithBom;
    var c := CanonicalText(cfg, text);
    if StartsWithBom(c) {
      var lines, out := CanonicalLines(cfg, text);
      BomNotFixed(cfg, c);
    } else {
      CanonicalTextFixed(cfg, text);
    }
  }

  // ---------------------------------------------------------------- which texts come out with a mark

  /** The machine's mode after these lines. */
  function ModeAfter(cfg: Settings, mode: Mode, lines: seq<string>): Mode
    decreases lines
  {
    if lines == [] then mode else ModeAfter(cfg, Step(cfg, mode, lines[0]).0, lines[1..])
  }

  /** Line `k` begins with a byte-order mark, lies outside every swallowed string, and every line before
      it is dropped or swallowed. */
  predicate MarkedLine(cfg: Settings, mode: Mode, lines: seq<string>, k: nat) {
    && k < |lines| && StartsWithBom(lines[k])
    && ModeAfter(cfg, mode, lines[..k]).Plain?
    && Process(cfg, mode, lines[..k]) == []
  }

  /** The same by recursion over the lines. */
  predicate MarkComesFirst(cfg: Settings, mode: Mode, lines: seq<string>)
    decreases lines
  {
    lines != [] &&
    ((mode.Plain? && StartsWithBom(lines[0]))
     || (Step(cfg, mode, lines[0]).1.None? && MarkComesFirst(cfg, Step(cfg, mode, lines[0]).0, lines[1..])))
  }

  lemma MarkedStep(cfg: Settings, mode: Mode, lines: seq<string>, k: nat)
    requires 0 < k <= |lines|
    ensures var r := Step(cfg, mode, lines[0]);
            && ModeAfter(cfg, mode, lines[..k]) == ModeAfter(cfg, r.0, lines[1..][..k - 1])
            && Process(cfg, mode, lines[..k]) == (if r.1.Some? then [r.1.value] else []) + Process(cfg, r.0, lines[1..][..k - 1])
  {
    hide Step;
    assert lines[..k][0] == lines[0] && lines[..k][1..] == lines[1..][..k - 1];
  }

  lemma {:induction false} MarkedLineExists(cfg: Settings, mode: Mode, lines: seq<string>) returns (k: nat)
    requires MarkComesFirst(cfg, mode, lines)
    ensures MarkedLine(cfg, mode, lines, k)
    decreases lines
  {
    hide Step, StartsWithBom;
    if mode.Plain? && StartsWithBom(lines[0]) {
      k := 0;
    } else {
      var j := MarkedLineExists(cfg, Step(cfg, mode, lines[0]).0, lines[1..]);
      k := j + 1;
      MarkedStep(cfg, mode, lines, k);
    }
  }

  lemma {:induction false} MarkedLineFirst(cfg: Settings, mode: Mode, lines: seq<string>, k: nat)
    requires MarkedLine(cfg, mode, lines, k)
    ensures MarkComesFirst(cfg, mode, lines)
    decreases k
  {
    hide Step, StartsWithBom;
    if k > 0 {
      MarkedStep(cfg, mode, lines, k);
      MarkedLineFirst(cfg, Step(cfg, mode, lines[0]).0, lines[1..], k - 1);
    }
  }

  lemma MarkedLineIff(cfg: Settings, mode: Mode, lines: seq<string>)
    ensures MarkComesFirst(cfg, mode, lines) <==> exists k: nat :: MarkedLine(cfg, mode, lines, k)
  {
    hide MarkedLine, MarkComesFirst;
    if MarkComesFirst(cfg, mode, lines) {
      var k := MarkedLineExists(cfg, mode, lines);
      assert MarkedLine(cfg, mode, lines, k);
    } else {
      forall k: nat
        ensures !MarkedLine(cfg, mode, lines, k)
      {
        if MarkedLine(cfg, mode, lines, k) { MarkedLineFirst(cfg, mode, lines, k); }
      }
    }
  }

  /** The line a swallowing mode will emit does not begin with a mark. */
  predicate UnmarkedMode(mode: Mode) {
    match mode
    case Plain(_) => true
    case InString(_, indent, attr) => !StartsWithBom(StringPlaceholder(indent, attr))
    case InPayload(_, prefix) => !StartsWithBom(prefix + PLACEHOLDER)
  }

  lemma UnmarkedStep(cfg: Settings, script: bool, line: string)
    ensures UnmarkedMode(PlainStep(cfg, script, line).0)
  {
    hide LastModified, UuidRename, WorkspaceFr, ScriptNodeCreate, Closes, StartsNode, SetAttrString, PluginPayload, VolatileType,
         Tidy, StringPlaceholder, StartsWithBom;
    PayloadBom(line);
    if SetAttrString(line).Some? { StringBom(line, SetAttrString(line).value.0); }
  }

  /** A line that begins with a mark matches no pattern. */
  lemma MarkedPasses(cfg: Settings, script: bool, line: string)
    requires StartsWithBom(line)
    ensures PlainStep(cfg, script, line).1 == Some(line)
  {
    hide PlainStep;
    WsIs(line, 0, 0);
    NothingMatches(cfg, script, line);
  }

  lemma {:induction false} FirstOutIsMarked(cfg: Settings, mode: Mode, lines: seq<string>)
    requires UnmarkedMode(mode)
    ensures var out := Process(cfg, mode, lines);
            MarkComesFirst(cfg, mode, lines) <==> out != [] && StartsWithBom(out[0])
    decreases lines
  {
    hide PlainStep, Closes, StringPlaceholder, StartsWithBom;
    if lines != [] {
      var r := Step(cfg, mode, lines[0]);
      if mode.Plain? {
        UnmarkedStep(cfg, mode.inScript, lines[0]);
        EmittedBom(cfg, mode.inScript, lines[0]);
        if StartsWithBom(lines[0]) { MarkedPasses(cfg, mode.inScript, lines[0]); }
      }
      FirstOutIsMarked(cfg, r.0, lines[1..]);
      var rest := Process(cfg, r.0, lines[1..]);
      assert [] + rest == rest;
    }
  }

  lemma JoinHead(lines: seq<string>)
    requires OneLines(lines)
    ensures StartsWithBom(Join(lines)) <==> lines != [] && StartsWithBom(lines[0])
  {
    if |lines| > 1 && lines[0] == "" {
      assert Join(lines) == "\n" + Join(lines[1..]);
    }
  }

  /** The lines `canonicalize` sees. */
  function LinesOf(text: string): seq<string> {
    Split(UnixNewlines(WithoutBom(text)))
  }

  /** The canonicalizer is idempotent on a text iff no line that begins with a byte-order mark stands
      outside every swallowed string with nothing but dropped or swallowed lines before it. */
  lemma CanonicalIdempotent(cfg: Settings, text: string)
    ensures CanonicalText(cfg, CanonicalText(cfg, text)) == CanonicalText(cfg, text)
       <==> forall k: nat :: !MarkedLine(cfg, Plain(false), LinesOf(text), k)
  {
    hide CanonicalText, StartsWithBom, MarkedLine, MarkComesFirst, Process, Join;
    var lines, out := CanonicalLines(cfg, text);
    FixedIffNoBom(cfg, text);
    JoinHead(out);
    FirstOutIsMarked(cfg, Plain(false), lines);
    MarkedLineIff(cfg, Plain(false), lines);
    assert lines == LinesOf(text);
  }

  /** In particular on every text no line of which begins with a mark once a leading one is dropped. */
  lemma UnmarkedIdempotent(cfg: Settings, text: string)
    requires forall line :: line in LinesOf(text) ==> !StartsWithBom(line)
    ensures CanonicalText(cfg, CanonicalText(cfg, text)) == CanonicalText(cfg, text)
  {
    hide CanonicalText, StartsWithBom, Process, ModeAfter, LinesOf;
    CanonicalIdempotent(cfg, text);
    forall k: nat
      ensures !MarkedLine(cfg, Plain(false), LinesOf(text), k)
    {
      assert k < |LinesOf(text)| ==> LinesOf(text)[k] in LinesOf(text);
    }
  }

  lemma TwoMarkLines()
    ensures LinesOf([BOM, BOM]) == [[BOM]] && LinesOf([BOM]) == [""]
  {
    assert [BOM, BOM][1..] == [BOM] && [BOM][1..] == "";
    assert UnixNewlines([BOM]) == [BOM] + UnixNewlines("");
    SplitLine([BOM], "");
  }

  /** Two leading marks lose one in each pass. */
  lemma TwoMarks(cfg: Settings)
    ensures CanonicalText(cfg, [BOM, BOM]) == [BOM] && CanonicalText(cfg, [BOM]) == ""
  {
    hide PlainStep, LinesOf, Split, UnixNewlines, WithoutBom;
    TwoMarkLines();
    MarkedPasses(cfg, false, [BOM]);
    EmptyLine(cfg);
    OneLineText(cfg, [BOM, BOM], [BOM]);
    OneLineText(cfg, [BOM], "");
  }

  lemma OneLineText(cfg: Settings, text: string, line: string)
    requires LinesOf(text) == [line] && PlainStep(cfg, false, line).1 == Some(line)
    ensures CanonicalText(cfg, text) == line
  {
    hide PlainStep, Split, UnixNewlines, WithoutBom;
    var next := PlainStep(cfg, false, line).0;
    assert [line][0] == line && [line][1..] == [];
    assert Process(cfg, next, []) == [];
    assert Process(cfg, Plain(false), [line]) == [line] + [];
  }
}
