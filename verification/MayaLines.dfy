/** The regular expressions of maya/canonicalize.py as deterministic matchers over one line. Every
    pattern is anchored at the line start and none needs backtracking: each optional run is followed by
    a character it cannot contain. */
module MayaLines {
  import opened Base
  import opened Text

  // ---------------------------------------------------------------- building blocks

  /** The end of the whitespace run at `i` (`\s*`). */
  function Ws(s: string, i: nat): (j: nat)
    requires i <= |s|
    ensures i <= j <= |s|
    ensures forall k :: i <= k < j ==> IsSpace(s[k])
    ensures j < |s| ==> !IsSpace(s[j])
    decreases |s| - i
  {
    if i < |s| && IsSpace(s[i]) then Ws(s, i + 1) else i
  }

  /** `\s+`. */
  function Ws1(s: string, i: nat): (r: Option<nat>)
    requires i <= |s|
    ensures r.Some? ==> i < r.value <= |s|
  {
    if i < |s| && IsSpace(s[i]) then Some(Ws(s, i)) else None
  }

  predicate At(s: string, i: nat, l: string) {
    i + |l| <= |s| && s[i..i + |l|] == l
  }

  /** The literal `l`. */
  function Lit(s: string, i: nat, l: string): (r: Option<nat>)
    requires i <= |s|
    ensures r.Some? ==> r.value == i + |l| <= |s|
  {
    if At(s, i, l) then Some(i + |l|) else None
  }

  /** The first double quote at or after `i`, the line's end when there is none. */
  function FindQuote(s: string, i: nat): (q: nat)
    requires i <= |s|
    ensures i <= q <= |s|
    ensures forall k :: i <= k < q ==> s[k] != '"'
    ensures q < |s| ==> s[q] == '"'
    decreases |s| - i
  {
    if i < |s| && s[i] != '"' then FindQuote(s, i + 1) else i
  }

  /** `"[^"]*"` with at least `least` characters inside: the position after the closing quote. */
  function Quoted(s: string, i: nat, least: nat): (r: Option<nat>)
    requires i <= |s|
    ensures r.Some? ==> i + least + 2 <= r.value <= |s| && s[i] == '"' && s[r.value - 1] == '"'
    ensures r.Some? ==> forall k :: i < k < r.value - 1 ==> s[k] != '"'
  {
    var a :- Lit(s, i, "\"");
    var q := FindQuote(s, a);
    if q < |s| && a + least <= q then Some(q + 1) else None
  }

  /** One character against a lower-case ASCII letter under re.IGNORECASE. */
  predicate FoldChar(c: char, l: char) {
    LowerChar(c) == l || (l == 'i' && (c as int == 0x130 || c as int == 0x131)) || (l == 's' && c as int == 0x17F)
    || (l == 'k' && c as int == 0x212A)
  }

  predicate FoldAt(s: string, i: nat, l: string) {
    i + |l| <= |s| && forall k :: 0 <= k < |l| ==> FoldChar(s[i + k], l[k])
  }

  /** `\w`; `alnum` answers for characters outside ASCII. */
  predicate IsWord(alnum: char -> bool, c: char) {
    if c as int < 128 then '0' <= c <= '9' || 'A' <= c <= 'Z' || 'a' <= c <= 'z' || c == '_' else alnum(c)
  }

  // ---------------------------------------------------------------- comments

  /** Matches `^(\s*)//` and returns the position after it. */
  function Comment(s: string): (r: Option<nat>)
    ensures r.Some? ==> 2 <= r.value <= |s|
  {
    Lit(s, Ws(s, 0), "//")
  }

  /** `_LAST_MODIFIED_COMMENT`. The needle starts with a word character, so its `\b` asks for none before it. */
  predicate LastModified(alnum: char -> bool, s: string) {
    && Comment(s).Some?
    && exists j :: Comment(s).value <= j < |s| && FoldAt(s, j, "last modified:") && !IsWord(alnum, s[j - 1])
  }

  /** `_CREATED_BY_MAYA`. */
  predicate CreatedByMaya(alnum: char -> bool, s: string) {
    && Comment(s).Some?
    && exists j :: Comment(s).value <= j < |s| && FoldAt(s, j, "created by maya") && !IsWord(alnum, s[j - 1])
                   && (j + 15 == |s| || !IsWord(alnum, s[j + 15]))
  }

  /** `_MAYA_ASCII_HEADER`. */
  predicate MayaAsciiHeader(alnum: char -> bool, s: string) {
    && Comment(s).Some?
    && exists j :: Comment(s).value <= j < |s| && At(s, j, "Maya ASCII") && !IsWord(alnum, s[j - 1])
                   && (j + 10 == |s| || !IsWord(alnum, s[j + 10]))
  }

  // ---------------------------------------------------------------- statements

  /** `_UUID_RENAME`: (end of group 1, start of group 3). */
  function UuidRename(s: string): (r: Option<(nat, nat)>)
    ensures r.Some? ==> r.value.0 < r.value.1 <= |s|
  {
    var a :- Lit(s, Ws(s, 0), "rename");
    var b :- Ws1(s, a);
    var c :- Lit(s, b, "-uid");
    var d :- Ws1(s, c);
    var e :- Quoted(s, d, 1);
    var _ :- Lit(s, Ws(s, e), ";");
    Some((d, e))
  }

  /** `_WORKSPACE_FR`. */
  function WorkspaceFr(s: string): Option<nat> {
    var a :- Lit(s, Ws(s, 0), "workspace");
    var b :- Ws1(s, a);
    var c :- Lit(s, b, "-fr");
    var d :- Ws1(s, c);
    var e :- Quoted(s, d, 0);
    var f :- Ws1(s, e);
    var g :- Quoted(s, f, 0);
    Lit(s, Ws(s, g), ";")
  }

  predicate VolatileNode(name: string) {
    name == "uiConfigurationScriptNode" || name == "sceneConfigurationScriptNode"
  }

  /** `_SCRIPT_NODE_CREATE`. */
  function ScriptNodeCreate(s: string): Option<nat> {
    var a :- Lit(s, Ws(s, 0), "createNode");
    var b :- Ws1(s, a);
    var c :- Lit(s, b, "script");
    var d :- Ws1(s, c);
    var e :- Lit(s, d, "-n");
    var f :- Ws1(s, e);
    var g :- Quoted(s, f, 1);
    if VolatileNode(s[f + 1..g - 1]) then Some(g) else None
  }

  predicate VolatileAttr(attr: string) {
    attr == ".b" || attr == ".before" || attr == ".a" || attr == ".after"
  }

  /** `\s+-type\s+"string"\s+"` at `c`: the position of the opening quote. */
  function StringTail(s: string, c: nat): (r: Option<nat>)
    requires c <= |s|
    ensures r.Some? ==> c < r.value < |s|
  {
    var d :- Ws1(s, c);
    var e :- Lit(s, d, "-type");
    var f :- Ws1(s, e);
    var g :- Lit(s, f, "\"string\"");
    var h :- Ws1(s, g);
    var _ :- Lit(s, h, "\"");
    Some(h)
  }

  /** `_SET_ATTR_STRING_BEGIN`: (attribute, end of group 1); the string opens at that position. */
  function SetAttrString(s: string): (r: Option<(string, nat)>)
    ensures r.Some? ==> r.value.1 < |s| && VolatileAttr(r.value.0)
  {
    var a :- Lit(s, Ws(s, 0), "setAttr");
    var b :- Ws1(s, a);
    var c :- Quoted(s, b, 1);
    if !VolatileAttr(s[b + 1..c - 1]) then None
    else
      var h :- StringTail(s, c);
      Some((s[b + 1..c - 1], h))
  }

  /** The tail `-type\s+"(...)"\s+"` at `p`: (start of the type name, its end, position of the opening quote). */
  function TypeTail(s: string, p: nat): (r: Option<(nat, nat, nat)>)
    requires p <= |s|
    ensures r.Some? ==> p + 6 < r.value.0 < r.value.1 < r.value.2 < |s| && s[r.value.2] == '"'
  {
    var a :- Lit(s, p, "-type");
    var b :- Ws1(s, a);
    var c :- Quoted(s, b, 1);
    var d :- Ws1(s, c);
    var _ :- Lit(s, d, "\"");
    Some((b + 1, c - 1, d))
  }

  /** The first position at or after `p` where the tail matches (`.*?`). */
  function FirstTail(s: string, p: nat): (r: Option<nat>)
    requires p <= |s|
    ensures r.Some? ==> p <= r.value <= |s| && TypeTail(s, r.value).Some?
    ensures forall q :: p <= q <= |s| && (r.None? || q < r.value) ==> TypeTail(s, q).None?
    decreases |s| - p
  {
    if TypeTail(s, p).Some? then Some(p) else if p < |s| then FirstTail(s, p + 1) else None
  }

  /** `_SET_ATTR_PLUGIN_PAYLOAD_BEGIN`: (type name, end of the prefix); the payload opens at that position. */
  function PluginPayload(s: string): (r: Option<(string, nat)>)
    ensures r.Some? ==> r.value.1 < |s| && s[r.value.1] == '"'
  {
    var a :- Lit(s, Ws(s, 0), "setAttr");
    var b :- Ws1(s, a);
    var p :- FirstTail(s, b);
    var t := TypeTail(s, p).value;
    Some((s[t.0..t.1], t.2))
  }

  predicate VolatileType(t: string) {
    t == "ngst2SkinLayerDataStorage" || t == "dataPolyComponent"
  }

  /** `_REQUIRES_MAYA`. */
  predicate RequiresMaya(s: string) {
    var i := Ws(s, 0);
    FoldAt(s, i, "requires") &&
    match Ws1(s, i + 8)
    case None => false
    case Some(a) =>
      FoldAt(s, a, "maya") &&
      match Ws1(s, a + 4)
      case None => false
      case Some(b) =>
        match Quoted(s, b, 0)
        case None => false
        case Some(c) => EndsStatement(s, c)
  }

  /** `\s*;\s*$`. */
  predicate EndsStatement(s: string, i: nat)
    requires i <= |s|
  {
    var j := Ws(s, i);
    j < |s| && s[j] == ';' && Ws(s, j + 1) == |s|
  }

  /** The end of `(?:[^"\\]|\\.)*` from `i`. */
  function ValueEnd(s: string, i: nat): (j: nat)
    requires i <= |s|
    ensures i <= j <= |s|
    decreases |s| - i
  {
    if i == |s| || s[i] == '"' then i
    else if s[i] == '\\' then (if i + 1 == |s| then i else ValueEnd(s, i + 2))
    else ValueEnd(s, i + 1)
  }

  /** `_FILEINFO_RE`: the key. */
  function FileInfo(s: string): (r: Option<string>)
    ensures r.Some? ==> r.value != "" && forall k :: 0 <= k < |r.value| ==> r.value[k] != '"'
  {
    var a :- Lit(s, Ws(s, 0), "fileInfo");
    var b :- Ws1(s, a);
    var c :- Quoted(s, b, 1);
    var d :- Ws1(s, c);
    var e :- Lit(s, d, "\"");
    var f :- Lit(s, ValueEnd(s, e), "\"");
    if EndsStatement(s, f) then Some(s[b + 1..c - 1]) else None
  }

  const VolatileKeys: set<string> :=
    {"application", "product", "version", "cutIdentifier", "os", "license", "apiVersion", "osv", "vcsInfo", "creationDate",
     "modifiedDate", "lastModified"}

  /** `line.lstrip().startswith("createNode ")` or `"select "`. */
  predicate StartsNode(s: string) {
    At(s, Ws(s, 0), "createNode ") || At(s, Ws(s, 0), "select ")
  }

  // ---------------------------------------------------------------- the closing quote

  /** The regular-expression search for an unescaped `";` at the end of the line. */
  predicate Closes(s: string) {
    exists p, k :: 0 <= p <= |s| && 0 <= k <= |s| && ClosesAt(s, p, k)
  }

  /** The match starts at `p`, not preceded by a backslash, with `k` pairs of backslashes before the quote. */
  predicate ClosesAt(s: string, p: nat, k: nat) {
    && p + 2 * k + 2 <= |s|
    && (p == 0 || s[p - 1] != '\\')
    && (forall i :: p <= i < p + 2 * k ==> s[i] == '\\')
    && s[p + 2 * k] == '"' && s[p + 2 * k + 1] == ';' && Ws(s, p + 2 * k + 2) == |s|
  }

  /** The state of a left-to-right scanner: whether the character at `i` is escaped. */
  predicate Escaped(s: string, i: nat)
    requires i <= |s|
  {
    i > 0 && s[i - 1] == '\\' && !Escaped(s, i - 1)
  }

  /** `q` is an unescaped quote, followed by a semicolon and nothing but whitespace. */
  predicate ClosingQuote(s: string, q: nat) {
    q + 2 <= |s| && s[q] == '"' && s[q + 1] == ';' && Ws(s, q + 2) == |s| && !Escaped(s, q)
  }

  /** After an unescaped position, a run of `n` backslashes leaves the scanner escaped iff `n` is odd. */
  lemma {:induction false} EscapedAfterRun(s: string, p: nat, n: nat)
    requires p + n <= |s| && (p == 0 || s[p - 1] != '\\') && forall i :: p <= i < p + n ==> s[i] == '\\'
    ensures Escaped(s, p + n) <==> n % 2 == 1
  {
    if n > 0 {
      EscapedAfterRun(s, p, n - 1);
    }
  }

  /** Every position ends a maximal run of backslashes. */
  lemma {:induction false} RunBefore(s: string, q: nat) returns (p: nat)
    requires q <= |s|
    ensures p <= q && (p == 0 || s[p - 1] != '\\') && forall i :: p <= i < q ==> s[i] == '\\'
  {
    p := q;
    if q > 0 && s[q - 1] == '\\' {
      p := RunBefore(s, q - 1);
    }
  }

  lemma MatchIsScanned(s: string, p: nat, k: nat)
    requires ClosesAt(s, p, k)
    ensures ClosingQuote(s, p + 2 * k)
  {
    hide Ws, Escaped;
    EscapedAfterRun(s, p, 2 * k);
  }

  lemma ScannedIsMatch(s: string, q: nat) returns (p: nat, k: nat)
    requires ClosingQuote(s, q)
    ensures p <= |s| && k <= |s| && ClosesAt(s, p, k)
  {
    hide Ws, Escaped;
    p := RunBefore(s, q);
    EscapedAfterRun(s, p, q - p);
    k := (q - p) / 2;
    assert q - p == 2 * k;
  }

  /** The regular expression agrees with the escape-tracking scanner. */
  lemma ClosesIffScanned(s: string)
    ensures Closes(s) <==> exists q :: 0 <= q < |s| && ClosingQuote(s, q)
  {
    hide Ws, Escaped, ClosesAt;
    if Closes(s) {
      var p, k :| 0 <= p <= |s| && 0 <= k <= |s| && ClosesAt(s, p, k);
      MatchIsScanned(s, p, k);
      assert ClosingQuote(s, p + 2 * k);
    }
    if exists q :: 0 <= q < |s| && ClosingQuote(s, q) {
      var q :| 0 <= q < |s| && ClosingQuote(s, q);
      var p, k := ScannedIsMatch(s, q);
    }
  }
}
