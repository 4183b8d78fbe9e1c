/** The regular expressions of maya/canonicalize.py written out as patterns with their declarative meaning,
    and the matchers of MayaLines proved to find exactly the matches and groups of these patterns. */
module MayaPatterns {
  import opened Base
  import opened Text
  import opened MayaLines
  import opened MayaTheory

  // ---------------------------------------------------------------- patterns and their matches

  datatype Token =
    | Word(l: string)           // the characters themselves
    | Fold(l: string)           // lower-case letters under re.IGNORECASE
    | Spaces(least: nat)        // `\s*` and `\s+`
    | Quote(least: nat)         // `"[^"]*"` and `"[^"]+"`
    | OneOf(words: seq<string>) // `"(a|b)"`
    | Value                     // `(?:[^"\\]|\\.)*`
    | Any                       // `.*`, lines having no line break
    | Mark                      // where a group begins or ends

  datatype Pattern = Done | Then(token: Token, rest: Pattern)

  /** The positions of the marks of a match. */
  datatype Marks = Nil | Cons(pos: nat, rest: Marks)

  predicate ValueRun(s: string, i: nat, j: nat)
    requires i <= j <= |s|
    decreases j - i
  {
    || i == j
    || (s[i] != '"' && s[i] != '\\' && ValueRun(s, i + 1, j))
    || (s[i] == '\\' && i + 2 <= j && ValueRun(s, i + 2, j))
  }

  /** The token can match the characters from `i` to `j`. */
  predicate Covers(t: Token, s: string, i: nat, j: nat) {
    && i <= j <= |s|
    && match t
       case Word(l) => s[i..j] == l
       case Fold(l) => j - i == |l| && forall k :: 0 <= k < |l| ==> FoldChar(s[i + k], l[k])
       case Spaces(least) => j - i >= least && forall k :: i <= k < j ==> IsSpace(s[k])
       case Quote(least) => j - i >= least + 2 && s[i] == s[j - 1] == '"' && forall k :: i < k < j - 1 ==> s[k] != '"'
       case OneOf(words) => exists w :: w in words && s[i..j] == "\"" + w + "\""
       case Value => ValueRun(s, i, j)
       case Any => true
       case Mark => i == j
  }

  /** The pattern matches from `i` to the end of the line, its marks standing at `marks`. */
  predicate Matches(p: Pattern, s: string, i: nat, marks: Marks) {
    match p
    case Done => i == |s| && marks == Nil
    case Then(Mark, rest) => marks.Cons? && marks.pos == i && Matches(rest, s, i, marks.rest)
    case Then(t, rest) => exists j :: i <= j <= |s| && Covers(t, s, i, j) && Matches(rest, s, j, marks)
  }

  // ---------------------------------------------------------------- no backtracking

  /** Where the token ends when it takes all it can. */
  function End(t: Token, s: string, i: nat): (r: Option<nat>)
    requires i <= |s|
    ensures r.Some? ==> i <= r.value <= |s|
  {
    match t
    case Word(l) => Lit(s, i, l)
    case Fold(l) => if FoldAt(s, i, l) then Some(i + |l|) else None
    case Spaces(least) => if i + least <= Ws(s, i) then Some(Ws(s, i)) else None
    case Quote(least) => Quoted(s, i, least)
    case OneOf(words) =>
      var c :- Quoted(s, i, 0);
      if s[i + 1..c - 1] in words then Some(c) else None
    case Value => Some(ValueEnd(s, i))
    case Any => Some(|s|)
    case Mark => Some(i)
  }

  /** The marks found by taking each token as far as it goes. */
  function Run(p: Pattern, s: string, i: nat): Option<Marks>
    requires i <= |s|
    decreases p
  {
    match p
    case Done => if i == |s| then Some(Nil) else None
    case Then(t, rest) =>
      var j :- End(t, s, i);
      var marks :- Run(rest, s, j);
      Some(if t.Mark? then Cons(i, marks) else marks)
  }

  /** The next token that takes characters. */
  function Next(p: Pattern): Option<Token> {
    match p
    case Done => None
    case Then(t, rest) => if t.Mark? then Next(rest) else Some(t)
  }

  predicate Letter(c: char) {
    'a' <= c <= 'z'
  }

  predicate QuoteFree(w: string) {
    forall k :: 0 <= k < |w| ==> w[k] != '"'
  }

  /** What follows `t` begins with a character that `t` cannot take. */
  predicate Separates(t: Token, next: Option<Token>) {
    match t
    case Spaces(_) =>
      || next.None? || (next.value.Word? && next.value.l != "" && !IsSpace(next.value.l[0]))
      || (next.value.Fold? && next.value.l != "" && Letter(next.value.l[0])) || next.value.Quote? || next.value.OneOf?
    case OneOf(words) => forall w :: w in words ==> w != "" && QuoteFree(w)
    case Value => next == Some(Word("\""))
    case Any => next.None?
    case _ => true
  }

  predicate Sharp(p: Pattern) {
    p.Then? ==> Separates(p.token, Next(p.rest)) && Sharp(p.rest)
  }

  lemma {:induction false} ValueFound(s: string, i: nat, j: nat)
    requires i <= j < |s| && s[j] == '"'
    ensures ValueRun(s, i, j) <==> ValueEnd(s, i) == j
    decreases j - i
  {
    if i < j {
      ValueFound(s, i + 1, j);
      if i + 2 <= j { ValueFound(s, i + 2, j); }
    }
  }

  /** Which characters a token can begin with. */
  predicate Begins(t: Token, c: char) {
    match t
    case Word(l) => l != "" && c == l[0]
    case Fold(l) => l != "" && FoldChar(c, l[0])
    case Quote(_) => c == '"'
    case OneOf(_) => c == '"'
    case _ => true
  }

  lemma BeginsWith(t: Token, s: string, i: nat, j: nat)
    requires Covers(t, s, i, j) && i < j
    ensures Begins(t, s[i])
  {
    match t
    case Word(l) => assert s[i..j][0] == s[i];
    case Fold(l) => assert FoldChar(s[i + 0], l[0]);
    case OneOf(words) => assert s[i..j][0] == s[i];
    case _ =>
  }

  lemma TakesSome(t: Token, s: string, i: nat, j: nat)
    requires Covers(t, s, i, j)
    ensures (t.Word? && t.l != "") || (t.Fold? && t.l != "") || t.Quote? || t.OneOf? ==> i < j
  {
  }

  /** The rest of a match begins with what the next token can begin with. */
  lemma {:induction false} RestBegins(p: Pattern, s: string, i: nat, marks: Marks)
    requires Matches(p, s, i, marks)
    ensures i <= |s| && (Next(p).None? ==> i == |s|)
    ensures Next(p).Some? ==> exists j :: i <= j <= |s| && Covers(Next(p).value, s, i, j)
    decreases p
  {
    hide Covers;
    if p.Then? && p.token.Mark? { RestBegins(p.rest, s, i, marks.rest); }
  }

  /** Before what separates it, a token can end only where it ends greedily. */
  lemma OnlyEnd(t: Token, next: Option<Token>, s: string, i: nat, j: nat, k: nat)
    requires Separates(t, next) && i <= |s| && j <= |s|
    requires if next.Some? then Covers(next.value, s, j, k) else j == |s|
    ensures Covers(t, s, i, j) <==> End(t, s, i) == Some(j)
  {
    hide ValueRun, ValueEnd, Ws, FoldChar, Quoted;
    match t
    case Spaces(least) => SpacesEnd(next, s, i, j, k);
    case Quote(least) => QuoteEnd(s, i, j, least);
    case OneOf(words) => OneOfEnd(words, s, i, j);
    case Value =>
      assert s[j..k][0] == s[j];
      if i <= j { ValueFound(s, i, j); }
    case _ =>
  }

  lemma SpacesEnd(next: Option<Token>, s: string, i: nat, j: nat, k: nat)
    requires Separates(Spaces(0), next) && i <= |s| && j <= |s|
    requires if next.Some? then Covers(next.value, s, j, k) else j == |s|
    ensures i <= j && (forall n :: i <= n < j ==> IsSpace(s[n])) <==> Ws(s, i) == j
  {
    hide Ws;
    if next.Some? {
      TakesSome(next.value, s, j, k);
      BeginsWith(next.value, s, j, k);
    }
    if i <= j && forall n :: i <= n < j ==> IsSpace(s[n]) { WsIs(s, i, j); }
  }

  lemma QuoteEnd(s: string, i: nat, j: nat, least: nat)
    requires i <= |s| && j <= |s|
    ensures Covers(Quote(least), s, i, j) <==> Quoted(s, i, least) == Some(j)
  {
    if Covers(Quote(least), s, i, j) { QuotedIs(s, i, j - 1, least); }
  }

  lemma QuotedText(w: string)
    ensures var q := "\"" + w + "\"";
            |q| == |w| + 2 && q[0] == q[|w| + 1] == '"' && forall k :: 0 <= k < |w| ==> q[k + 1] == w[k]
  {
  }

  lemma OneOfEnd(words: seq<string>, s: string, i: nat, j: nat)
    requires Separates(OneOf(words), None) && i <= |s| && j <= |s|
    ensures Covers(OneOf(words), s, i, j) <==> End(OneOf(words), s, i) == Some(j)
  {
    hide Quoted;
    if Covers(OneOf(words), s, i, j) {
      var w :| w in words && s[i..j] == "\"" + w + "\"";
      QuotedText(w);
      var q := "\"" + w + "\"";
      assert |q| == j - i && forall k :: 0 <= k < |q| ==> s[i + k] == q[k];
      forall k | i < k < j - 1 ensures s[k] == w[k - i - 1] { assert s[k] == s[i + (k - i)] == q[k - i]; }
      assert s[i + 0] == '"' && s[i + (|w| + 1)] == '"';
      assert s[i + 1..j - 1] == w;
      QuoteEnd(s, i, j, 0);
    }
    if End(OneOf(words), s, i) == Some(j) {
      QuoteEnd(s, i, j, 0);
      assert s[i..j] == "\"" + s[i + 1..j - 1] + "\"";
    }
  }

  /** The patterns need no backtracking: the match of a sharp pattern, if there is one, is the greedy one. */
  lemma {:induction false} RunIff(p: Pattern, s: string, i: nat, marks: Marks)
    requires Sharp(p) && i <= |s|
    ensures Matches(p, s, i, marks) <==> Run(p, s, i) == Some(marks)
    decreases p
  {
    hide Covers, End, Separates;
    match p
    case Done =>
    case Then(t, rest) =>
      if t.Mark? {
        MarkEnd(s, i);
        if marks.Cons? { RunIff(rest, s, i, marks.rest); }
      } else {
        if Matches(p, s, i, marks) {
          var j :| i <= j <= |s| && Covers(t, s, i, j) && Matches(rest, s, j, marks);
          RunIff(rest, s, j, marks);
          EndsThere(t, rest, s, i, j, marks);
        }
        if Run(p, s, i) == Some(marks) {
          var j := End(t, s, i).value;
          RunIff(rest, s, j, marks);
          EndsThere(t, rest, s, i, j, marks);
        }
      }
  }

  lemma MarkEnd(s: string, i: nat)
    requires i <= |s|
    ensures End(Mark, s, i) == Some(i)
  {
  }

  lemma EndsThere(t: Token, rest: Pattern, s: string, i: nat, j: nat, marks: Marks)
    requires Separates(t, Next(rest)) && i <= |s| && j <= |s| && Matches(rest, s, j, marks)
    ensures Covers(t, s, i, j) <==> End(t, s, i) == Some(j)
  {
    hide Covers, End, Separates;
    RestBegins(rest, s, j, marks);
    var k := if Next(rest).Some? then var k :| j <= k <= |s| && Covers(Next(rest).value, s, j, k); k else 0;
    OnlyEnd(t, Next(rest), s, i, j, k);
  }

  /** The pattern matches the line. */
  ghost predicate Accepts(p: Pattern, s: string) {
    exists marks :: Matches(p, s, 0, marks)
  }

  lemma AcceptsIff(p: Pattern, s: string)
    requires Sharp(p)
    ensures Accepts(p, s) <==> Run(p, s, 0).Some?
  {
    hide Matches, Run, Sharp;
    forall marks ensures Matches(p, s, 0, marks) <==> Run(p, s, 0) == Some(marks) { RunIff(p, s, 0, marks); }
    if Run(p, s, 0).Some? { assert Matches(p, s, 0, Run(p, s, 0).value); }
  }

  /** The tokens in the terms of the matchers. */
  lemma Ends(s: string)
    ensures forall i: nat, l :: i <= |s| ==> End(Word(l), s, i) == Lit(s, i, l)
    ensures forall i: nat, l :: i <= |s| ==> End(Fold(l), s, i) == if FoldAt(s, i, l) then Some(i + |l|) else None
    ensures forall i: nat :: i <= |s| ==> End(Spaces(0), s, i) == Some(Ws(s, i)) && End(Spaces(1), s, i) == Ws1(s, i)
    ensures forall i: nat, n: nat :: i <= |s| ==> End(Quote(n), s, i) == Quoted(s, i, n)
    ensures forall i: nat :: i <= |s| ==> End(Any, s, i) == Some(|s|) && End(Mark, s, i) == Some(i)
    ensures forall i: nat :: i <= |s| ==> End(Value, s, i) == Some(ValueEnd(s, i))
  {
  }

  /** `word\s+` and what follows. */
  function Flag(l: string, p: Pattern): Pattern {
    Then(Word(l), Then(Spaces(1), p))
  }

  /** `\s*word\s+` and what follows. */
  function Statement(l: string, p: Pattern): Pattern {
    Then(Spaces(0), Flag(l, p))
  }

  function Gapped(s: string, i: nat, l: string): (r: Option<nat>)
    requires i <= |s|
    ensures r.Some? ==> r.value <= |s|
  {
    var a :- Lit(s, i, l);
    Ws1(s, a)
  }

  /** What may follow spaces: a word that begins with none, or a quote. */
  predicate Firm(p: Pattern) {
    Sharp(p) && Separates(Spaces(1), Next(p))
  }

  lemma FlagSharp(l: string, p: Pattern)
    requires Firm(p) && l != "" && !IsSpace(l[0])
    ensures Firm(Flag(l, p)) && Sharp(Then(Spaces(0), Flag(l, p))) && Sharp(Then(Spaces(1), Flag(l, p)))
  {
    assert Sharp(Then(Spaces(1), p));
  }

  lemma FlagRun(s: string, i: nat, l: string, p: Pattern)
    requires i <= |s|
    ensures Run(Flag(l, p), s, i) == match Gapped(s, i, l) case None => None case Some(b) => Run(p, s, b)
  {
    hide Ws, Ws1, Lit, End;
    Ends(s);
  }

  lemma StatementRun(s: string, l: string, p: Pattern)
    ensures Run(Statement(l, p), s, 0) == match Gapped(s, Ws(s, 0), l) case None => None case Some(b) => Run(p, s, b)
  {
    hide Ws, End, Flag;
    Ends(s);
    FlagRun(s, Ws(s, 0), l, p);
  }

  lemma OneOfEnds(words: seq<string>, s: string)
    requires forall w :: w in words ==> w != ""
    ensures forall i: nat :: i <= |s| ==>
              End(OneOf(words), s, i)
              == if Quoted(s, i, 1).Some? && s[i + 1..Quoted(s, i, 1).value - 1] in words then Quoted(s, i, 1) else None
  {
  }

  // ---------------------------------------------------------------- the patterns

  /** A rename with a quoted uuid, marked where group 1 ends and group 3 begins. */
  function UuidPattern(): Pattern {
    Statement("rename", Flag("-uid", UuidPart()))
  }

  function UuidPart(): Pattern {
    Then(Mark, Then(Quote(1), Then(Mark, Then(Spaces(0), Then(Word(";"), Then(Any, Done))))))
  }

  lemma UuidSharp()
    ensures Sharp(UuidPattern())
  {
    hide Flag;
    FlagSharp("-uid", UuidPart());
    FlagSharp("rename", Flag("-uid", UuidPart()));
  }

  lemma UuidPartRun(s: string, d: nat)
    requires d <= |s|
    ensures Run(UuidPart(), s, d)
         == match Quoted(s, d, 1)
            case None => None
            case Some(e) => if Lit(s, Ws(s, e), ";").Some? then Some(Cons(d, Cons(e, Nil))) else None
  {
    hide Ws, Lit, Quoted, End;
    Ends(s);
  }

  lemma UuidRenameIff(s: string, m: (nat, nat))
    ensures UuidRename(s) == Some(m) <==> Matches(UuidPattern(), s, 0, Cons(m.0, Cons(m.1, Nil)))
  {
    hide Matches, Run, Sharp, Ws, Ws1, Lit, Quoted, UuidPart, Flag, Statement;
    UuidSharp();
    RunIff(UuidPattern(), s, 0, Cons(m.0, Cons(m.1, Nil)));
    StatementRun(s, "rename", Flag("-uid", UuidPart()));
    var b := Gapped(s, Ws(s, 0), "rename");
    if b.Some? {
      FlagRun(s, b.value, "-uid", UuidPart());
      var d := Gapped(s, b.value, "-uid");
      if d.Some? { UuidPartRun(s, d.value); }
    }
  }

  /** A workspace mapping of one quoted name to another. */
  function WorkspacePattern(): Pattern {
    Statement("workspace", Flag("-fr", WorkspacePart()))
  }

  function WorkspacePart(): Pattern {
    Then(Quote(0), Then(Spaces(1), Then(Quote(0), Then(Spaces(0), Then(Word(";"), Then(Any, Done))))))
  }

  lemma WorkspaceSharp()
    ensures Sharp(WorkspacePattern())
  {
    hide Flag;
    FlagSharp("-fr", WorkspacePart());
    FlagSharp("workspace", Flag("-fr", WorkspacePart()));
  }

  lemma WorkspacePartRun(s: string, d: nat)
    requires d <= |s|
    ensures Quoted(s, d, 0).None? ==> Run(WorkspacePart(), s, d).None?
    ensures Quoted(s, d, 0).Some? ==>
              (Run(WorkspacePart(), s, d).Some?
          <==> match Ws1(s, Quoted(s, d, 0).value)
            case None => false
               case Some(f) => Quoted(s, f, 0).Some? && Lit(s, Ws(s, Quoted(s, f, 0).value), ";").Some?)
  {
    hide Ws, Ws1, Lit, Quoted, End;
    Ends(s);
  }

  lemma WorkspaceFrIff(s: string)
    ensures WorkspaceFr(s).Some? <==> Accepts(WorkspacePattern(), s)
  {
    hide Accepts, Run, Sharp, Ws, Ws1, Lit, Quoted, WorkspacePart, Flag, Statement;
    WorkspaceSharp();
    AcceptsIff(WorkspacePattern(), s);
    StatementRun(s, "workspace", Flag("-fr", WorkspacePart()));
    var b := Gapped(s, Ws(s, 0), "workspace");
    if b.Some? {
      FlagRun(s, b.value, "-fr", WorkspacePart());
      var d := Gapped(s, b.value, "-fr");
      if d.Some? { WorkspacePartRun(s, d.value); }
    }
  }

  function NodeNames(): seq<string> {
    ["uiConfigurationScriptNode", "sceneConfigurationScriptNode"]
  }

  /** The creation of one of the two script nodes Maya rewrites on every save. */
  function ScriptPattern(): Pattern {
    Statement("createNode", Flag("script", Flag("-n", ScriptPart())))
  }

  function ScriptPart(): Pattern {
    Then(OneOf(NodeNames()), Then(Any, Done))
  }

  lemma NodeNamesQuoteFree()
    ensures forall w :: w in NodeNames() <==> VolatileNode(w)
    ensures forall w :: w in NodeNames() ==> w != "" && QuoteFree(w)
  {
    assert QuoteFree("uiConfigurationScriptNode") && QuoteFree("sceneConfigurationScriptNode");
    assert NodeNames()[0] == "uiConfigurationScriptNode" && NodeNames()[1] == "sceneConfigurationScriptNode";
  }

  lemma ScriptSharp()
    ensures Sharp(ScriptPattern())
  {
    hide Flag, NodeNames;
    NodeNamesQuoteFree();
    FlagSharp("-n", ScriptPart());
    FlagSharp("script", Flag("-n", ScriptPart()));
    FlagSharp("createNode", Flag("script", Flag("-n", ScriptPart())));
  }

  lemma ScriptPartRun(s: string, f: nat)
    requires f <= |s|
    ensures Run(ScriptPart(), s, f).Some?
       <==> Quoted(s, f, 1).Some? && VolatileNode(s[f + 1..Quoted(s, f, 1).value - 1])
  {
    hide Quoted, End, NodeNames, VolatileNode;
    Ends(s);
    NodeNamesQuoteFree();
    OneOfEnds(NodeNames(), s);
  }

  lemma ScriptNodeCreateIff(s: string)
    ensures ScriptNodeCreate(s).Some? <==> Accepts(ScriptPattern(), s)
  {
    hide Accepts, Run, Sharp, Ws, Ws1, Lit, Quoted, ScriptPart, Flag, Statement, VolatileNode;
    ScriptSharp();
    AcceptsIff(ScriptPattern(), s);
    StatementRun(s, "createNode", Flag("script", Flag("-n", ScriptPart())));
    var b := Gapped(s, Ws(s, 0), "createNode");
    if b.Some? {
      FlagRun(s, b.value, "script", Flag("-n", ScriptPart()));
      var d := Gapped(s, b.value, "script");
      if d.Some? {
        FlagRun(s, d.value, "-n", ScriptPart());
        var f := Gapped(s, d.value, "-n");
        if f.Some? { ScriptPartRun(s, f.value); }
      }
    }
  }

  /** The semicolon that ends both statement and line. */
  function StatementEnd(): Pattern {
    Then(Spaces(0), Then(Word(";"), Then(Spaces(0), Done)))
  }

  lemma StatementEndRun(s: string, i: nat)
    requires i <= |s|
    ensures Run(StatementEnd(), s, i) == if EndsStatement(s, i) then Some(Nil) else None
  {
    var j := Ws(s, i);
    assert At(s, j, ";") <==> j < |s| && s[j] == ';' by { if j < |s| { assert s[j..j + 1][0] == s[j]; } }
  }

  /** A requirement of some Maya version, in letters of either case. */
  function RequiresPattern(): Pattern {
    Then(Spaces(0), FoldFlag("requires", FoldFlag("maya", Then(Quote(0), StatementEnd()))))
  }

  function FoldFlag(l: string, p: Pattern): Pattern {
    Then(Fold(l), Then(Spaces(1), p))
  }

  lemma RequiresSharp()
    ensures Sharp(RequiresPattern())
  {
  }

  lemma FoldFlagRun(s: string, i: nat, l: string, p: Pattern)
    requires i <= |s|
    ensures Run(FoldFlag(l, p), s, i)
         == if FoldAt(s, i, l) && Ws1(s, i + |l|).Some? then Run(p, s, Ws1(s, i + |l|).value) else None
  {
    hide Ws, Ws1, FoldAt, End;
    FoldWithin(s, i, l);
    Ends(s);
  }

  lemma FoldWithin(s: string, i: nat, l: string)
    ensures FoldAt(s, i, l) ==> i + |l| <= |s|
  {
  }

  lemma RequiresMayaIff(s: string)
    ensures RequiresMaya(s) <==> Accepts(RequiresPattern(), s)
  {
    hide Accepts, Run, Sharp, Ws, Ws1, Quoted, FoldAt, EndsStatement, FoldFlag, StatementEnd;
    RequiresSharp();
    AcceptsIff(RequiresPattern(), s);
    var last := Then(Quote(0), StatementEnd());
    var i := Ws(s, 0);
    SpacesRun(s, FoldFlag("requires", FoldFlag("maya", last)));
    FoldFlagRun(s, i, "requires", FoldFlag("maya", last));
    FoldWithin(s, i, "requires");
    if FoldAt(s, i, "requires") && Ws1(s, i + 8).Some? {
      var a := Ws1(s, i + 8).value;
      FoldFlagRun(s, a, "maya", last);
      FoldWithin(s, a, "maya");
      if FoldAt(s, a, "maya") && Ws1(s, a + 4).Some? { ValueRunEnd(s, Ws1(s, a + 4).value); }
    }
  }

  lemma SpacesRun(s: string, p: Pattern)
    ensures Run(Then(Spaces(0), p), s, 0) == Run(p, s, Ws(s, 0))
  {
    hide Ws, End;
    Ends(s);
  }

  lemma ValueRunEnd(s: string, b: nat)
    requires b <= |s|
    ensures Run(Then(Quote(0), StatementEnd()), s, b).Some?
       <==> Quoted(s, b, 0).Some? && EndsStatement(s, Quoted(s, b, 0).value)
  {
    hide End, Quoted, EndsStatement, StatementEnd;
    Ends(s);
    if Quoted(s, b, 0).Some? { StatementEndRun(s, Quoted(s, b, 0).value); }
  }

  /** A file information statement, marked around the quoted key. */
  function FileInfoPattern(): Pattern {
    Statement("fileInfo", FileInfoPart())
  }

  function FileInfoPart(): Pattern {
    Then(Mark, Then(Quote(1), Then(Mark, Then(Spaces(1), ValuePart()))))
  }

  function ValuePart(): Pattern {
    Then(Word("\""), Then(Value, Then(Word("\""), StatementEnd())))
  }

  lemma FileInfoSharp()
    ensures Sharp(FileInfoPattern())
  {
    hide Flag;
    FlagSharp("fileInfo", FileInfoPart());
  }

  /** A quoted value that ends the statement. */
  predicate ValueAt(s: string, d: nat)
    requires d <= |s|
  {
    match Lit(s, d, "\"")
    case None => false
    case Some(e) =>
      match Lit(s, ValueEnd(s, e), "\"")
      case None => false
      case Some(f) => EndsStatement(s, f)
  }

  lemma ValuePartRun(s: string, d: nat)
    requires d <= |s|
    ensures Run(ValuePart(), s, d) == if ValueAt(s, d) then Some(Nil) else None
  {
    hide End, Lit, ValueEnd, EndsStatement, StatementEnd;
    Ends(s);
    forall f: nat | f <= |s| ensures Run(StatementEnd(), s, f) == if EndsStatement(s, f) then Some(Nil) else None {
      StatementEndRun(s, f);
    }
  }

  lemma FileInfoPartRun(s: string, b: nat)
    requires b <= |s|
    ensures var c := Quoted(s, b, 1);
            Run(FileInfoPart(), s, b) ==
            if c.Some? && Ws1(s, c.value).Some? && ValueAt(s, Ws1(s, c.value).value)
            then Some(Cons(b, Cons(c.value, Nil))) else None
  {
    hide End, Ws1, Quoted, ValueAt, ValuePart;
    Ends(s);
    forall d: nat | d <= |s| ensures Run(ValuePart(), s, d) == if ValueAt(s, d) then Some(Nil) else None {
      ValuePartRun(s, d);
    }
  }

  /** Quoted text of at least one character from `b` to `c`, `word` between the quotes. */
  predicate InQuotes(s: string, b: nat, c: nat, word: string) {
    b + 2 <= c <= |s| && s[b + 1..c - 1] == word
  }

  lemma FileInfoRun(s: string) returns (b: nat, c: nat)
    ensures FileInfo(s).None? ==> Run(FileInfoPattern(), s, 0).None?
    ensures FileInfo(s).Some? ==> InQuotes(s, b, c, FileInfo(s).value)
    ensures FileInfo(s).Some? ==> Run(FileInfoPattern(), s, 0) == Some(Cons(b, Cons(c, Nil)))
  {
    hide Run, Ws, Ws1, Lit, Quoted, EndsStatement, ValueEnd, FileInfoPart, Statement;
    StatementRun(s, "fileInfo", FileInfoPart());
    var g := Gapped(s, Ws(s, 0), "fileInfo");
    b, c := 0, 0;
    if g.Some? {
      b := g.value;
      FileInfoPartRun(s, b);
      if Quoted(s, b, 1).Some? { c := Quoted(s, b, 1).value; }
    }
  }

  /** The key is what stands between the quotes, and there is no other match. */
  lemma FileInfoIff(s: string, key: string)
    ensures FileInfo(s) == Some(key)
       <==> exists b: nat, c: nat :: Matches(FileInfoPattern(), s, 0, Cons(b, Cons(c, Nil))) && InQuotes(s, b, c, key)
  {
    hide Matches, Sharp, FileInfo, Run, FileInfoPattern;
    FileInfoSharp();
    forall marks ensures Matches(FileInfoPattern(), s, 0, marks) <==> Run(FileInfoPattern(), s, 0) == Some(marks) {
      RunIff(FileInfoPattern(), s, 0, marks);
    }
    var b, c := FileInfoRun(s);
  }

  // ---------------------------------------------------------------- `setAttr` with a string

  function AttrNames(): seq<string> {
    [".b", ".before", ".a", ".after"]
  }

  /** The beginning of a string assigned to one of the four script attributes, marked around the quoted
      attribute and before the opening quote. */
  function SetAttrPattern(): Pattern {
    Statement("setAttr", SetAttrPart())
  }

  function SetAttrPart(): Pattern {
    Then(Mark, Then(OneOf(AttrNames()), Then(Mark, StringTailPattern())))
  }

  function StringTailPattern(): Pattern {
    Then(Spaces(1), Flag("-type", Flag("\"string\"", OpenPattern())))
  }

  /** An opening quote, marked, and the rest of the line. */
  function OpenPattern(): Pattern {
    Then(Mark, Then(Word("\""), Then(Any, Done)))
  }

  lemma AttrNamesQuoteFree()
    ensures forall w :: w in AttrNames() <==> VolatileAttr(w)
    ensures forall w :: w in AttrNames() ==> w != "" && QuoteFree(w)
  {
    var names := AttrNames();
    assert names[0] == ".b" && names[1] == ".before" && names[2] == ".a" && names[3] == ".after";
  }

  lemma SetAttrSharp()
    ensures Sharp(SetAttrPattern())
  {
    hide Flag, AttrNames, StringTailPattern;
    AttrNamesQuoteFree();
    StringTailSharp();
    FlagSharp("setAttr", SetAttrPart());
  }

  lemma StringTailSharp()
    ensures Sharp(StringTailPattern())
  {
    hide Flag;
    FlagSharp("\"string\"", OpenPattern());
    FlagSharp("-type", Flag("\"string\"", OpenPattern()));
  }

  lemma OpenRun(s: string, h: nat)
    requires h <= |s|
    ensures Run(OpenPattern(), s, h) == if Lit(s, h, "\"").Some? then Some(Cons(h, Nil)) else None
  {
    hide End, Lit;
    Ends(s);
  }

  lemma StringTailRun(s: string, c: nat)
    requires c <= |s|
    ensures Run(StringTailPattern(), s, c)
         == match StringTail(s, c) case None => None case Some(h) => Some(Cons(h, Nil))
  {
    hide Run, Ws1, Lit, OpenPattern, Flag;
    var last := Flag("\"string\"", OpenPattern());
    Spaces1Run(s, c, Flag("-type", last));
    if Ws1(s, c).Some? {
      var d := Ws1(s, c).value;
      FlagRun(s, d, "-type", last);
      var f := Gapped(s, d, "-type");
      if f.Some? {
        FlagRun(s, f.value, "\"string\"", OpenPattern());
        var h := Gapped(s, f.value, "\"string\"");
        if h.Some? { OpenRun(s, h.value); }
      }
    }
  }

  lemma Spaces1Run(s: string, i: nat, p: Pattern)
    requires i <= |s|
    ensures Run(Then(Spaces(1), p), s, i) == match Ws1(s, i) case None => None case Some(j) => Run(p, s, j)
  {
    hide Ws1, End;
    Ends(s);
  }

  lemma SetAttrPartRun(s: string, b: nat)
    requires b <= |s|
    ensures var c := Quoted(s, b, 1);
            Run(SetAttrPart(), s, b) ==
            if c.Some? && VolatileAttr(s[b + 1..c.value - 1]) && StringTail(s, c.value).Some?
            then Some(Cons(b, Cons(c.value, Cons(StringTail(s, c.value).value, Nil)))) else None
  {
    hide End, Quoted, StringTail, StringTailPattern, AttrNames, VolatileAttr;
    Ends(s);
    AttrNamesQuoteFree();
    OneOfEnds(AttrNames(), s);
    if Quoted(s, b, 1).Some? { StringTailRun(s, Quoted(s, b, 1).value); }
  }

  lemma SetAttrRun(s: string) returns (b: nat, c: nat)
    ensures SetAttrString(s).None? ==> Run(SetAttrPattern(), s, 0).None?
    ensures SetAttrString(s).Some? ==> InQuotes(s, b, c, SetAttrString(s).value.0)
    ensures SetAttrString(s).Some? ==>
              Run(SetAttrPattern(), s, 0) == Some(Cons(b, Cons(c, Cons(SetAttrString(s).value.1, Nil))))
  {
    hide Run, Ws, Ws1, Lit, Quoted, StringTail, VolatileAttr, SetAttrPart, Statement;
    StatementRun(s, "setAttr", SetAttrPart());
    var g := Gapped(s, Ws(s, 0), "setAttr");
    b, c := 0, 0;
    if g.Some? {
      b := g.value;
      SetAttrPartRun(s, b);
      if Quoted(s, b, 1).Some? { c := Quoted(s, b, 1).value; }
    }
  }

  lemma SetAttrStringIff(s: string, m: (string, nat))
    ensures SetAttrString(s) == Some(m)
       <==> exists b: nat, c: nat ::
              Matches(SetAttrPattern(), s, 0, Cons(b, Cons(c, Cons(m.1, Nil)))) && InQuotes(s, b, c, m.0)
  {
    hide Matches, Sharp, SetAttrString, Run, SetAttrPattern;
    SetAttrSharp();
    forall marks ensures Matches(SetAttrPattern(), s, 0, marks) <==> Run(SetAttrPattern(), s, 0) == Some(marks) {
      RunIff(SetAttrPattern(), s, 0, marks);
    }
    var b, c := SetAttrRun(s);
  }

  // ---------------------------------------------------------------- plugin payloads

  /** A type flag and the beginning of a string, marked around the quoted type name and before the quote. */
  function TypePattern(): Pattern {
    Flag("-type", TypePart())
  }

  function TypePart(): Pattern {
    Then(Mark, Then(Quote(1), Then(Mark, Then(Spaces(1), OpenPattern()))))
  }

  /** A `setAttr` with a type flag anywhere behind it, marked before the flag too. */
  function PayloadPattern(): Pattern {
    Statement("setAttr", Then(Any, Then(Mark, TypePattern())))
  }

  lemma TypeSharp()
    ensures Sharp(TypePattern())
  {
    hide Flag;
    FlagSharp("-type", TypePart());
  }

  lemma TypePartRun(s: string, b: nat)
    requires b <= |s|
    ensures var c := Quoted(s, b, 1);
            Run(TypePart(), s, b) ==
            if c.Some? && Ws1(s, c.value).Some? && Lit(s, Ws1(s, c.value).value, "\"").Some?
            then Some(Cons(b, Cons(c.value, Cons(Ws1(s, c.value).value, Nil)))) else None
  {
    hide End, Quoted, Ws1, Lit, OpenPattern;
    Ends(s);
    forall h: nat | h <= |s| ensures Run(OpenPattern(), s, h) == if Lit(s, h, "\"").Some? then Some(Cons(h, Nil)) else None {
      OpenRun(s, h);
    }
  }

  lemma TypeTailRun(s: string, p: nat)
    requires p <= |s|
    ensures Run(TypePattern(), s, p)
         == match TypeTail(s, p) case None => None case Some(t) => Some(Cons(t.0 - 1, Cons(t.1 + 1, Cons(t.2, Nil))))
  {
    hide Run, Ws1, Lit, Quoted, TypePart, Flag;
    FlagRun(s, p, "-type", TypePart());
    var b := Gapped(s, p, "-type");
    if b.Some? { TypePartRun(s, b.value); }
  }

  /** Where a payload statement can have its `-type`: the greedy `\s+` before it loses no match. */
  lemma PayloadStarts(s: string, p: nat, marks: Marks)
    ensures Matches(PayloadPattern(), s, 0, Cons(p, marks))
       <==> match Gapped(s, Ws(s, 0), "setAttr")
            case None => false
            case Some(b) => b <= p <= |s| && Matches(TypePattern(), s, p, marks)
  {
    hide Covers, Matches, Ws, Ws1, Lit, TypePattern;
    if Matches(PayloadPattern(), s, 0, Cons(p, marks)) {
      StartsBehindGap(s, p, marks);
    }
    if Gapped(s, Ws(s, 0), "setAttr").Some? {
      var b := Gapped(s, Ws(s, 0), "setAttr").value;
      if b <= p <= |s| && Matches(TypePattern(), s, p, marks) { StartsAnywhere(s, b, p, marks); }
    }
  }

  lemma StartsBehindGap(s: string, p: nat, marks: Marks)
    requires Matches(PayloadPattern(), s, 0, Cons(p, marks))
    ensures p <= |s| && Matches(TypePattern(), s, p, marks)
    ensures Gapped(s, Ws(s, 0), "setAttr").Some? && Gapped(s, Ws(s, 0), "setAttr").value <= p
  {
    hide Matches, Covers, End, Ws, Ws1, At, TypePattern;
    var any := Then(Any, Then(Mark, TypePattern()));
    var all := Cons(p, marks);
    var i := Split(Spaces(0), Flag("setAttr", any), s, 0, all);
    var j := Split(Word("setAttr"), Then(Spaces(1), any), s, i, all);
    var k := Split(Spaces(1), any, s, j, all);
    var q := Split(Any, Then(Mark, TypePattern()), s, k, all);
    Marked(TypePattern(), s, q, all);
    OnlyEnd(Spaces(0), Some(Word("setAttr")), s, 0, i, j);
    Ends(s);
    WordAt(s, i, j, "setAttr");
    TypeBegins(s, p, marks);
    SpacesWithin(s, j, k);
    BehindSpaces(s, j, p);
  }

  lemma Split(t: Token, rest: Pattern, s: string, i: nat, marks: Marks) returns (j: nat)
    requires !t.Mark? && Matches(Then(t, rest), s, i, marks)
    ensures i <= j <= |s| && Covers(t, s, i, j) && Matches(rest, s, j, marks)
  {
    hide Covers;
    j :| i <= j <= |s| && Covers(t, s, i, j) && Matches(rest, s, j, marks);
  }

  lemma Glue(t: Token, rest: Pattern, s: string, i: nat, j: nat, marks: Marks)
    requires !t.Mark? && Covers(t, s, i, j) && Matches(rest, s, j, marks)
    ensures Matches(Then(t, rest), s, i, marks)
  {
    CoversWithin(t, s, i, j);
    hide Covers;
  }

  lemma CoversWithin(t: Token, s: string, i: nat, j: nat)
    requires Covers(t, s, i, j)
    ensures i <= j <= |s|
  {
  }

  lemma Marked(rest: Pattern, s: string, i: nat, marks: Marks)
    ensures Matches(Then(Mark, rest), s, i, marks) <==> marks.Cons? && marks.pos == i && Matches(rest, s, i, marks.rest)
  {
  }

  lemma BehindSpaces(s: string, j: nat, p: nat)
    requires j <= p < |s| && !IsSpace(s[p])
    ensures Ws(s, j) <= p
  {
  }

  lemma WordAt(s: string, i: nat, j: nat, l: string)
    ensures Covers(Word(l), s, i, j) <==> At(s, i, l) && j == i + |l|
  {
  }

  lemma TypeBegins(s: string, p: nat, marks: Marks)
    requires Matches(TypePattern(), s, p, marks)
    ensures p < |s| && !IsSpace(s[p])
  {
    hide Matches, Covers;
    var k := Split(Word("-type"), Then(Spaces(1), TypePart()), s, p, marks);
    TakesSome(Word("-type"), s, p, k);
    BeginsWith(Word("-type"), s, p, k);
  }

  lemma SpacesWithin(s: string, j: nat, k: nat)
    requires Covers(Spaces(1), s, j, k)
    ensures j < k && k <= Ws(s, j) && Ws1(s, j) == Some(Ws(s, j))
  {
  }

  lemma StartsAnywhere(s: string, b: nat, p: nat, marks: Marks)
    requires Gapped(s, Ws(s, 0), "setAttr") == Some(b) && b <= p <= |s| && Matches(TypePattern(), s, p, marks)
    ensures Matches(PayloadPattern(), s, 0, Cons(p, marks))
  {
    hide Matches, Covers, Ws, Ws1, At, TypePattern;
    var any := Then(Any, Then(Mark, TypePattern()));
    var all := Cons(p, marks);
    var i := Ws(s, 0);
    Marked(TypePattern(), s, p, all);
    AnyCovers(s, b, p);
    Glue(Any, Then(Mark, TypePattern()), s, b, p, all);
    SpacesCover(s, i + 7);
    Glue(Spaces(1), any, s, i + 7, b, all);
    WordAt(s, i, i + 7, "setAttr");
    Glue(Word("setAttr"), Then(Spaces(1), any), s, i, i + 7, all);
    SpacesCover(s, 0);
    Glue(Spaces(0), Flag("setAttr", any), s, 0, i, all);
  }

  lemma AnyCovers(s: string, i: nat, j: nat)
    requires i <= j <= |s|
    ensures Covers(Any, s, i, j)
  {
  }

  lemma SpacesCover(s: string, i: nat)
    requires i <= |s|
    ensures Covers(Spaces(0), s, i, Ws(s, i))
    ensures Ws1(s, i).Some? ==> Covers(Spaces(1), s, i, Ws1(s, i).value)
  {
  }

  /** No match has its `-type` before `p` (`.*?`). */
  ghost predicate Earliest(s: string, p: nat) {
    forall q: nat, marks :: Matches(PayloadPattern(), s, 0, Cons(q, marks)) ==> p <= q
  }

  /** The match with the earliest `-type`, at `p`, finds the type `m.0` and the quote at `m.1`. */
  ghost predicate PayloadMatch(s: string, p: nat, b: nat, c: nat, m: (string, nat)) {
    && Matches(PayloadPattern(), s, 0, Cons(p, Cons(b, Cons(c, Cons(m.1, Nil)))))
    && InQuotes(s, b, c, m.0) && Earliest(s, p)
  }

  /** Behind `setAttr` and its spaces, the type tail stands at `p`. */
  predicate TypeAt(s: string, p: nat, marks: Marks) {
    && Gapped(s, Ws(s, 0), "setAttr").Some? && Gapped(s, Ws(s, 0), "setAttr").value <= p <= |s| && TypeTail(s, p).Some?
    && var t := TypeTail(s, p).value; marks == Cons(t.0 - 1, Cons(t.1 + 1, Cons(t.2, Nil)))
  }

  lemma PayloadAt(s: string, p: nat, marks: Marks)
    ensures Matches(PayloadPattern(), s, 0, Cons(p, marks)) <==> TypeAt(s, p, marks)
  {
    hide Matches, Sharp, Run, PayloadPattern, TypePattern, TypeTail, Ws, Gapped;
    PayloadStarts(s, p, marks);
    if p <= |s| {
      TypeSharp();
      RunIff(TypePattern(), s, p, marks);
      TypeTailRun(s, p);
    }
  }

  lemma PayloadFound(s: string) returns (p: nat, b: nat, c: nat)
    requires PluginPayload(s).Some?
    ensures PayloadMatch(s, p, b, c, PluginPayload(s).value)
  {
    hide Matches, PayloadPattern, TypeTail, Ws, Ws1, At;
    var g, start, first := PayloadParts(s);
    p := first;
    var t := TypeTail(s, p).value;
    b, c := t.0 - 1, t.1 + 1;
    PayloadAt(s, p, Cons(b, Cons(c, Cons(t.2, Nil))));
    forall q: nat, marks | Matches(PayloadPattern(), s, 0, Cons(q, marks)) ensures p <= q { PayloadAt(s, q, marks); }
  }

  lemma PayloadOnly(s: string, p: nat, b: nat, c: nat, m: (string, nat))
    requires PayloadMatch(s, p, b, c, m)
    ensures PluginPayload(s) == Some(m)
  {
    hide Matches, PayloadPattern, TypeTail, Ws, Ws1;
    PayloadAt(s, p, Cons(b, Cons(c, Cons(m.1, Nil))));
    var q := FirstTail(s, Gapped(s, Ws(s, 0), "setAttr").value).value;
    var t := TypeTail(s, q).value;
    PayloadAt(s, q, Cons(t.0 - 1, Cons(t.1 + 1, Cons(t.2, Nil))));
    assert q == p;
  }

  lemma PluginPayloadIff(s: string, m: (string, nat))
    ensures PluginPayload(s) == Some(m)
       <==> exists p: nat, b: nat, c: nat :: PayloadMatch(s, p, b, c, m)
  {
    hide *;
    if PluginPayload(s) == Some(m) {
      var p, b, c := PayloadFound(s);
    }
    forall p: nat, b: nat, c: nat | PayloadMatch(s, p, b, c, m) ensures PluginPayload(s) == Some(m) {
      PayloadOnly(s, p, b, c, m);
    }
  }

  // ---------------------------------------------------------------- comments

  /** A comment that has the needle in it, marked around the needle. */
  function CommentPattern(needle: Token): Pattern {
    Then(Spaces(0), Then(Word("//"), Then(Any, Then(Mark, Then(needle, Then(Mark, Then(Any, Done)))))))
  }

  /** `\b` */
  predicate Edge(alnum: char -> bool, s: string, j: nat) {
    (0 < j <= |s| && IsWord(alnum, s[j - 1])) != (j < |s| && IsWord(alnum, s[j]))
  }

  predicate CommentHas(s: string, needle: Token, j: nat, k: nat) {
    Matches(CommentPattern(needle), s, 0, Cons(j, Cons(k, Nil)))
  }

  lemma CommentMatches(s: string, needle: Token, j: nat, k: nat)
    requires !needle.Mark?
    ensures CommentHas(s, needle, j, k)
       <==> Comment(s).Some? && Comment(s).value <= j && Covers(needle, s, j, k)
  {
    hide Matches, Covers, Ws, At, End;
    var marks := Cons(j, Cons(k, Nil));
    var last := Then(Mark, Then(Any, Done));
    var middle := Then(Mark, Then(needle, last));
    var i := Ws(s, 0);
    if Matches(CommentPattern(needle), s, 0, marks) {
      var a := Split(Spaces(0), Then(Word("//"), Then(Any, middle)), s, 0, marks);
      var b := Split(Word("//"), Then(Any, middle), s, a, marks);
      var c := Split(Any, middle, s, b, marks);
      Marked(Then(needle, last), s, c, marks);
      var d := Split(needle, last, s, c, marks.rest);
      Marked(Then(Any, Done), s, d, marks.rest);
      OnlyEnd(Spaces(0), Some(Word("//")), s, 0, a, b);
      Ends(s);
      WordAt(s, a, b, "//");
    }
    if Comment(s).Some? && Comment(s).value <= j && Covers(needle, s, j, k) {
      CoversWithin(needle, s, j, k);
      AnyCovers(s, k, |s|);
      Finished(s);
      Glue(Any, Done, s, k, |s|, Nil);
      Marked(Then(Any, Done), s, k, marks.rest);
      Glue(needle, last, s, j, k, marks.rest);
      Marked(Then(needle, last), s, j, marks);
      AnyCovers(s, i + 2, j);
      Glue(Any, middle, s, i + 2, j, marks);
      WordAt(s, i, i + 2, "//");
      Glue(Word("//"), Then(Any, middle), s, i, i + 2, marks);
      SpacesCover(s, 0);
      Glue(Spaces(0), Then(Word("//"), Then(Any, middle)), s, 0, i, marks);
    }
  }

  lemma Finished(s: string)
    ensures Matches(Done, s, |s|, Nil)
  {
  }

  /** The needle begins at a word boundary. */
  lemma LastModifiedIff(alnum: char -> bool, s: string)
    ensures LastModified(alnum, s)
       <==> exists j: nat, k: nat :: CommentHas(s, Fold("last modified:"), j, k) && Edge(alnum, s, j)
  {
    hide CommentHas, Comment, FoldChar, Covers, FoldAt, IsWord;
    var needle := "last modified:";
    forall j: nat, k: nat
      ensures CommentHas(s, Fold(needle), j, k)
         <==> Comment(s).Some? && Comment(s).value <= j && FoldAt(s, j, needle) && k == j + 14
    {
      CommentMatches(s, Fold(needle), j, k);
      FoldCovers(s, needle, j, k);
    }
    forall j: nat | FoldAt(s, j, needle) ensures j < |s| && IsWord(alnum, s[j]) { FoldWord(alnum, s, j, needle); }
    if LastModified(alnum, s) {
      var j :| Comment(s).value <= j < |s| && FoldAt(s, j, needle) && !IsWord(alnum, s[j - 1]);
      assert CommentHas(s, Fold(needle), j, j + 14);
      assert Edge(alnum, s, j);
    }
    if exists j: nat, k: nat :: CommentHas(s, Fold(needle), j, k) && Edge(alnum, s, j) {
      var j: nat, k: nat :| CommentHas(s, Fold(needle), j, k) && Edge(alnum, s, j);
      assert FoldAt(s, j, needle) && !IsWord(alnum, s[j - 1]);
    }
  }

  lemma FoldCovers(s: string, l: string, j: nat, k: nat)
    ensures Covers(Fold(l), s, j, k) <==> FoldAt(s, j, l) && k == j + |l|
  {
  }

  /** These needles begin and end with word characters. */
  lemma FoldWord(alnum: char -> bool, s: string, j: nat, l: string)
    requires FoldAt(s, j, l) && l != "" && l[0] in "lc"
    ensures j < |s| && IsWord(alnum, s[j])
    ensures j + |l| <= |s| && (l[|l| - 1] == 'a' ==> IsWord(alnum, s[j + |l| - 1]))
  {
    assert FoldChar(s[j + 0], l[0]) && FoldChar(s[j + (|l| - 1)], l[|l| - 1]);
  }

  /** The needle stands between word boundaries. */
  lemma CreatedByMayaIff(alnum: char -> bool, s: string)
    ensures CreatedByMaya(alnum, s)
       <==> exists j: nat, k: nat :: CommentHas(s, Fold("created by maya"), j, k)
                                     && Edge(alnum, s, j) && Edge(alnum, s, k)
  {
    hide CommentHas, Comment, FoldChar, Covers, FoldAt, IsWord;
    var needle := "created by maya";
    forall j: nat, k: nat
      ensures CommentHas(s, Fold(needle), j, k)
         <==> Comment(s).Some? && Comment(s).value <= j && FoldAt(s, j, needle) && k == j + 15
    {
      CommentMatches(s, Fold(needle), j, k);
      FoldCovers(s, needle, j, k);
    }
    forall j: nat | FoldAt(s, j, needle) ensures j + 15 <= |s| && IsWord(alnum, s[j]) && IsWord(alnum, s[j + 14]) {
      FoldWord(alnum, s, j, needle);
    }
    if CreatedByMaya(alnum, s) {
      var j :| Comment(s).value <= j < |s| && FoldAt(s, j, needle) && !IsWord(alnum, s[j - 1])
               && (j + 15 == |s| || !IsWord(alnum, s[j + 15]));
      assert CommentHas(s, Fold(needle), j, j + 15);
      assert Edge(alnum, s, j) && Edge(alnum, s, j + 15);
    }
    if exists j: nat, k: nat :: CommentHas(s, Fold(needle), j, k) && Edge(alnum, s, j) && Edge(alnum, s, k) {
      var j: nat, k: nat :| CommentHas(s, Fold(needle), j, k) && Edge(alnum, s, j) && Edge(alnum, s, k);
      assert FoldAt(s, j, needle) && !IsWord(alnum, s[j - 1]) && (j + 15 == |s| || !IsWord(alnum, s[j + 15]));
    }
  }

  /** The same, in exactly these letters. */
  lemma MayaAsciiHeaderIff(alnum: char -> bool, s: string)
    ensures MayaAsciiHeader(alnum, s)
       <==> exists j: nat, k: nat :: CommentHas(s, Word("Maya ASCII"), j, k)
                                     && Edge(alnum, s, j) && Edge(alnum, s, k)
  {
    hide CommentHas, Comment, Covers, At, IsWord;
    var needle := "Maya ASCII";
    forall j: nat, k: nat
      ensures CommentHas(s, Word(needle), j, k)
         <==> Comment(s).Some? && Comment(s).value <= j && At(s, j, needle) && k == j + 10
    {
      CommentMatches(s, Word(needle), j, k);
      WordAt(s, j, k, needle);
    }
    forall j: nat | At(s, j, needle) ensures j + 10 <= |s| && IsWord(alnum, s[j]) && IsWord(alnum, s[j + 9]) {
      HeaderWord(alnum, s, j);
    }
    if MayaAsciiHeader(alnum, s) {
      var j :| Comment(s).value <= j < |s| && At(s, j, needle) && !IsWord(alnum, s[j - 1])
               && (j + 10 == |s| || !IsWord(alnum, s[j + 10]));
      assert CommentHas(s, Word(needle), j, j + 10);
      assert Edge(alnum, s, j) && Edge(alnum, s, j + 10);
    }
    if exists j: nat, k: nat :: CommentHas(s, Word(needle), j, k) && Edge(alnum, s, j) && Edge(alnum, s, k) {
      var j: nat, k: nat :| CommentHas(s, Word(needle), j, k) && Edge(alnum, s, j) && Edge(alnum, s, k);
      assert At(s, j, needle) && !IsWord(alnum, s[j - 1]) && (j + 10 == |s| || !IsWord(alnum, s[j + 10]));
    }
  }

  lemma HeaderWord(alnum: char -> bool, s: string, j: nat)
    requires At(s, j, "Maya ASCII")
    ensures j + 10 <= |s| && IsWord(alnum, s[j]) && IsWord(alnum, s[j + 9])
  {
    AtChars(s, j, "Maya ASCII");
    assert s[j + 0] == 'M' && s[j + 9] == 'I';
  }
}
