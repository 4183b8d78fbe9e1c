/** What the Maya canonicalizer is for: no volatile value survives, nothing else changes, and the
    content of a swallowed string has no influence. */
module MayaMeaning {
  import opened Base
  import opened Text
  import opened MayaLines
  import opened Maya
  import opened MayaTheory

  // ---------------------------------------------------------------- no volatile value survives

  predicate VolatileInfo(line: string) {
    FileInfo(line).Some? && FileInfo(line).value in VolatileKeys
  }

  /** The line carries no save-time volatility: dropped kinds do not occur, and in every other volatile
      statement the value is the fixed placeholder. */
  predicate Sanitized(cfg: Settings, line: string) {
    && !LastModified(cfg.alnum, line) && WorkspaceFr(line).None?
    && (UuidRename(line).Some? ==> line[UuidRename(line).value.0..UuidRename(line).value.1] == NO_UUID)
    && (CreatedByMaya(cfg.alnum, line) ==> line == Indent(line) + "// Created by Maya")
    && (MayaAsciiHeader(cfg.alnum, line) && !CreatedByMaya(cfg.alnum, line) ==> line == Indent(line) + "//Maya ASCII scene")
    && (RequiresMaya(line) ==> line == Indent(line) + "requires maya " + PLACEHOLDER)
    && (VolatileInfo(line) ==> line == Indent(line) + "fileInfo \"" + FileInfo(line).value + "\" " + PLACEHOLDER)
    && (IsPayload(cfg, line) && SetAttrString(line).None? ==> line[PluginPayload(line).value.1..] == PLACEHOLDER)
  }

  /** A line the machine passes on unchanged is sanitized. */
  lemma SettledIsSanitized(cfg: Settings, script: bool, line: string)
    requires PlainStep(cfg, script, line).0.Plain? && PlainStep(cfg, script, line).1 == Some(line)
    ensures Sanitized(cfg, line)
  {
    hide LastModified, UuidRename, WorkspaceFr, ScriptNodeCreate, Closes, StartsNode, SetAttrString, PluginPayload, FileInfo,
         RequiresMaya, Comment, First, VolatileType, VolatileKeys, Indent, StringPlaceholder;
    ByFirstChar(line);
    Exclusive(line);
    if UuidRename(line).Some? {
      UuidIsZero(line, UuidRename(line).value);
    } else if IsPayload(cfg, line) && SetAttrString(line).None? {
      PayloadEnd(line, PluginPayload(line).value.1);
    }
  }

  /** At most one keyword starts the line. */
  lemma Exclusive(line: string)
    ensures forall c, d :: First(line, c) && First(line, d) ==> c == d
    ensures UuidRename(line).Some? ==> !RequiresMaya(line)
  {
    if UuidRename(line).Some? {
      RenameAt(line);
      var i, l, m := Ws(line, 0), "rename", "requires";
      AtChars(line, i, l);
      assert line[i + 2] == l[2];
      FoldThird(line, i);
    }
  }

  lemma FoldThird(s: string, i: nat)
    ensures FoldAt(s, i, "requires") ==> i + 2 < |s| && FoldChar(s[i + 2], 'q')
  {
    var m := "requires";
    if FoldAt(s, i, m) { assert FoldChar(s[i + 2], m[2]); }
  }

  lemma UuidIsZero(line: string, m: (nat, nat))
    requires m.0 <= m.1 <= |line| && line[..m.0] + NO_UUID + line[m.1..] == line
    ensures line[m.0..m.1] == NO_UUID
  {
    var n := |NO_UUID|;
    assert m.1 - m.0 == n;
    Middle(line[..m.0], NO_UUID, line[m.1..]);
  }

  lemma Middle(a: string, b: string, c: string)
    ensures (a + b + c)[|a|..|a| + |b|] == b
  {
  }

  lemma PayloadEnd(line: string, e: nat)
    requires e <= |line| && line == line[..e] + PLACEHOLDER
    ensures line[e..] == PLACEHOLDER
  {
  }

  lemma {:induction false} ProcessSanitizes(cfg: Settings, mode: Mode, lines: seq<string>)
    requires GoodMode(cfg, mode)
    ensures forall line :: line in Process(cfg, mode, lines) ==> Sanitized(cfg, line)
    decreases lines
  {
    hide PlainStep, Closes, StringPlaceholder, Sanitized;
    if lines != [] {
      var r := Step(cfg, mode, lines[0]);
      if mode.Plain? { PlainStepFixed(cfg, mode.inScript, lines[0]); }
      if r.1.Some? { SettledIsSanitized(cfg, mode.inScript, r.1.value); }
      ProcessSanitizes(cfg, r.0, lines[1..]);
    }
  }

  /** No line of canonical text carries a volatile value. */
  lemma CanonicalIsSanitized(cfg: Settings, text: string)
    ensures forall line :: line in Split(CanonicalText(cfg, text)) ==> Sanitized(cfg, line)
  {
    hide Process, Sanitized, PlainStep;
    var lines, out := CanonicalLines(cfg, text);
    ProcessSanitizes(cfg, Plain(false), lines);
    EmptyIsSanitized(cfg);
  }

  lemma EmptyIsSanitized(cfg: Settings)
    ensures Sanitized(cfg, "")
  {
    hide Sanitized, PlainStep;
    NothingMatches(cfg, false, "");
    SettledIsSanitized(cfg, false, "");
  }

  // ---------------------------------------------------------------- nothing else changes

  /** Outside swallowed strings, a line that is dropped or changed is one of the volatile kinds. */
  lemma OnlyVolatileLinesChange(cfg: Settings, script: bool, line: string)
    ensures || PlainStep(cfg, script, line).1 == Some(line)
            || LastModified(cfg.alnum, line) || UuidRename(line).Some? || WorkspaceFr(line).Some?
            || (script && SetAttrString(line).Some?) || IsPayload(cfg, line)
            || CreatedByMaya(cfg.alnum, line) || MayaAsciiHeader(cfg.alnum, line) || RequiresMaya(line) || VolatileInfo(line)
  {
    hide LastModified, UuidRename, WorkspaceFr, ScriptNodeCreate, Closes, StartsNode, SetAttrString, PluginPayload, FileInfo,
         RequiresMaya, CreatedByMaya, MayaAsciiHeader, VolatileType, VolatileKeys, StringPlaceholder;
  }

  // ---------------------------------------------------------------- what each kind of line becomes

  /** `line` is `indent`, then a first character that is no space. */
  predicate Indented(line: string, indent: string, body: string) {
    line == indent + body && Blank(indent) && (body == "" || !IsSpace(body[0]))
  }

  lemma IndentIs(line: string, indent: string, body: string)
    requires Indented(line, indent, body)
    ensures Ws(line, 0) == |indent| && Indent(line) == indent
    ensures forall l: string :: At(line, |indent|, l) <==> l <= body
  {
    WsIs(line, 0, |indent|);
    forall l: string ensures At(line, |indent|, l) <==> l <= body {
      if |indent| + |l| <= |line| { assert line[|indent|..|indent| + |l|] == body[..|l|]; }
    }
  }

  /** The same lines are recognised whatever the order of the tests: each kind shuts out the others. */
  lemma KindsExclude(cfg: Settings, line: string)
    ensures UuidRename(line).Some? ==> !LastModified(cfg.alnum, line) && !StartsNode(line)
    ensures WorkspaceFr(line).Some? ==> UuidRename(line).None?
    ensures ScriptNodeCreate(line).Some? ==> !LastModified(cfg.alnum, line) && UuidRename(line).None? && WorkspaceFr(line).None?
    ensures LastModified(cfg.alnum, line) || WorkspaceFr(line).Some? ==> !StartsNode(line)
    ensures CreatedByMaya(cfg.alnum, line) || MayaAsciiHeader(cfg.alnum, line) || RequiresMaya(line) || FileInfo(line).Some? ==>
              && UuidRename(line).None? && WorkspaceFr(line).None? && ScriptNodeCreate(line).None? && SetAttrString(line).None?
              && PluginPayload(line).None? && !StartsNode(line)
    ensures RequiresMaya(line) || FileInfo(line).Some? ==>
              !LastModified(cfg.alnum, line) && !CreatedByMaya(cfg.alnum, line) && !MayaAsciiHeader(cfg.alnum, line)
    ensures FileInfo(line).Some? ==> !RequiresMaya(line)
  {
    hide UuidRename, WorkspaceFr, ScriptNodeCreate, SetAttrString, PluginPayload, FileInfo, RequiresMaya, Comment, First, Ws, At;
    ByFirstChar(line);
    Exclusive(line);
  }

  lemma DroppedKinds(cfg: Settings, script: bool, line: string)
    requires LastModified(cfg.alnum, line) || WorkspaceFr(line).Some?
    ensures PlainStep(cfg, script, line) == (Plain(script), None)
  {
    hide LastModified, UuidRename, WorkspaceFr;
    KindsExclude(cfg, line);
  }

  lemma RenamedUuid(cfg: Settings, script: bool, line: string)
    requires UuidRename(line).Some?
    ensures var m := UuidRename(line).value;
            PlainStep(cfg, script, line)
            == (Plain(script), Some(line[..m.0] + "\"00000000-0000-0000-0000-000000000000\"" + line[m.1..]))
  {
    hide LastModified, UuidRename;
    KindsExclude(cfg, line);
  }

  /** Comments, requirements and file information, behind their indentation. */
  lemma TidiedKinds(cfg: Settings, script: bool, line: string, indent: string, body: string)
    requires Indented(line, indent, body) && !LastModified(cfg.alnum, line)
    ensures var r := PlainStep(cfg, script, line);
            && (CreatedByMaya(cfg.alnum, line) ==> r == (Plain(script), Some(indent + "// Created by Maya")))
            && (MayaAsciiHeader(cfg.alnum, line) && !CreatedByMaya(cfg.alnum, line) ==>
                  r == (Plain(script), Some(indent + "//Maya ASCII scene")))
            && (RequiresMaya(line) ==> r == (Plain(script), Some(indent + "requires maya " + "\"chimera.canonical\";")))
            && (FileInfo(line).Some? ==>
                  var key := FileInfo(line).value;
                  r == (Plain(script), Some(if key in {"application", "product", "version", "cutIdentifier", "os", "license",
                                                       "apiVersion", "osv", "vcsInfo", "creationDate", "modifiedDate", "lastModified"}
                                            then indent + "fileInfo \"" + key + "\" " + "\"chimera.canonical\";" else line)))
  {
    hide LastModified, UuidRename, WorkspaceFr, ScriptNodeCreate, StartsNode, SetAttrString, PluginPayload, CreatedByMaya,
         MayaAsciiHeader, RequiresMaya, FileInfo, VolatileKeys, Ws, Indent, Indented;
    KindsExclude(cfg, line);
    IndentIs(line, indent, body);
    KeysAre();
  }

  lemma KeysAre()
    ensures VolatileKeys == {"application", "product", "version", "cutIdentifier", "os", "license", "apiVersion", "osv", "vcsInfo",
                             "creationDate", "modifiedDate", "lastModified"}
  {
  }

  /** A string assigned in a volatile script node. */
  lemma ScriptString(cfg: Settings, line: string, indent: string, body: string)
    requires Indented(line, indent, body) && SetAttrString(line).Some?
    ensures var m := SetAttrString(line).value;
            PlainStep(cfg, true, line)
            == if Closes(line[m.1 + 1..])
               then (Plain(true), Some(indent + "setAttr \"" + m.0 + "\" -type \"string\" " + "\"chimera.canonical\";"))
               else (InString(true, indent, m.0), None)
  {
    hide LastModified, UuidRename, WorkspaceFr, ScriptNodeCreate, StartsNode, SetAttrString, Closes, At, Ws, Indent, Indented;
    var i, b, c := SetAttrParts(line);
    SetAttrLine(cfg.alnum, line);
    IndentIs(line, indent, body);
  }

  /** A plugin payload, outside volatile script nodes or not read as a script string. */
  lemma Payload(cfg: Settings, script: bool, line: string)
    requires cfg.plugins && PluginPayload(line).Some?
    requires PluginPayload(line).value.0 in {"ngst2SkinLayerDataStorage", "dataPolyComponent"}
    requires !(script && SetAttrString(line).Some?)
    ensures var q := PluginPayload(line).value.1;
            PlainStep(cfg, script, line)
            == if Closes(line[q + 1..]) then (Plain(script), Some(line[..q] + "\"chimera.canonical\";"))
               else (InPayload(script, line[..q]), None)
  {
    hide LastModified, UuidRename, WorkspaceFr, ScriptNodeCreate, StartsNode, SetAttrString, PluginPayload, Closes, At, Ws;
    var i, b, p := PayloadParts(line);
    SetAttrLine(cfg.alnum, line);
  }

  /** Every other payload is passed on: of another type, or with the normalization switched off. */
  lemma PayloadKept(cfg: Settings, script: bool, line: string)
    requires PluginPayload(line).Some? && !(script && SetAttrString(line).Some?)
    requires !cfg.plugins || PluginPayload(line).value.0 !in {"ngst2SkinLayerDataStorage", "dataPolyComponent"}
    ensures PlainStep(cfg, script, line) == (Plain(script), Some(line))
  {
    hide LastModified, UuidRename, WorkspaceFr, ScriptNodeCreate, StartsNode, SetAttrString, PluginPayload, Closes, At, Ws,
         CreatedByMaya, MayaAsciiHeader, RequiresMaya, FileInfo;
    var i, b, p := PayloadParts(line);
    SetAttrLine(cfg.alnum, line);
    KindsExclude(cfg, line);
  }

  /** A volatile script node begins with its `createNode` line and ends before the next `createNode ` or
      `select ` line. */
  lemma ScriptFlag(cfg: Settings, script: bool, line: string, indent: string, body: string)
    requires Indented(line, indent, body)
    ensures PlainStep(cfg, script, line).0.inScript
       <==> ScriptNodeCreate(line).Some? || (script && !("createNode " <= body) && !("select " <= body))
  {
    hide LastModified, UuidRename, WorkspaceFr, ScriptNodeCreate, SetAttrString, PluginPayload, Closes, At, Ws, VolatileType,
         Tidy, Indented, Indent;
    KindsExclude(cfg, line);
    IndentIs(line, indent, body);
  }

  // ---------------------------------------------------------------- which lines lie in a volatile script node

  /** Line `i` is read outside every swallowed string. */
  predicate Outside(cfg: Settings, lines: seq<string>, i: nat) {
    i < |lines| && ModeAfter(cfg, Plain(false), lines[..i]).Plain?
  }

  predicate OpensScript(cfg: Settings, lines: seq<string>, i: nat) {
    Outside(cfg, lines, i) && ScriptNodeCreate(lines[i]).Some?
  }

  /** A node line that does not itself open a volatile script node. */
  predicate LeavesScript(cfg: Settings, lines: seq<string>, i: nat) {
    Outside(cfg, lines, i) && ScriptNodeCreate(lines[i]).None? && StartsNode(lines[i])
  }

  /** Some line opens a volatile script node that no later line leaves. */
  ghost predicate InOpenScript(cfg: Settings, lines: seq<string>) {
    exists j: nat :: OpensScript(cfg, lines, j) && forall i: nat :: j < i ==> !LeavesScript(cfg, lines, i)
  }

  lemma {:induction false} ModeAfterLast(cfg: Settings, mode: Mode, lines: seq<string>, last: string)
    ensures ModeAfter(cfg, mode, lines + [last]) == Step(cfg, ModeAfter(cfg, mode, lines), last).0
    decreases lines
  {
    hide Step;
    var all := lines + [last];
    if lines == [] {
      assert all[0] == last && all[1..] == [];
    } else {
      assert all[0] == lines[0] && all[1..] == lines[1..] + [last];
      ModeAfterLast(cfg, Step(cfg, mode, lines[0]).0, lines[1..], last);
    }
  }

  lemma StepFlag(cfg: Settings, mode: Mode, line: string)
    ensures Step(cfg, mode, line).0.inScript
       <==> if mode.Plain? then ScriptNodeCreate(line).Some? || (mode.inScript && !StartsNode(line)) else mode.inScript
  {
    hide LastModified, UuidRename, WorkspaceFr, ScriptNodeCreate, StartsNode, SetAttrString, PluginPayload, Closes, VolatileType,
         Tidy, Indent;
    KindsExclude(cfg, line);
  }

  lemma OneMoreLine(cfg: Settings, lines: seq<string>, last: string)
    ensures var all := lines + [last];
            && (forall i: nat :: i < |lines| ==>
                  OpensScript(cfg, all, i) == OpensScript(cfg, lines, i) && LeavesScript(cfg, all, i) == LeavesScript(cfg, lines, i))
            && OpensScript(cfg, all, |lines|) == (ModeAfter(cfg, Plain(false), lines).Plain? && ScriptNodeCreate(last).Some?)
            && LeavesScript(cfg, all, |lines|)
               == (ModeAfter(cfg, Plain(false), lines).Plain? && ScriptNodeCreate(last).None? && StartsNode(last))
  {
    hide ModeAfter, ScriptNodeCreate, StartsNode;
    var all := lines + [last];
    forall i: nat | i <= |lines| ensures all[..i] == lines[..i] {}
    assert lines[..|lines|] == lines && all[|lines|] == last;
  }

  /** The machine's flag is set exactly behind a line that opens a volatile script node and that no node
      line has followed since; lines inside swallowed strings count for neither. */
  lemma {:induction false} FlagIff(cfg: Settings, lines: seq<string>)
    ensures ModeAfter(cfg, Plain(false), lines).inScript <==> InOpenScript(cfg, lines)
    decreases |lines|
  {
    hide ModeAfter, Step, OpensScript, LeavesScript, ScriptNodeCreate, StartsNode;
    if lines == [] {
      NoLines(cfg);
    } else {
      var n := |lines| - 1;
      var before, last := lines[..n], lines[n];
      assert lines == before + [last];
      FlagIff(cfg, before);
      ModeAfterLast(cfg, Plain(false), before, last);
      StepFlag(cfg, ModeAfter(cfg, Plain(false), before), last);
      OneMoreLine(cfg, before, last);
      BeyondEnd(cfg, before);
      BeyondEnd(cfg, lines);
    }
  }

  lemma NoLines(cfg: Settings)
    ensures !ModeAfter(cfg, Plain(false), []).inScript && forall i: nat :: !OpensScript(cfg, [], i)
  {
  }

  lemma BeyondEnd(cfg: Settings, lines: seq<string>)
    ensures forall i: nat :: OpensScript(cfg, lines, i) || LeavesScript(cfg, lines, i) ==> i < |lines|
  {
  }

  /** The lines before a point have no other influence than their mode. */
  lemma {:induction false} ProcessCat(cfg: Settings, mode: Mode, a: seq<string>, b: seq<string>)
    ensures Process(cfg, mode, a + b) == Process(cfg, mode, a) + Process(cfg, ModeAfter(cfg, mode, a), b)
    decreases a
  {
    hide Step;
    var after := Process(cfg, ModeAfter(cfg, mode, a), b);
    if a == [] {
      assert a + b == b && [] + after == after;
    } else {
      var r := Step(cfg, mode, a[0]);
      assert (a + b)[0] == a[0] && (a + b)[1..] == a[1..] + b;
      ProcessCat(cfg, r.0, a[1..], b);
      var first := if r.1.Some? then [r.1.value] else [];
      assert first + Process(cfg, r.0, a[1..]) + after == first + (Process(cfg, r.0, a[1..]) + after);
    }
  }

  // ---------------------------------------------------------------- swallowed content

  /** The line emitted for a swallowed statement. */
  function Replacement(mode: Mode): string
    requires !mode.Plain?
  {
    if mode.InString? then StringPlaceholder(mode.indent, mode.attr) else mode.prefix + PLACEHOLDER
  }

  /** A swallowed statement ends at the first line that closes it, and becomes one line whatever it held. */
  lemma {:induction false} SwallowsToClose(cfg: Settings, mode: Mode, content: seq<string>, close: string, rest: seq<string>)
    requires !mode.Plain? && Closes(close) && forall l :: l in content ==> !Closes(l)
    ensures Process(cfg, mode, content + [close] + rest) == [Replacement(mode)] + Process(cfg, Plain(mode.inScript), rest)
    decreases content
  {
    hide Closes, PlainStep, StringPlaceholder;
    var lines := content + [close] + rest;
    if content == [] {
      assert lines[0] == close && lines[1..] == rest;
    } else {
      assert lines[0] == content[0] && lines[1..] == content[1..] + [close] + rest;
      SwallowsToClose(cfg, mode, content[1..], close, rest);
      var tail := Process(cfg, mode, lines[1..]);
      assert [] + tail == tail;
    }
  }

  /** A statement that is never closed is dropped, with everything behind its opening line. */
  lemma {:induction false} SwallowsToEnd(cfg: Settings, mode: Mode, content: seq<string>)
    requires !mode.Plain? && forall l :: l in content ==> !Closes(l)
    ensures Process(cfg, mode, content) == []
    decreases content
  {
    hide Closes, PlainStep;
    if content != [] {
      SwallowsToEnd(cfg, mode, content[1..]);
    }
  }

  /** A volatile script string spread over many lines canonicalizes to the same line as one written on a
      single line: its content has no influence. */
  lemma StringStatement(cfg: Settings, open: string, content: seq<string>, close: string, rest: seq<string>)
    requires SetAttrString(open).Some? && !Closes(open[SetAttrString(open).value.1 + 1..])
    requires Closes(close) && forall l :: l in content ==> !Closes(l)
    ensures Process(cfg, Plain(true), [open] + (content + [close] + rest))
         == [StringPlaceholder(Indent(open), SetAttrString(open).value.0)] + Process(cfg, Plain(true), rest)
  {
    hide LastModified, UuidRename, WorkspaceFr, ScriptNodeCreate, Closes, StartsNode, SetAttrString, PluginPayload,
         StringPlaceholder, At, Ws;
    var i, b, c := SetAttrParts(open);
    SetAttrLine(cfg.alnum, open);
    var mode := InString(true, Indent(open), SetAttrString(open).value.0);
    assert PlainStep(cfg, true, open) == (mode, None);
    SwallowsToClose(cfg, mode, content, close, rest);
    var tail := content + [close] + rest;
    assert ([open] + tail)[0] == open && ([open] + tail)[1..] == tail;
    var after := Process(cfg, mode, tail);
    assert [] + after == after;
  }

  /** Re-saving with new uuids changes nothing. */
  lemma RenamesAgree(cfg: Settings, script: bool, a: string, b: string)
    requires UuidRename(a).Some? && UuidRename(b).Some?
    requires a[..UuidRename(a).value.0] == b[..UuidRename(b).value.0] && a[UuidRename(a).value.1..] == b[UuidRename(b).value.1..]
    ensures PlainStep(cfg, script, a) == PlainStep(cfg, script, b)
  {
    NotComment(cfg.alnum, a);
    NotComment(cfg.alnum, b);
    hide LastModified, UuidRename;
  }

  // ---------------------------------------------------------------- line endings

  function JoinWith(lines: seq<string>, eol: string): string {
    if lines == [] then "" else if |lines| == 1 then lines[0] else lines[0] + eol + JoinWith(lines[1..], eol)
  }

  predicate LineEnding(eol: string) {
    eol == "\n" || eol == "\r\n" || eol == "\r"
  }

  lemma {:induction false} JoinWithNewline(lines: seq<string>)
    ensures JoinWith(lines, "\n") == Join(lines)
  {
    if |lines| > 1 { JoinWithNewline(lines[1..]); }
  }

  lemma {:induction false} UnixOneLine(line: string, rest: string)
    requires OneLine(line)
    ensures UnixNewlines(line + rest) == line + UnixNewlines(rest)
  {
    if line == "" {
      assert line + rest == rest && line + UnixNewlines(rest) == UnixNewlines(rest);
    } else {
      UnixOneLine(line[1..], rest);
      assert (line + rest)[1..] == line[1..] + rest;
      assert [line[0]] + (line[1..] + UnixNewlines(rest)) == line + UnixNewlines(rest);
    }
  }

  /** Each line ending followed by a text that does not itself begin with a line feed is one line feed. */
  lemma UnixEnding(eol: string, rest: string)
    requires LineEnding(eol) && (rest == "" || rest[0] != '\n')
    ensures UnixNewlines(eol + rest) == "\n" + UnixNewlines(rest)
  {
    assert ("\n" + rest)[1..] == rest && ("\r" + rest)[1..] == rest && ("\r\n" + rest)[2..] == rest;
    if eol == "\r" && rest != "" {
      assert ("\r" + rest)[1] == rest[0];
    }
  }

  lemma UnixLine(line: string, eol: string, rest: string)
    requires OneLine(line) && LineEnding(eol) && (eol == "\n" || rest == "" || rest[0] != '\n')
    ensures UnixNewlines(line + eol + rest) == line + "\n" + UnixNewlines(rest)
  {
    hide LineEnding;
    UnixOneLine(line, eol + rest);
    assert line + eol + rest == line + (eol + rest);
    assert line + ("\n" + UnixNewlines(rest)) == line + "\n" + UnixNewlines(rest);
    if eol == "\n" {
      assert ("\n" + rest)[1..] == rest;
      assert UnixNewlines(eol + rest) == "\n" + UnixNewlines(rest);
    } else {
      UnixEnding(eol, rest);
    }
  }

  lemma {:induction false} UnixJoin(lines: seq<string>, eol: string)
    requires OneLines(lines) && LineEnding(eol)
    ensures UnixNewlines(JoinWith(lines, eol)) == Join(lines)
    ensures eol != "\n" ==> JoinWith(lines, eol) == "" || JoinWith(lines, eol)[0] != '\n'
  {
    if lines == [] {
    } else if |lines| == 1 {
      UnixOneLine(lines[0], "");
      assert lines[0] + "" == lines[0];
    } else {
      hide LineEnding, UnixNewlines, OneLine;
      var rest := JoinWith(lines[1..], eol);
      UnixJoin(lines[1..], eol);
      UnixLine(lines[0], eol, rest);
      if eol != "\n" { UnixFirst(lines[0], eol, rest); }
    }
  }

  lemma UnixFirst(line: string, eol: string, rest: string)
    requires OneLine(line) && LineEnding(eol) && eol != "\n"
    ensures (line + eol + rest)[0] != '\n'
  {
    if line != "" { assert (line + eol + rest)[0] == line[0]; } else { assert (line + eol + rest)[0] == eol[0]; }
  }

  /** However its lines end, a text has the lines that were joined, and every line ending gives the same
      canonical text. */
  lemma LineEndingsAgree(cfg: Settings, lines: seq<string>, eol: string)
    requires lines != [] && OneLines(lines) && LineEnding(eol)
    ensures Split(UnixNewlines(JoinWith(lines, eol))) == lines
    ensures CanonicalText(cfg, JoinWith(lines, eol)) == CanonicalText(cfg, JoinWith(lines, "\n"))
  {
    UnixJoin(lines, eol);
    UnixJoin(lines, "\n");
    SplitJoin(lines);
    WithoutBomJoin(lines, eol);
    WithoutBomJoin(lines, "\n");
    var bare := Unmarked(lines);
    UnixJoin(bare, eol);
    UnixJoin(bare, "\n");
  }

  /** The lines without a mark in front of the first. */
  function Unmarked(lines: seq<string>): (bare: seq<string>)
    requires lines != []
    ensures OneLines(lines) ==> OneLines(bare)
  {
    [WithoutBom(lines[0])] + lines[1..]
  }

  lemma WithoutBomJoin(lines: seq<string>, eol: string)
    requires lines != [] && LineEnding(eol)
    ensures WithoutBom(JoinWith(lines, eol)) == JoinWith(Unmarked(lines), eol)
  {
    var bare := Unmarked(lines);
    assert bare[1..] == lines[1..];
    if |lines| > 1 {
      var rest := JoinWith(lines[1..], eol);
      if lines[0] == "" {
        assert (lines[0] + eol + rest)[0] == eol[0];
      } else {
        assert (lines[0] + eol + rest)[0] == lines[0][0];
        assert (lines[0] + eol + rest)[1..] == lines[0][1..] + eol + rest;
      }
    }
  }
}
