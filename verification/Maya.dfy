/** The Maya ASCII canonicalizer (maya/canonicalize.py) with float quantization off: the line state
    machine, its text-level wrapper, and the loop proved against them. */
module Maya {
  import opened Base
  import opened MayaLines

  /** `alnum` answers for characters outside ASCII; `plugins` is CHIMERA_MA_PLUGIN_PAYLOAD_NORMALIZE. */
  datatype Settings = Settings(alnum: char -> bool, plugins: bool)

  /** Between lines: in no string, swallowing a script node's string, or swallowing a plugin payload.
      `inScript` is `in_volatile_script_node`. */
  datatype Mode =
    | Plain(inScript: bool)
    | InString(inScript: bool, indent: string, attr: string)
    | InPayload(inScript: bool, prefix: string)

  const PLACEHOLDER := "\"chimera.canonical\";"
  const NO_UUID := "\"00000000-0000-0000-0000-000000000000\""

  function Indent(line: string): string {
    line[..Ws(line, 0)]
  }

  function StringPlaceholder(indent: string, attr: string): string {
    indent + "setAttr \"" + attr + "\" -type \"string\" " + PLACEHOLDER
  }

  /** Step 6: the normalizations that need no state. */
  function Tidy(cfg: Settings, line: string): string {
    if CreatedByMaya(cfg.alnum, line) then Indent(line) + "// Created by Maya"
    else if MayaAsciiHeader(cfg.alnum, line) then Indent(line) + "//Maya ASCII scene"
    else if RequiresMaya(line) then Indent(line) + "requires maya " + PLACEHOLDER
    else
      var key := FileInfo(line);
      if key.Some? && key.value in VolatileKeys then Indent(line) + "fileInfo \"" + key.value + "\" " + PLACEHOLDER else line
  }

  function IsPayload(cfg: Settings, line: string): bool {
    cfg.plugins && PluginPayload(line).Some? && VolatileType(PluginPayload(line).value.0)
  }

  /** One line outside any swallowed string. */
  function PlainStep(cfg: Settings, inScript: bool, line: string): (Mode, Option<string>) {
    if LastModified(cfg.alnum, line) then (Plain(inScript), None)
    else if UuidRename(line).Some? then
      var m := UuidRename(line).value;
      (Plain(inScript), Some(line[..m.0] + NO_UUID + line[m.1..]))
    else if WorkspaceFr(line).Some? then (Plain(inScript), None)
    else if ScriptNodeCreate(line).Some? then (Plain(true), Some(line))
    else
      var script := inScript && !StartsNode(line);
      var attr := SetAttrString(line);
      if script && attr.Some? then
        if Closes(line[attr.value.1 + 1..]) then (Plain(script), Some(StringPlaceholder(Indent(line), attr.value.0)))
        else (InString(script, Indent(line), attr.value.0), None)
      else if IsPayload(cfg, line) then
        var end := PluginPayload(line).value.1;
        if Closes(line[end + 1..]) then (Plain(script), Some(line[..end] + PLACEHOLDER))
        else (InPayload(script, line[..end]), None)
      else (Plain(script), Some(Tidy(cfg, line)))
  }

  /** One line in any mode: the next mode, and the line emitted, if any. */
  function Step(cfg: Settings, mode: Mode, line: string): (Mode, Option<string>) {
    match mode
    case InPayload(script, prefix) =>
      if Closes(line) then (Plain(script), Some(prefix + PLACEHOLDER)) else (mode, None)
    case InString(script, indent, attr) =>
      if Closes(line) then (Plain(script), Some(StringPlaceholder(indent, attr))) else (mode, None)
    case Plain(script) => PlainStep(cfg, script, line)
  }

  /** The lines emitted from `mode` on. */
  function Process(cfg: Settings, mode: Mode, lines: seq<string>): seq<string>
    decreases lines
  {
    if lines == [] then []
    else
      var r := Step(cfg, mode, lines[0]);
      (if r.1.Some? then [r.1.value] else []) + Process(cfg, r.0, lines[1..])
  }

  // ---------------------------------------------------------------- text

  /** `text.replace("\r\n", "\n").replace("\r", "\n")`. */
  function UnixNewlines(text: string): string {
    if text == "" then ""
    else if text[0] == '\r' then "\n" + UnixNewlines(if |text| > 1 && text[1] == '\n' then text[2..] else text[1..])
    else [text[0]] + UnixNewlines(text[1..])
  }

  /** `text.split("\n")`. */
  function Split(text: string): (lines: seq<string>)
    ensures lines != []
  {
    if text == "" then [""]
    else
      var rest := Split(text[1..]);
      if text[0] == '\n' then [""] + rest else [[text[0]] + rest[0]] + rest[1..]
  }

  /** `"\n".join(lines)`. */
  function Join(lines: seq<string>): string {
    if lines == [] then "" else if |lines| == 1 then lines[0] else lines[0] + "\n" + Join(lines[1..])
  }

  const BOM := '\U{FEFF}'

  /** What `utf-8-sig` decoding drops: one byte-order mark at the start. */
  function WithoutBom(text: string): string {
    if text != "" && text[0] == BOM then text[1..] else text
  }

  /** `canonicalize` on decoded text. */
  function CanonicalText(cfg: Settings, text: string): string {
    Join(Process(cfg, Plain(false), Split(UnixNewlines(WithoutBom(text)))))
  }

  // ---------------------------------------------------------------- the loop

  ghost predicate Tracks(mode: Mode, inScript: bool, inString: bool, indent: string, attr: string, inPayload: bool, prefix: string) {
    !(inString && inPayload)
    && mode == if inPayload then InPayload(inScript, prefix) else if inString then InString(inScript, indent, attr) else Plain(inScript)
  }

  method Canonicalize(cfg: Settings, text: string) returns (canonical: string)
    ensures canonical == CanonicalText(cfg, text)
  {
    var lines := Split(UnixNewlines(WithoutBom(text)));
    var out: seq<string> := [];
    var inScript, inString, indent, attr := false, false, "", "";
    var inPayload, prefix := false, "";
    ghost var mode := Plain(false);
    assert lines[0..] == lines;
    for i := 0 to |lines|
      invariant Tracks(mode, inScript, inString, indent, attr, inPayload, prefix)
      invariant Process(cfg, Plain(false), lines) == out + Process(cfg, mode, lines[i..])
    {
      hide Process, Step, Tracks;
      var line := lines[i];
      ProcessStep(cfg, mode, lines, i, out);
      mode := Step(cfg, mode, line).0;
      var emitted: Option<string>;
      inScript, inString, indent, attr, inPayload, prefix, emitted :=
        HandleLine(cfg, line, inScript, inString, indent, attr, inPayload, prefix);
      if emitted.Some? {
        out := out + [emitted.value];
      }
    }
    ProcessNil(cfg, mode);
    assert lines[|lines|..] == [] && out + [] == out;
    canonical := Join(out);
  }

  /** The loop body: the state flags after one line, and the line appended, if any. */
  method HandleLine(cfg: Settings, line: string, inScript0: bool, inString0: bool, indent0: string, attr0: string,
                    inPayload0: bool, prefix0: string)
    returns (inScript: bool, inString: bool, indent: string, attr: string, inPayload: bool, prefix: string,
             emitted: Option<string>)
    ensures forall mode :: Tracks(mode, inScript0, inString0, indent0, attr0, inPayload0, prefix0) ==>
              && Tracks(Step(cfg, mode, line).0, inScript, inString, indent, attr, inPayload, prefix)
              && emitted == Step(cfg, mode, line).1
  {
    hide LastModified, UuidRename, WorkspaceFr, ScriptNodeCreate, SetAttrString, PluginPayload, Closes, StartsNode, Tidy,
         StringPlaceholder, VolatileType, Ws;
    inScript, inString, indent, attr, inPayload, prefix := inScript0, inString0, indent0, attr0, inPayload0, prefix0;
    emitted := None;
    if inPayload {
      if Closes(line) {
        inPayload := false;
        emitted := Some(prefix + PLACEHOLDER);
      }
      return;
    }
    if inString {
      if Closes(line) {
        inString := false;
        emitted := Some(StringPlaceholder(indent, attr));
      }
      return;
    }
    if LastModified(cfg.alnum, line) {
      return;
    }
    var uuid := UuidRename(line);
    if uuid.Some? {
      emitted := Some(line[..uuid.value.0] + NO_UUID + line[uuid.value.1..]);
      return;
    }
    if WorkspaceFr(line).Some? {
      return;
    }
    if ScriptNodeCreate(line).Some? {
      inScript := true;
      emitted := Some(line);
      return;
    }
    if inScript && StartsNode(line) {
      inScript := false;
    }
    if inScript {
      var m := SetAttrString(line);
      if m.Some? {
        indent, attr := Indent(line), m.value.0;
        if Closes(line[m.value.1 + 1..]) {
          emitted := Some(StringPlaceholder(indent, attr));
        } else {
          inString := true;
        }
        return;
      }
    }
    if cfg.plugins {
      var m := PluginPayload(line);
      if m.Some? && VolatileType(m.value.0) {
        prefix := line[..m.value.1];
        if Closes(line[m.value.1 + 1..]) {
          emitted := Some(prefix + PLACEHOLDER);
        } else {
          inPayload := true;
        }
        return;
      }
    }
    emitted := Some(Tidy(cfg, line));
  }

  lemma ProcessNil(cfg: Settings, mode: Mode)
    ensures Process(cfg, mode, []) == []
  {
  }

  lemma ProcessStep(cfg: Settings, mode: Mode, lines: seq<string>, i: nat, out: seq<string>)
    requires i < |lines|
    ensures var r := Step(cfg, mode, lines[i]);
            out + Process(cfg, mode, lines[i..])
            == (if r.1.Some? then out + [r.1.value] else out) + Process(cfg, r.0, lines[i + 1..])
  {
    hide Step;
    assert lines[i..][0] == lines[i] && lines[i..][1..] == lines[i + 1..];
  }
}
