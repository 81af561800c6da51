/**
 * The reduced YAML reader of the validator: comment stripping, inline
 * scalars, and the indentation-driven block parser that walks a list of
 * prepared lines with a shared cursor.
 */
module Yaml {
  import opened Wrappers
  import opened Strs
  import opened Values

  datatype YamlError =
    | TabIndent
    | BadIndentation
      /** A mapping line without ':'; the top-level loop quotes the line, the list-item loop does not. */
    | NotKeyValue(got: Option<string>)

  // ---------------------------------------------------------------- lines

  /** The line boundaries of Python's `str.splitlines()`. */
  predicate IsLineBreak(c: char) {
    c == '\n' || c == '\r' || c == '\U{0B}' || c == '\U{0C}' || ('\U{1C}' <= c <= '\U{1E}')
    || c == '\U{85}' || c == '\U{2028}' || c == '\U{2029}'
  }

  predicate NoLineBreak(s: string) { forall i :: 0 <= i < |s| ==> !IsLineBreak(s[i]) }

  /** Index of the first line break in `s`, or `|s|`. */
  function LineEnd(s: string): (n: nat)
    ensures n <= |s| && NoLineBreak(s[..n])
    ensures n < |s| ==> IsLineBreak(s[n])
  {
    if s == [] || IsLineBreak(s[0]) then 0
    else
      var n := LineEnd(s[1..]) + 1;
      assert s[..n] == [s[0]] + s[1..][..n - 1];
      n
  }

  /** `text.splitlines()`: "\r\n" is one break, and a final break opens no empty line. */
  function SplitLines(text: string): (r: seq<string>)
    ensures forall k :: 0 <= k < |r| ==> NoLineBreak(r[k])
    decreases |text|
  {
    if text == [] then []
    else
      var n := LineEnd(text);
      if n == |text| then [text]
      else
        var skip := if text[n] == '\r' && n + 1 < |text| && text[n + 1] == '\n' then 2 else 1;
        [text[..n]] + SplitLines(text[n + skip..])
  }

  /** Each line followed by "\n". */
  function Unlines(lines: seq<string>): string {
    if lines == [] then [] else lines[0] + "\n" + Unlines(lines[1..])
  }

  /** `splitlines` takes apart what `Unlines` puts together. */
  lemma {:induction false} SplitLinesUnlines(lines: seq<string>)
    requires forall k :: 0 <= k < |lines| ==> NoLineBreak(lines[k])
    ensures SplitLines(Unlines(lines)) == lines
  {
    if lines != [] {
      var t := Unlines(lines);
      var l := lines[0];
      assert t == l + "\n" + Unlines(lines[1..]);
      assert t[..|l|] == l && t[|l|] == '\n';
      assert LineEnd(t) == |l| by { LineEndAt(t, |l|); }
      assert t[|l| + 1..] == Unlines(lines[1..]);
      SplitLinesUnlines(lines[1..]);
    }
  }

  lemma {:induction false} LineEndAt(s: string, n: nat)
    requires n < |s| && NoLineBreak(s[..n]) && IsLineBreak(s[n])
    ensures LineEnd(s) == n
  {
    if n > 0 {
      assert !IsLineBreak(s[..n][0]);
      assert s[1..][..n - 1] == s[..n][1..];
      LineEndAt(s[1..], n - 1);
    }
  }

  // ------------------------------------------------------------- comments

  /** `(in_single, in_double)` after scanning `line[..i]`. */
  function QuotesBefore(line: string, i: nat): (bool, bool)
    requires i <= |line|
  {
    if i == 0 then (false, false)
    else
      var (sq, dq) := QuotesBefore(line, i - 1);
      var ch := line[i - 1];
      if ch == '\'' && !dq then (!sq, dq)
      else if ch == '"' && !sq then (sq, !dq)
      else (sq, dq)
  }

  /** A '#' outside both kinds of quotes starts a comment. */
  predicate CommentAt(line: string, i: nat) {
    i < |line| && line[i] == '#' && QuotesBefore(line, i) == (false, false)
  }

  function CommentFrom(line: string, from: nat): (k: nat)
    requires from <= |line|
    ensures from <= k <= |line|
    ensures k < |line| ==> CommentAt(line, k)
    ensures forall j :: from <= j < k ==> !CommentAt(line, j)
    decreases |line| - from
  {
    if from == |line| || CommentAt(line, from) then from else CommentFrom(line, from + 1)
  }

  /** The line cut at its first unquoted '#'. */
  function WithoutComment(line: string): (r: string)
    ensures |r| <= |line| && r == line[..|r|]
    ensures |r| < |line| ==> CommentAt(line, |r|)
    ensures forall j :: 0 <= j < |r| ==> !CommentAt(line, j)
  {
    line[..CommentFrom(line, 0)]
  }

  /** `_strip_yaml_comment`. */
  method StripComment(line: string) returns (r: string)
    ensures r == WithoutComment(line)
  {
    var inSingle, inDouble := false, false;
    var i := 0;
    while i < |line|
      invariant i <= |line|
      invariant (inSingle, inDouble) == QuotesBefore(line, i)
      invariant forall j :: 0 <= j < i ==> !CommentAt(line, j)
    {
      var ch := line[i];
      if ch == '\'' && !inDouble {
        inSingle := !inSingle;
      } else if ch == '"' && !inSingle {
        inDouble := !inDouble;
      } else if ch == '#' && !inSingle && !inDouble {
        assert CommentAt(line, i);
        assert CommentFrom(line, 0) == i;
        return line[..i];
      }
      i := i + 1;
    }
    return line;
  }

  /** Without quote characters, the comment starts at the first '#'. */
  lemma UnquotedComment(line: string)
    requires '\'' !in line && '"' !in line
    ensures '#' !in WithoutComment(line)
    ensures |WithoutComment(line)| < |line| ==> line[|WithoutComment(line)|] == '#'
  {
    var r := WithoutComment(line);
    forall j | 0 <= j < |r| ensures r[j] != '#' {
      NoQuotesSeen(line, j);
      assert r[j] == line[j] && !CommentAt(line, j);
    }
  }

  lemma {:induction false} NoQuotesSeen(line: string, i: nat)
    requires '\'' !in line && '"' !in line && i <= |line|
    ensures QuotesBefore(line, i) == (false, false)
  {
    if i > 0 {
      NoQuotesSeen(line, i - 1);
    }
  }

  // ---------------------------------------------------------- line prep

  type Line = (nat, string)

  /** `len(raw) - len(raw.lstrip(" "))`: the number of leading blanks. */
  function Indent(raw: string): (n: nat)
    ensures n <= |raw| && forall i :: 0 <= i < n ==> raw[i] == ' '
    ensures n < |raw| ==> raw[n] != ' '
  {
    if raw != [] && raw[0] == ' ' then 1 + Indent(raw[1..]) else 0
  }

  /** The tab test as the source writes it: a tab within the first `Indent(raw)` characters. */
  predicate TabRejectedAsWritten(raw: string) { '\t' in raw[..Indent(raw)] }

  /** Length of the leading run of blanks and tabs. */
  function BlankRun(s: string): (n: nat)
    ensures n <= |s|
    ensures forall i :: 0 <= i < n ==> s[i] == ' ' || s[i] == '\t'
    ensures n < |s| ==> s[n] != ' ' && s[n] != '\t'
  {
    if s != [] && (s[0] == ' ' || s[0] == '\t') then 1 + BlankRun(s[1..]) else 0
  }

  /** The intended tab test: a tab in the line's leading whitespace. */
  predicate TabInIndent(raw: string) { '\t' in raw[..BlankRun(raw)] }

  /** The source's test never fires: the characters it inspects are all blanks. */
  lemma TabCheckAsWrittenIsDead(raw: string)
    ensures !TabRejectedAsWritten(raw)
  {
    var p := raw[..Indent(raw)];
    assert forall i :: 0 <= i < |p| ==> p[i] == ' ';
  }

  /** The corrected test catches a tab-indented line. */
  lemma TabInIndentCatchesTab(rest: string)
    ensures TabInIndent("\t" + rest)
  {
    assert ("\t" + rest)[0] == '\t';
  }

  /** A raw line after comment removal and `rstrip("\n")`. */
  function CleanLine(raw: string): string { RStripChar(WithoutComment(raw), '\n') }

  /** The tab test in force: the source's when `asWritten`, the intended one otherwise. */
  predicate TabRejected(raw: string, asWritten: bool) {
    if asWritten then TabRejectedAsWritten(raw) else TabInIndent(raw)
  }

  /** What the preparation loop does with one raw line. */
  datatype LineStep = Skip | Reject | Keep(line: Line)

  function StepOf(raw: string, asWritten: bool): LineStep {
    var clean := CleanLine(raw);
    if Strip(clean) == [] then Skip
    else if TabRejected(clean, asWritten) then Reject
    else Keep((Indent(clean), Strip(clean)))
  }

  /**
   * The loop over `text.splitlines()` from line `i` on: blank lines are
   * skipped, a line with a tab in its indentation raises, every other line
   * becomes (indent, stripped content).
   */
  function PreparedFrom(raws: seq<string>, i: nat, asWritten: bool): (r: Result<seq<Line>, YamlError>)
    requires i <= |raws|
    decreases |raws| - i
  {
    if i == |raws| then Ok([])
    else
      match StepOf(raws[i], asWritten)
      case Skip => PreparedFrom(raws, i + 1, asWritten)
      case Reject => Err(TabIndent)
      case Keep(l) => Prefixed([l], PreparedFrom(raws, i + 1, asWritten))
  }

  /** No line of `ls` has empty content. */
  predicate NoBlank(ls: seq<Line>) {
    forall k :: 0 <= k < |ls| ==> ls[k].1 != []
  }

  /**
   * Line preparation with the source's own tab test; the rest of the model
   * uses this. It keeps at most one line per raw line, and never a blank one.
   */
  function Prepared(raws: seq<string>): (r: Result<seq<Line>, YamlError>)
    ensures r.Ok? ==> |r.value| <= |raws| && NoBlank(r.value)
  {
    PreparedFromShape(raws, 0, true);
    PreparedFrom(raws, 0, true)
  }

  lemma {:induction false} PreparedFromShape(raws: seq<string>, i: nat, asWritten: bool)
    requires i <= |raws|
    ensures var r := PreparedFrom(raws, i, asWritten);
      r.Ok? ==> |r.value| <= |raws| - i && NoBlank(r.value)
    decreases |raws| - i
  {
    if i < |raws| {
      PreparedFromShape(raws, i + 1, asWritten);
      var rest := PreparedFrom(raws, i + 1, asWritten);
      match StepOf(raws[i], asWritten)
      case Skip =>
      case Reject =>
      case Keep(l) =>
        assert l.1 != [] by { StepKeepsContent(raws[i], asWritten); }
        if rest.Ok? {
          ConsContent(l, rest.value);
        }
    }
  }

  lemma StepKeepsContent(raw: string, asWritten: bool)
    ensures StepOf(raw, asWritten).Keep? ==> StepOf(raw, asWritten).line.1 != []
  {
  }

  lemma ConsContent(l: Line, ls: seq<Line>)
    requires l.1 != [] && NoBlank(ls)
    ensures NoBlank([l] + ls)
  {
  }

  /** Line preparation with the intended tab test. */
  function PreparedCorrected(raws: seq<string>): Result<seq<Line>, YamlError> {
    PreparedFrom(raws, 0, false)
  }

  /** With the intended test, a document whose first line is indented by a tab is rejected. */
  lemma PreparedRejectsTabIndent(raw: string, rest: seq<string>)
    requires Strip(CleanLine(raw)) != [] && TabInIndent(CleanLine(raw))
    ensures PreparedCorrected([raw] + rest) == Err(TabIndent)
  {
    assert ([raw] + rest)[0] == raw;
    assert StepOf(raw, false) == Reject;
  }

  /** As written, preparation never fails: no line is ever rejected for a tab. */
  lemma {:induction false} PreparedNeverFails(raws: seq<string>, i: nat)
    requires i <= |raws|
    ensures PreparedFrom(raws, i, true).Ok?
    decreases |raws| - i
  {
    if i < |raws| {
      TabCheckAsWrittenIsDead(CleanLine(raws[i]));
      PreparedNeverFails(raws, i + 1);
    }
  }

  /** As written, a tab-indented line passes preparation with indent 0. */
  lemma TabIndentAcceptedAsWritten()
    ensures Prepared(["\tb: 1"]) == Ok([(0, "b: 1")])
  {
    TabLineStep("\tb: 1");
    PreparedSingle("\tb: 1", (0, "b: 1"), true);
  }

  /** A single line that is kept prepares to itself alone. */
  lemma PreparedSingle(raw: string, l: Line, asWritten: bool)
    requires StepOf(raw, asWritten) == Keep(l)
    ensures PreparedFrom([raw], 0, asWritten) == Ok([l])
  {
    assert PreparedFrom([raw], 1, asWritten) == Ok([]);
    assert [l] + [] == [l];
  }

  /** The sample line keeps its text, has no blank indentation and strips to its key and value. */
  lemma TabLineStep(raw: string)
    requires raw == "\tb: 1"
    ensures StepOf(raw, true) == Keep((0, "b: 1"))
  {
    TabLineClean(raw);
    assert Indent(raw) == 0;
    TabCheckAsWrittenIsDead(raw);
    TabLineStrip(raw);
  }

  lemma TabLineClean(raw: string)
    requires raw == "\tb: 1"
    ensures CleanLine(raw) == raw
  {
    assert CommentFrom(raw, 0) == |raw| by {
      assert forall j :: 0 <= j < |raw| ==> raw[j] != '#';
    }
    assert WithoutComment(raw) == raw;
    assert raw[|raw| - 1] != '\n';
  }

  lemma TabLineStrip(raw: string)
    requires raw == "\tb: 1"
    ensures Strip(raw) == "b: 1"
  {
    var t := "b: 1";
    assert raw == ['\t'] + t;
    StripAfterBlank('\t', t);
  }

  /** Combines a prefix of prepared lines with the outcome for the rest. */
  function Prefixed(acc: seq<Line>, r: Result<seq<Line>, YamlError>): Result<seq<Line>, YamlError> {
    match r
    case Ok(ls) => Ok(acc + ls)
    case Err(e) => Err(e)
  }

  /** One pass of the loop body: comment removal, blank test, tab test. */
  method PrepareOne(rawLine: string) returns (step: LineStep)
    ensures step == StepOf(rawLine, true)
  {
    var stripped := StripComment(rawLine);
    var raw := RStripChar(stripped, '\n');
    if Strip(raw) == [] {
      return Skip;
    }
    if '\t' in raw[..Indent(raw)] {
      return Reject;
    }
    return Keep((Indent(raw), Strip(raw)));
  }

  /** The line-preparation loop of `_load_simple_yaml`. */
  method PrepareLines(text: string) returns (r: Result<seq<Line>, YamlError>)
    ensures r == Prepared(SplitLines(text))
  {
    r := PrepareRaws(SplitLines(text));
  }

  /** The loop itself, over the lines of the document. */
  method PrepareRaws(raws: seq<string>) returns (r: Result<seq<Line>, YamlError>)
    ensures r == Prepared(raws)
  {
    var lines: seq<Line> := [];
    var i := 0;
    PrefixedEmpty(PreparedFrom(raws, 0, true));
    while i < |raws|
      invariant i <= |raws|
      invariant PreparedFrom(raws, 0, true) == Prefixed(lines, PreparedFrom(raws, i, true))
    {
      var step := PrepareOne(raws[i]);
      PreparedFromStep(raws, i, step);
      if step.Reject? {
        return Err(TabIndent);
      }
      if step.Keep? {
        PrefixedAssoc(lines, step.line, PreparedFrom(raws, i + 1, true));
        lines := lines + [step.line];
      }
      i := i + 1;
    }
    assert lines + [] == lines;
    return Ok(lines);
  }

  lemma PreparedFromStep(raws: seq<string>, i: nat, step: LineStep)
    requires i < |raws| && step == StepOf(raws[i], true)
    ensures PreparedFrom(raws, i, true) == match step
      case Skip => PreparedFrom(raws, i + 1, true)
      case Reject => Err(TabIndent)
      case Keep(l) => Prefixed([l], PreparedFrom(raws, i + 1, true))
  {
  }

  lemma PrefixedEmpty(r: Result<seq<Line>, YamlError>)
    ensures Prefixed([], r) == r
  {
    if r.Ok? {
      assert [] + r.value == r.value;
    }
  }

  lemma PrefixedAssoc(acc: seq<Line>, l: Line, r: Result<seq<Line>, YamlError>)
    ensures Prefixed(acc, Prefixed([l], r)) == Prefixed(acc + [l], r)
  {
    if r.Ok? {
      assert acc + ([l] + r.value) == acc + [l] + r.value;
    }
  }

  // -------------------------------------------------------------- scalars

  predicate IsNullWord(v: string) { v == "null" || v == "Null" || v == "NULL" || v == "~" }
  predicate IsTrueWord(v: string) { v == "true" || v == "True" || v == "TRUE" }
  predicate IsFalseWord(v: string) { v == "false" || v == "False" || v == "FALSE" }

  /** Text that opens with a quote, a bracket, a sign or a digit is none of the keywords. */
  lemma NotAWord(v: string)
    requires v != [] && (v[0] == '"' || v[0] == '[' || v[0] == '-' || IsDigit(v[0]))
    ensures !IsNullWord(v) && !IsTrueWord(v) && !IsFalseWord(v)
  {
  }

  predicate IsQuoted(v: string) {
    (StartsWith(v, "\"") && EndsWith(v, "\"")) || (StartsWith(v, "'") && EndsWith(v, "'"))
  }

  predicate IsBracketed(v: string) { StartsWith(v, "[") && EndsWith(v, "]") }

  /** `_parse_scalar`; the float branch is not modelled, so such text stays a string. */
  function ParseScalar(value: string): (r: Value)
    ensures !r.Dict?
    decreases |value|, 2
  {
    ParseStripped(Strip(value))
  }

  /** `_parse_scalar` once the value is stripped. */
  function ParseStripped(v: string): (r: Value)
    ensures !r.Dict?
    decreases |v|, 1
  {
    if v == "" then Str("")
    else if IsNullWord(v) then Null
    else if IsTrueWord(v) then Bool(true)
    else if IsFalseWord(v) then Bool(false)
    else if IsQuoted(v) then Str(Inner(v))
    else if IsBracketed(v) then ParseFlowList(v)
    else if IsIntLiteral(v) then Int(IntLiteralValue(v))
    else Str(v)
  }

  /** The `[a, b]` branch: split the stripped inside at ',' and parse each stripped part. */
  function ParseFlowList(v: string): (r: Value)
    requires IsBracketed(v)
    ensures r.List?
    decreases |v|, 0
  {
    var inner := Strip(Inner(v));
    if inner == "" then List([])
    else
      var parts := Split(inner, ',');
      SplitPartsShorter(inner, ',');
      List(seq(|parts|, k requires 0 <= k < |parts| => ParseScalar(Strip(parts[k]))))
  }

  /** A value one inline list item can spell. */
  predicate InlineAtom(v: Value) { v.Null? || v.Bool? || v.Int? || (v.Str? && ',' !in v.s) }

  /** A value the inline scalar syntax can spell: an atom, any string, or a flat list of atoms. */
  predicate Inline(v: Value) {
    InlineAtom(v) || v.Str? || (v.List? && forall k :: 0 <= k < |v.items| ==> InlineAtom(v.items[k]))
  }

  function RenderAtom(v: Value): (t: string)
    requires Inline(v) && !v.List?
    ensures t != [] && !IsSpace(t[0]) && !IsSpace(t[|t| - 1])
  {
    match v
    case Null => "null"
    case Bool(b) => if b then "true" else "false"
    case Int(i) => IntToDecNoSpace(i); IntToDec(i)
    case Str(s) => "\"" + s + "\""
  }

  lemma IntToDecNoSpace(i: int)
    ensures var t := IntToDec(i); t != [] && !IsSpace(t[0]) && !IsSpace(t[|t| - 1])
    ensures var t := IntToDec(i); t[0] == '-' || IsDigit(t[0])
  {
    IntToDecLiteral(i);
    var t := IntToDec(i);
    assert IsDigit(t[|t| - 1]);
  }

  /** Text for an inline value: `null`, `true`, decimal digits, a double-quoted string, or `[a,b]`. */
  function RenderScalar(v: Value): (t: string)
    requires Inline(v)
    ensures t != [] && !IsSpace(t[0]) && !IsSpace(t[|t| - 1])
  {
    if v.List? then
      var items := RenderAtoms(v.items);
      "[" + (if items == [] then "" else Join(items, ',')) + "]"
    else RenderAtom(v)
  }

  lemma ParseRenderAtom(v: Value)
    requires Inline(v) && !v.List?
    ensures ParseScalar(RenderAtom(v)) == v
  {
    match v
    case Null => ParseKeyword("null");
    case Bool(b) => ParseKeyword(if b then "true" else "false");
    case Int(i) => ParseRenderInt(i);
    case Str(s) => ParseRenderStr(s);
  }

  /** Text with no blank at either end is parsed as it stands. */
  lemma ParseUnpadded(t: string)
    requires t != [] && !IsSpace(t[0]) && !IsSpace(t[|t| - 1])
    ensures ParseScalar(t) == ParseStripped(t)
  {
    StripKeeps(t);
  }

  lemma ParseKeyword(t: string)
    requires t in {"null", "true", "false"}
    ensures ParseScalar(t) == if t == "null" then Null else Bool(t == "true")
  {
    ParseUnpadded(t);
  }

  lemma ParseStrippedInt(t: string, i: int)
    requires t != [] && (t[0] == '-' || IsDigit(t[0]))
    requires IsIntLiteral(t) && IntLiteralValue(t) == i
    ensures ParseStripped(t) == Int(i)
  {
    NotAWord(t);
  }

  lemma ParseRenderInt(i: int)
    ensures ParseScalar(IntToDec(i)) == Int(i)
  {
    var t := IntToDec(i);
    IntToDecNoSpace(i);
    IntToDecLiteral(i);
    ParseUnpadded(t);
    ParseStrippedInt(t, i);
  }

  lemma ParseStrippedQuoted(t: string)
    requires |t| >= 2 && t[0] == '"' && t[|t| - 1] == '"'
    ensures ParseStripped(t) == Str(Inner(t))
  {
    NotAWord(t);
  }

  lemma ParseRenderStr(s: string)
    ensures ParseScalar("\"" + s + "\"") == Str(s)
  {
    var t := "\"" + s + "\"";
    assert t[0] == '"' && t[|t| - 1] == '"';
    ParseUnpadded(t);
    ParseStrippedQuoted(t);
    assert Inner(t) == s;
  }

  /** Rendering an inline value and parsing it back gives the value. */
  lemma ParseRenderScalar(v: Value)
    requires Inline(v)
    ensures ParseScalar(RenderScalar(v)) == v
  {
    if !v.List? {
      ParseRenderAtom(v);
    } else {
      var t := RenderScalar(v);
      StripKeeps(t);
      assert t[0] == '[';
      NotAWord(t);
      assert !IsQuoted(t);
      assert IsBracketed(t);
      assert ParseScalar(t) == ParseFlowList(t);
      ParseRenderFlowList(v);
    }
  }

  function RenderAtoms(xs: seq<Value>): (items: seq<string>)
    requires forall k :: 0 <= k < |xs| ==> InlineAtom(xs[k])
    ensures |items| == |xs| && forall k :: 0 <= k < |xs| ==> items[k] == RenderAtom(xs[k])
  {
    seq(|xs|, k requires 0 <= k < |xs| => RenderAtom(xs[k]))
  }

  lemma ParseRenderFlowList(v: Value)
    requires v.List? && Inline(v)
    ensures IsBracketed(RenderScalar(v)) && ParseFlowList(RenderScalar(v)) == v
  {
    var t := RenderScalar(v);
    var items := RenderAtoms(v.items);
    if items == [] {
      assert t == "[" + "" + "]";
      Bracketed("");
      ParseEmptyFlowList(t);
    } else {
      var body := Join(items, ',');
      assert t == "[" + body + "]";
      Bracketed(body);
      FlowListBody(v.items, t);
      ParseAtomsBack(v.items, items);
      ParseFlowListOf(t, v.items, items);
    }
  }

  lemma Bracketed(body: string)
    ensures IsBracketed("[" + body + "]") && Inner("[" + body + "]") == body
  {
    var t := "[" + body + "]";
    assert t[..1] == "[" && t[|t| - 1..] == "]";
    assert t[1..|t| - 1] == body;
  }

  lemma ParseEmptyFlowList(t: string)
    requires IsBracketed(t) && Inner(t) == ""
    ensures ParseFlowList(t) == List([])
  {
  }

  /** A non-empty flow list is the list of its parsed parts. */
  lemma ParseFlowListOf(t: string, xs: seq<Value>, parts: seq<string>)
    requires IsBracketed(t) && Strip(Inner(t)) != "" && Split(Strip(Inner(t)), ',') == parts
    requires seq(|parts|, k requires 0 <= k < |parts| => ParseScalar(Strip(parts[k]))) == xs
    ensures ParseFlowList(t) == List(xs)
  {
  }

  lemma FlowListBody(xs: seq<Value>, t: string)
    requires xs != [] && (forall k :: 0 <= k < |xs| ==> InlineAtom(xs[k])) && t == "[" + Join(RenderAtoms(xs), ',') + "]"
    ensures Strip(Inner(t)) == Join(RenderAtoms(xs), ',') != ""
    ensures Split(Strip(Inner(t)), ',') == RenderAtoms(xs)
  {
    var items := RenderAtoms(xs);
    var body := Join(items, ',');
    assert t == "[" + body + "]";
    InnerOfWrapped(body, '[', ']');
    AtomsJoinStripped(xs);
    AtomsSplitBack(xs);
  }

  lemma InnerOfWrapped(body: string, open: char, close: char)
    ensures Inner([open] + body + [close]) == body
  {
  }

  lemma AtomsJoinStripped(xs: seq<Value>)
    requires xs != [] && forall k :: 0 <= k < |xs| ==> InlineAtom(xs[k])
    ensures Strip(Join(RenderAtoms(xs), ',')) == Join(RenderAtoms(xs), ',') != ""
  {
    JoinEnds(RenderAtoms(xs), ',');
    StripKeeps(Join(RenderAtoms(xs), ','));
  }

  lemma AtomsSplitBack(xs: seq<Value>)
    requires xs != [] && forall k :: 0 <= k < |xs| ==> InlineAtom(xs[k])
    ensures Split(Join(RenderAtoms(xs), ','), ',') == RenderAtoms(xs)
  {
    var items := RenderAtoms(xs);
    forall k | 0 <= k < |items| ensures ',' !in items[k] {
      AtomHasNoComma(xs[k]);
    }
    SplitJoin(items, ',');
  }

  lemma ParseAtomsBack(xs: seq<Value>, items: seq<string>)
    requires forall k :: 0 <= k < |xs| ==> InlineAtom(xs[k])
    requires |items| == |xs| && forall k :: 0 <= k < |xs| ==> items[k] == RenderAtom(xs[k])
    ensures seq(|items|, k requires 0 <= k < |items| => ParseScalar(Strip(items[k]))) == xs
  {
    forall k | 0 <= k < |items| ensures ParseScalar(Strip(items[k])) == xs[k] {
      StripKeeps(items[k]);
      ParseRenderAtom(xs[k]);
    }
  }

  lemma AtomHasNoComma(v: Value)
    requires InlineAtom(v)
    ensures ',' !in RenderAtom(v)
  {
    match v
    case Int(i) =>
      var t := IntToDec(i);
      IntToDecLiteral(i);
      assert forall k :: 0 <= k < |t| ==> t[k] == '-' || IsDigit(t[k]) by {
        if t[0] == '-' {
          forall k | 1 <= k < |t| ensures IsDigit(t[k]) {
            assert t[k] == t[1..][k - 1];
          }
        }
      }
    case _ =>
  }

  /** The ends of a join are the ends of its first and last parts. */
  lemma {:induction false} JoinEnds(parts: seq<string>, c: char)
    requires |parts| >= 1 && forall k :: 0 <= k < |parts| ==> parts[k] != []
    ensures var j := Join(parts, c); j != [] && j[0] == parts[0][0] && j[|j| - 1] == parts[|parts| - 1][|parts[|parts| - 1]| - 1]
  {
    if |parts| > 1 {
      JoinEnds(parts[1..], c);
    }
  }

  // --------------------------------------------------------------- blocks

  /** A parse outcome and the cursor position it leaves behind. */
  type Parse = (Result<Value, YamlError>, nat)

  /** `key: rest` split at the first ':'; the key goes through `str(_parse_scalar(...))`. */
  function KeyAndRest(content: string): (string, string)
    requires ':' in content
  {
    var parts := SplitAt(content, ':');
    (PyStr(ParseScalar(Strip(parts.0))), Strip(parts.1))
  }

  /** Line `i` is a list item of the block at indent `e`. */
  predicate IsItemLine(ls: seq<Line>, i: nat, e: nat) {
    i < |ls| && ls[i].0 == e && StartsWith(ls[i].1, "-")
  }

  /** What follows the "-" of a list item. */
  function ItemText(content: string): string
    requires StartsWith(content, "-")
  {
    LStripChar(content[1..], ' ')
  }

  /**
   * `parse_block(e)` entered with the cursor at `i`: end of input or a
   * shallower line yields `{}`, a deeper line is an error, a line starting
   * with "-" opens a list, anything else a mapping.
   */
  function Block(ls: seq<Line>, i: nat, e: nat): (p: Parse)
    requires i <= |ls|
    ensures i <= p.1 <= |ls|
    ensures p.0.Ok? ==> p.0.value.List? || p.0.value.Dict?
    decreases |ls| - i, 4
  {
    if i == |ls| || ls[i].0 < e then (Ok(Dict([])), i)
    else if ls[i].0 > e then (Err(BadIndentation), i)
    else if StartsWith(ls[i].1, "-") then Items(ls, i, e, [])
    else Entries(ls, i, e, [], true)
  }

  /** The list loop: one item per "-" line at indent `e`, appended to `acc`. */
  function Items(ls: seq<Line>, i: nat, e: nat, acc: seq<Value>): (p: Parse)
    requires i <= |ls|
    ensures i <= p.1 <= |ls|
    ensures p.0.Ok? ==> p.0.value.List?
    decreases |ls| - i, 3
  {
    if !IsItemLine(ls, i, e) then (Ok(List(acc)), i)
    else
      var it := Item(ls, i, e);
      if it.0.Err? then it else Items(ls, it.1, e, acc + [it.0.value])
  }

  /**
   * One list item: "-" alone takes the block at `e + 2`, "- key: value"
   * opens a mapping whose further keys sit at `e + 2`, anything else is a scalar.
   */
  function Item(ls: seq<Line>, i: nat, e: nat): (p: Parse)
    requires IsItemLine(ls, i, e)
    ensures i < p.1 <= |ls|
    decreases |ls| - i, 2
  {
    var item := ItemText(ls[i].1);
    if item == [] then Block(ls, i + 1, e + 2)
    else if ':' in item then
      var kr := KeyAndRest(item);
      var first := EntryValue(ls, i, e, kr.1);
      if first.0.Err? then first
      else Entries(ls, first.1, e + 2, Put([], kr.0, first.0.value), false)
    else (Ok(ParseScalar(item)), i + 1)
  }

  /**
   * The mapping loop at indent `e`, adding to `d`. `quoteLine` says whether
   * a line without ':' is quoted in the error, as the top-level mapping
   * loop does.
   */
  function Entries(ls: seq<Line>, i: nat, e: nat, d: seq<(string, Value)>, quoteLine: bool): (p: Parse)
    requires i <= |ls|
    ensures i <= p.1 <= |ls|
    ensures p.0.Ok? ==> p.0.value.Dict?
    decreases |ls| - i, 1
  {
    if i == |ls| || ls[i].0 < e then (Ok(Dict(d)), i)
    else if ls[i].0 > e then (Err(BadIndentation), i)
    else if StartsWith(ls[i].1, "-") then (Ok(Dict(d)), i)
    else if ':' !in ls[i].1 then (Err(NotKeyValue(if quoteLine then Some(ls[i].1) else None)), i)
    else
      var kr := KeyAndRest(ls[i].1);
      var v := EntryValue(ls, i, e, kr.1);
      if v.0.Err? then v else Entries(ls, v.1, e, Put(d, kr.0, v.0.value), quoteLine)
  }

  /** The value of a key on line `i` of a mapping at indent `e`: the text after ':', or the block at `e + 2`. */
  function EntryValue(ls: seq<Line>, i: nat, e: nat, rest: string): (p: Parse)
    requires i < |ls|
    ensures i < p.1 <= |ls|
    decreases |ls| - i, 0
  {
    if rest == [] then Block(ls, i + 1, e + 2) else (Ok(ParseScalar(rest)), i + 1)
  }

  /** `_load_simple_yaml`: prepare the lines, then parse one block at indent 0; lines left over are ignored. */
  function Load(text: string): Result<Value, YamlError> {
    match Prepared(SplitLines(text))
    case Err(err) => Err(err)
    case Ok(ls) => Block(ls, 0, 0).0
  }
}
