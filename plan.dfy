/**
 * The scopes a development plan declares: the `allowed_paths:` and
 * `forbidden_paths:` item lists and the `expected_zones:` value, read one
 * line at a time; and the allow list `validate` falls back on when the
 * plan names no allowed path.
 */
module Plan {
  import opened Wrappers
  import opened Strs
  import opened Values
  import opened Yaml
  import opened Glob

  const AllowedHeader: PlanLine := "allowed_paths:"
  const ForbiddenHeader: PlanLine := "forbidden_paths:"
  const ZonesHeader: string := "expected_zones:"

  /** A line of `text.splitlines()`: it holds no "\n". */
  type PlanLine = s: string | '\n' !in s

  /** Which list a `- item` line goes to. */
  datatype Section = NoSection | AllowedSection | ForbiddenSection

  datatype Scopes = Scopes(allowed: seq<string>, forbidden: seq<string>, expectedZones: seq<string>)

  datatype PlanState = PlanState(section: Section, scopes: Scopes)

  const Initial: PlanState := PlanState(NoSection, Scopes([], [], []))

  // ------------------------------------------------------------- one line

  /**
   * `re.match(r"^-\s+(.+)$", s)` on a line: the captured text. `\s+` is
   * greedy, so the capture starts after the whole blank run, unless that
   * run reaches the end and the engine must give back its last character.
   */
  function ListItem(s: PlanLine): (r: Option<string>)
    ensures r.Some? <==> |s| >= 3 && s[0] == '-' && IsSpace(s[1])
    ensures r.Some? ==> r.value != [] && |r.value| < |s| - 1 && EndsWith(s, r.value)
    ensures r.Some? ==> forall i :: 1 <= i < |s| - |r.value| ==> IsSpace(s[i])
    ensures r.Some? && !IsSpace(s[|s| - 1]) ==> !IsSpace(r.value[0])
  {
    if |s| >= 3 && s[0] == '-' && IsSpace(s[1]) then
      var g := LStrip(s[1..]);
      LStripDrops(s[1..]);
      if g != [] then Some(g) else Some([s[|s| - 1]])
    else None
  }

  /** The item text: stripped, cut at its first unquoted '#', stripped again, then one pair of enclosing quotes dropped. */
  function CleanItem(g: string): (r: string)
    ensures |r| <= |g|
  {
    var item := Strip(WithoutComment(Strip(g)));
    if IsQuoted(item) then Inner(item) else item
  }

  /**
   * `[str(z) for z in _parse_scalar(rest) or []]`; `None` where Python
   * raises because the value is a non-zero integer or `true`, which it
   * cannot iterate.
   */
  function ZonesOf(rest: string): (r: Option<seq<string>>)
    ensures r.None? <==> ParseScalar(rest) == Bool(true) || (ParseScalar(rest).Int? && ParseScalar(rest).i != 0)
    ensures ParseScalar(rest).List? ==> r == Some(PyStrs(ParseScalar(rest).items))
  {
    var v := ParseScalar(rest);
    if !Truthy(v) then Some([])
    else match Iterate(v)
      case None => None
      case Some(xs) => Some(PyStrs(xs))
  }

  /** What one line of the plan is, with everything `validate` reads from it. */
  datatype LineKind =
    | HeaderLine(section: Section)
      /** The zones an `expected_zones:` line lists; `None` where iterating them raises. */
    | ZonesLine(zones: Option<seq<string>>)
    | ItemLine(item: string)
    | OtherLine

  /** A header line opens its list; an `expected_zones:` line gives zones; a `- item` line gives its cleaned item. */
  function Classify(line: PlanLine): (k: LineKind)
    ensures k.HeaderLine? <==> StartsWith(Strip(line), AllowedHeader) || StartsWith(Strip(line), ForbiddenHeader)
    ensures k.HeaderLine? ==> (k.section == AllowedSection <==> StartsWith(Strip(line), AllowedHeader))
  {
    StripKeepsNoNewline(line);
    var s: PlanLine := Strip(line);
    if StartsWith(s, AllowedHeader) then HeaderLine(AllowedSection)
    else if StartsWith(s, ForbiddenHeader) then HeaderLine(ForbiddenSection)
    else if StartsWith(s, ZonesHeader) then ZonesLine(ZonesOf(s[|ZonesHeader|..]))
    else
      match ListItem(s)
      case None => OtherLine
      case Some(g) => ItemLine(CleanItem(g))
  }

  /**
   * The effect of one line: a header switches the section, an
   * `expected_zones:` line replaces the zones and closes the section, and
   * an item is appended to the open list, if any.
   */
  function Apply(st: PlanState, k: LineKind): Option<PlanState> {
    match k
    case HeaderLine(sec) => Some(st.(section := sec))
    case ZonesLine(zs) => if zs.None? then None else Some(PlanState(NoSection, st.scopes.(expectedZones := zs.value)))
    case ItemLine(item) =>
      if st.section == AllowedSection then Some(st.(scopes := st.scopes.(allowed := st.scopes.allowed + [item])))
      else if st.section == ForbiddenSection then Some(st.(scopes := st.scopes.(forbidden := st.scopes.forbidden + [item])))
      else Some(st)
    case OtherLine => Some(st)
  }


  /** The lines, already classified, applied in order from `st`; a line that raises ends the run with `None`. */
  function Run(st: PlanState, ks: seq<LineKind>): Option<PlanState> {
    if ks == [] then Some(st)
    else
      match Run(st, ks[..|ks| - 1])
      case None => None
      case Some(s) => Apply(s, ks[|ks| - 1])
  }

  /** `f` applied to every element, in order. */
  function Map<A, B>(xs: seq<A>, f: A -> B): (r: seq<B>)
    ensures |r| == |xs| && forall k :: 0 <= k < |xs| ==> r[k] == f(xs[k])
  {
    if xs == [] then [] else Map(xs[..|xs| - 1], f) + [f(xs[|xs| - 1])]
  }

  lemma MapPrefix<A, B>(xs: seq<A>, f: A -> B, j: nat)
    requires j <= |xs|
    ensures Map(xs, f)[..j] == Map(xs[..j], f)
  {
  }

  lemma MapAppend<A, B>(a: seq<A>, b: seq<A>, f: A -> B)
    ensures Map(a + b, f) == Map(a, f) + Map(b, f)
  {
  }

  lemma MapSingle<A, B>(a: A, f: A -> B)
    ensures Map([a], f) == [f(a)]
  {
  }

  /** `Map` is determined by its elements. */
  lemma MapExt<A, B>(xs: seq<A>, f: A -> B, ys: seq<B>)
    requires |ys| == |xs| && forall k :: 0 <= k < |xs| ==> f(xs[k]) == ys[k]
    ensures Map(xs, f) == ys
  {
  }

  /** `text.splitlines()`. */
  function Lines(text: string): seq<PlanLine> {
    LinesHaveNoNewline(SplitLines(text));
    SplitLines(text)
  }

  /** `_parse_plan_scopes` on the text of the plan file; `None` where it raises. */
  function ParsePlan(text: string): Option<Scopes> {
    ParseLines(Lines(text))
  }

  /** The scopes read from the plan's lines. */
  function ParseLines(lines: seq<PlanLine>): Option<Scopes> {
    match Run(Initial, Map(lines, Classify))
    case None => None
    case Some(st) => Some(st.scopes)
  }

  lemma LinesHaveNoNewline(lines: seq<string>)
    requires forall k :: 0 <= k < |lines| ==> NoLineBreak(lines[k])
    ensures forall k :: 0 <= k < |lines| ==> '\n' !in lines[k]
  {
    forall k | 0 <= k < |lines| ensures '\n' !in lines[k] {
      NoLineBreakNoNewline(lines[k]);
    }
  }

  lemma NoLineBreakNoNewline(s: string)
    requires NoLineBreak(s)
    ensures '\n' !in s
  {
  }

  lemma StripKeepsNoNewline(s: string)
    requires '\n' !in s
    ensures '\n' !in Strip(s)
  {
    StripInfix(s);
  }

  /** One line of `_parse_plan_scopes`, read into its kind. */
  method ReadLine(line: PlanLine) returns (kind: LineKind)
    ensures kind == Classify(line)
  {
    StripKeepsNoNewline(line);
    var stripped: PlanLine := Strip(line);
    if StartsWith(stripped, AllowedHeader) {
      return HeaderLine(AllowedSection);
    } else if StartsWith(stripped, ForbiddenHeader) {
      return HeaderLine(ForbiddenSection);
    } else if StartsWith(stripped, ZonesHeader) {
      var v := ParseScalar(stripped[|ZonesHeader|..]);
      if !Truthy(v) {
        return ZonesLine(Some([]));
      } else if v.Int? || v.Bool? {
        return ZonesLine(None);
      }
      return ZonesLine(Some(PyStrs(Iterate(v).value)));
    }
    var m := ListItem(stripped);
    if m.None? {
      return OtherLine;
    }
    var item := StripComment(Strip(m.value));
    item := Strip(item);
    if IsQuoted(item) {
      item := Inner(item);
    }
    return ItemLine(item);
  }

  /** `_parse_plan_scopes`: one pass over `text.splitlines()`. */
  /** The body of the loop over the plan's lines, once the line is read; `ok` is false where iterating the zones raises. */
  method ApplyLine(section0: Section, allowed0: seq<string>, forbidden0: seq<string>, zones0: seq<string>, kind: LineKind)
    returns (ok: bool, section: Section, allowed: seq<string>, forbidden: seq<string>, zones: seq<string>)
    ensures var next := Apply(PlanState(section0, Scopes(allowed0, forbidden0, zones0)), kind);
      if ok then next == Some(PlanState(section, Scopes(allowed, forbidden, zones))) else next.None?
  {
    ok, section, allowed, forbidden, zones := true, section0, allowed0, forbidden0, zones0;
    match kind {
      case HeaderLine(sec) =>
        section := sec;
      case ZonesLine(zs) =>
        if zs.None? {
          return false, section, allowed, forbidden, zones;
        }
        zones := zs.value;
        section := NoSection;
      case ItemLine(item) =>
        if section == AllowedSection {
          allowed := allowed + [item];
        } else if section == ForbiddenSection {
          forbidden := forbidden + [item];
        }
      case OtherLine =>
    }
  }

  method ParsePlanScopes(text: string) returns (r: Option<Scopes>)
    ensures r == ParsePlan(text)
  {
    r := ReadPlanLines(Lines(text));
  }

  /** The loop over the plan's lines. */
  method ReadPlanLines(lines: seq<PlanLine>) returns (r: Option<Scopes>)
    ensures r == ParseLines(lines)
  {
    var section := NoSection;
    var allowed: seq<string> := [];
    var forbidden: seq<string> := [];
    var zones: seq<string> := [];
    var i := 0;
    while i < |lines|
      invariant 0 <= i <= |lines|
      invariant Run(Initial, Map(lines[..i], Classify)) == Some(PlanState(section, Scopes(allowed, forbidden, zones)))
    {
      var kind := ReadLine(lines[i]);
      RunStep(lines, i, Classify);
      var ok;
      ok, section, allowed, forbidden, zones := ApplyLine(section, allowed, forbidden, zones, kind);
      if !ok {
        CrashAt(lines, i + 1, Classify);
        return None;
      }
      i := i + 1;
    }
    assert lines[..i] == lines;
    r := Some(Scopes(allowed, forbidden, zones));
  }

  // --------------------------------------------------------------- the run

  /** One more line: the run so far, then that line's effect. */
  lemma RunStep(lines: seq<PlanLine>, i: nat, f: PlanLine -> LineKind)
    requires i < |lines|
    ensures Run(Initial, Map(lines[..i + 1], f)) ==
      match Run(Initial, Map(lines[..i], f)) case None => None case Some(s) => Apply(s, f(lines[i]))
  {
    assert lines[..i + 1][..i] == lines[..i];
  }

  /** A line that raises ends the whole run: the rest of the plan is never read. */
  lemma CrashAt(lines: seq<PlanLine>, j: nat, f: PlanLine -> LineKind)
    requires j <= |lines| && Run(Initial, Map(lines[..j], f)) == None
    ensures Run(Initial, Map(lines, f)) == None
  {
    MapPrefix(lines, f, j);
    CrashIsFinal(Map(lines, f), j);
  }

  lemma {:induction false} CrashIsFinal(ks: seq<LineKind>, j: nat)
    requires j <= |ks| && Run(Initial, ks[..j]) == None
    ensures Run(Initial, ks) == None
    decreases |ks|
  {
    if |ks| > j {
      var n := |ks| - 1;
      assert ks[..n][..j] == ks[..j];
      CrashIsFinal(ks[..n], j);
    } else {
      assert ks[..j] == ks;
    }
  }

  /** Reading more lines only appends to the two lists. */
  lemma {:induction false} ListsOnlyGrow(ks: seq<LineKind>, j: nat)
    requires j <= |ks| && Run(Initial, ks[..j]).Some? && Run(Initial, ks).Some?
    ensures Run(Initial, ks[..j]).value.scopes.allowed <= Run(Initial, ks).value.scopes.allowed
    ensures Run(Initial, ks[..j]).value.scopes.forbidden <= Run(Initial, ks).value.scopes.forbidden
    decreases |ks|
  {
    if |ks| > j {
      var n := |ks| - 1;
      assert ks[..n][..j] == ks[..j];
      ListsOnlyGrow(ks[..n], j);
    } else {
      assert ks[..j] == ks;
    }
  }

  /** Running two blocks of lines is running the first, then the second from where it stopped. */
  lemma {:induction false} RunAppend(st: PlanState, a: seq<LineKind>, b: seq<LineKind>, mid: PlanState)
    requires Run(st, a) == Some(mid)
    ensures Run(st, a + b) == Run(mid, b)
    decreases |b|
  {
    if b == [] {
      assert a + b == a;
    } else {
      var n := |b| - 1;
      RunAppend(st, a, b[..n], mid);
      assert (a + b)[..|a + b| - 1] == a + b[..n];
      assert (a + b)[|a + b| - 1] == b[n];
    }
  }

  /** Lines with no header before them leave both lists empty, whatever items they hold. */
  lemma {:induction false} ItemsNeedAHeader(ks: seq<LineKind>)
    requires forall k :: 0 <= k < |ks| ==> !ks[k].HeaderLine?
    ensures Run(Initial, ks).Some? ==> Run(Initial, ks).value.section == NoSection
    ensures Run(Initial, ks).Some? ==> Run(Initial, ks).value.scopes.allowed == [] && Run(Initial, ks).value.scopes.forbidden == []
    decreases |ks|
  {
    if ks != [] {
      ItemsNeedAHeader(ks[..|ks| - 1]);
    }
  }

  // ------------------------------------------------------------ header lines

  lemma HeaderPrefix(h: string, rest: string)
    requires h != [] && !IsSpace(h[0]) && !IsSpace(h[|h| - 1]) && '\n' !in h && '\n' !in rest
    ensures '\n' !in h + rest
    ensures StartsWith(Strip(h + rest), h)
  {
    var s := h + rest;
    assert !IsSpace(s[0]) && s[|h| - 1] == h[|h| - 1];
    assert LStrip(s) == s;
    var r := RStrip(s);
    RStripDrops(s);
    assert r[..|h|] == s[..|h|] == h;
  }

  lemma ForbiddenIsNotAllowed(line: PlanLine)
    requires StartsWith(Strip(line), ForbiddenHeader)
    ensures !StartsWith(Strip(line), AllowedHeader)
  {
    HeadersDiffer(Strip(line));
  }

  /** No text starts with both headers: they differ in their first letter. */
  lemma HeadersDiffer(s: string)
    ensures !(StartsWith(s, ForbiddenHeader) && StartsWith(s, AllowedHeader))
  {
    FirstLetter(s, ForbiddenHeader);
    FirstLetter(s, AllowedHeader);
  }

  lemma FirstLetter(s: string, p: string)
    requires p != []
    ensures StartsWith(s, p) ==> s[0] == p[0]
  {
    if StartsWith(s, p) {
      assert s[..|p|][0] == s[0];
    }
  }

  /** An `allowed_paths:` line opens the allowed list whatever follows the colon: an inline value there is not read. */
  lemma ClassifyAllowedHeader(rest: PlanLine)
    ensures '\n' !in AllowedHeader + rest
    ensures Classify(AllowedHeader + rest) == HeaderLine(AllowedSection)
  {
    HeaderPrefix(AllowedHeader, rest);
  }

  /** A `forbidden_paths:` line opens the forbidden list whatever follows the colon. */
  lemma ClassifyForbiddenHeader(rest: PlanLine)
    ensures '\n' !in ForbiddenHeader + rest
    ensures Classify(ForbiddenHeader + rest) == HeaderLine(ForbiddenSection)
  {
    HeaderPrefix(ForbiddenHeader, rest);
    ForbiddenIsNotAllowed(ForbiddenHeader + rest);
  }

  // ------------------------------------------------------------- item lines

  /** An item that comes back unchanged from a `- item` line. */
  predicate PlainItem(x: string) {
    x != [] && !IsSpace(x[0]) && !IsSpace(x[|x| - 1]) && NoLineBreak(x) && '#' !in x && x[0] != '"' && x[0] != '\''
  }

  function RenderItem(x: string): string { "- " + x }

  lemma RenderedItemOneLine(x: string)
    requires PlainItem(x)
    ensures '\n' !in RenderItem(x) && NoLineBreak(RenderItem(x))
  {
  }

  lemma ListItemOfRendered(x: string)
    requires PlainItem(x)
    ensures '\n' !in RenderItem(x) && ListItem(RenderItem(x)) == Some(x)
  {
    RenderedItemOneLine(x);
    var s := RenderItem(x);
    assert s[1..] == " " + x && (" " + x)[1..] == x;
    assert LStrip(s[1..]) == x;
  }

  lemma CleanPlainItem(x: string)
    requires PlainItem(x)
    ensures CleanItem(x) == x
  {
    StripKeeps(x);
    assert WithoutComment(x) == x;
    assert !IsQuoted(x);
  }

  lemma NotAHeader(s: string)
    requires s != [] && s[0] != 'a' && s[0] != 'f' && s[0] != 'e'
    ensures !StartsWith(s, AllowedHeader) && !StartsWith(s, ForbiddenHeader) && !StartsWith(s, ZonesHeader)
  {
    assert AllowedHeader[0] == 'a' && ForbiddenHeader[0] == 'f' && ZonesHeader[0] == 'e';
  }

  /** What a rendered item line looks like to `Classify`. */
  lemma ItemLineFacts(x: string)
    requires PlainItem(x)
    ensures '\n' !in RenderItem(x) && Strip(RenderItem(x)) == RenderItem(x)
    ensures !StartsWith(RenderItem(x), AllowedHeader) && !StartsWith(RenderItem(x), ForbiddenHeader)
    ensures !StartsWith(RenderItem(x), ZonesHeader)
    ensures ListItem(RenderItem(x)) == Some(x) && CleanItem(x) == x
  {
    RenderedItemOneLine(x);
    StripKeeps(RenderItem(x));
    NotAHeader(RenderItem(x));
    ListItemOfRendered(x);
    CleanPlainItem(x);
  }

  /** A stripped `- item` line that opens no section is read as its cleaned item. */
  lemma ClassifyStrippedItem(s: PlanLine, x: string)
    requires Strip(s) == s
    requires !StartsWith(s, AllowedHeader) && !StartsWith(s, ForbiddenHeader) && !StartsWith(s, ZonesHeader)
    requires ListItem(s) == Some(x) && CleanItem(x) == x
    ensures Classify(s) == ItemLine(x)
  {
  }

  /** A `- item` line with a plain item is read as that item. */
  lemma ClassifyItem(x: string)
    requires PlainItem(x)
    ensures '\n' !in RenderItem(x)
    ensures Classify(RenderItem(x)) == ItemLine(x)
  {
    ItemLineFacts(x);
    ClassifyStrippedItem(RenderItem(x), x);
  }

  /** One `- item` line per item. */
  function RenderItems(items: seq<string>): (r: seq<PlanLine>)
    requires forall k :: 0 <= k < |items| ==> PlainItem(items[k])
    ensures |r| == |items| && forall k :: 0 <= k < |items| ==> r[k] == RenderItem(items[k]) && NoLineBreak(r[k])
  {
    if items == [] then []
    else
      RenderedItemOneLine(items[|items| - 1]);
      RenderItems(items[..|items| - 1]) + [RenderItem(items[|items| - 1])]
  }

  /** The kinds of a block of `- item` lines. */
  function ItemKinds(items: seq<string>): (r: seq<LineKind>)
    ensures |r| == |items| && forall k :: 0 <= k < |items| ==> r[k] == ItemLine(items[k])
  {
    if items == [] then [] else ItemKinds(items[..|items| - 1]) + [ItemLine(items[|items| - 1])]
  }

  /** Every rendered item line is read back as that item. */
  lemma ClassifyRenderedItems()
    ensures forall x :: PlainItem(x) ==> Classify(RenderItem(x)) == ItemLine(x)
  {
    forall x | PlainItem(x) ensures Classify(RenderItem(x)) == ItemLine(x) {
      ClassifyItem(x);
    }
  }

  /** A block of rendered items, read by any `f` that reads each rendered item as itself. */
  lemma KindsOfItems(items: seq<string>, f: PlanLine -> LineKind)
    requires forall k :: 0 <= k < |items| ==> PlainItem(items[k])
    requires forall x :: PlainItem(x) ==> f(RenderItem(x)) == ItemLine(x)
    ensures Map(RenderItems(items), f) == ItemKinds(items)
  {
    MapExt(RenderItems(items), f, ItemKinds(items));
  }

  /** Items under an open section are appended to that section's list, in order. */
  lemma {:induction false} RunItems(st: PlanState, items: seq<string>)
    requires st.section != NoSection
    ensures Run(st, ItemKinds(items)) == Some(
      if st.section == AllowedSection then st.(scopes := st.scopes.(allowed := st.scopes.allowed + items))
      else st.(scopes := st.scopes.(forbidden := st.scopes.forbidden + items)))
    decreases |items|
  {
    if items == [] {
      AppendEmpty(st.scopes.allowed);
      AppendEmpty(st.scopes.forbidden);
    } else {
      var n := |items| - 1;
      var init := items[..n];
      RunItems(st, init);
      var ks := ItemKinds(items);
      assert ks == ItemKinds(init) + [ItemLine(items[n])];
      RunSnoc(st, ItemKinds(init), ItemLine(items[n]));
      AddItemStep(st, init, items[n], items);
    }
  }

  /** Running one more line applies it to the outcome so far. */
  lemma RunSnoc(st: PlanState, ks: seq<LineKind>, k: LineKind)
    ensures Run(st, ks + [k]) == match Run(st, ks) case None => None case Some(s) => Apply(s, k)
  {
    assert (ks + [k])[..|ks|] == ks;
  }

  /** An item line appends its item to the open section's list. */
  lemma AddItemStep(st: PlanState, init: seq<string>, x: string, items: seq<string>)
    requires st.section != NoSection && items == init + [x]
    ensures Apply(
      if st.section == AllowedSection then st.(scopes := st.scopes.(allowed := st.scopes.allowed + init))
      else st.(scopes := st.scopes.(forbidden := st.scopes.forbidden + init)), ItemLine(x)) == Some(
      if st.section == AllowedSection then st.(scopes := st.scopes.(allowed := st.scopes.allowed + items))
      else st.(scopes := st.scopes.(forbidden := st.scopes.forbidden + items)))
  {
    assert st.scopes.allowed + init + [x] == st.scopes.allowed + items;
    assert st.scopes.forbidden + init + [x] == st.scopes.forbidden + items;
  }

  // ------------------------------------------------------ expected zones

  function StrValues(zs: seq<string>): (r: seq<Value>)
    ensures |r| == |zs| && forall k :: 0 <= k < |zs| ==> r[k] == Str(zs[k])
  {
    if zs == [] then [] else [Str(zs[0])] + StrValues(zs[1..])
  }

  predicate PlainZone(z: string) { ',' !in z && NoLineBreak(z) }

  lemma PlainZonesInline(zs: seq<string>)
    requires forall k :: 0 <= k < |zs| ==> PlainZone(zs[k])
    ensures Inline(List(StrValues(zs)))
  {
    forall k | 0 <= k < |zs| ensures InlineAtom(StrValues(zs)[k]) {
      assert PlainZone(zs[k]);
    }
  }

  /** The zones as a flow list of double-quoted strings. */
  function ZonesText(zs: seq<string>): (t: string)
    requires forall k :: 0 <= k < |zs| ==> PlainZone(zs[k])
    ensures t != [] && !IsSpace(t[0]) && !IsSpace(t[|t| - 1])
  {
    PlainZonesInline(zs);
    RenderScalar(List(StrValues(zs)))
  }

  /** A leading blank before a value does not change how it parses. */
  lemma ParsePadded(t: string)
    requires t != [] && !IsSpace(t[0]) && !IsSpace(t[|t| - 1])
    ensures ParseScalar(" " + t) == ParseScalar(t)
  {
    StripPadded(t);
    StripKeeps(t);
  }

  lemma PyStrsOfStrs(zs: seq<string>)
    ensures PyStrs(StrValues(zs)) == zs
  {
  }

  /** The flow-list text reads back as the zones. */
  lemma ZonesOfText(zs: seq<string>)
    requires forall k :: 0 <= k < |zs| ==> PlainZone(zs[k])
    ensures ZonesOf(" " + ZonesText(zs)) == Some(zs)
  {
    var v := List(StrValues(zs));
    PlainZonesInline(zs);
    ParsePadded(ZonesText(zs));
    ParseRenderScalar(v);
    PyStrsOfStrs(zs);
  }

  function RenderZones(zs: seq<string>): (line: PlanLine)
    requires forall k :: 0 <= k < |zs| ==> PlainZone(zs[k])
    ensures NoLineBreak(line)
  {
    ZonesTextOneLine(zs);
    ZonesHeader + " " + ZonesText(zs)
  }

  /** The shape of `expected_zones: ` followed by a value with no blank at either end. */
  lemma ZonesLineStripped(t: string)
    requires t != [] && !IsSpace(t[0]) && !IsSpace(t[|t| - 1])
    ensures Strip(ZonesHeader + " " + t) == ZonesHeader + " " + t
  {
    StripKeeps(ZonesHeader + " " + t);
  }

  lemma ZonesLineHeader(t: string)
    ensures StartsWith(ZonesHeader + " " + t, ZonesHeader) && (ZonesHeader + " " + t)[|ZonesHeader|..] == " " + t
    ensures !StartsWith(ZonesHeader + " " + t, AllowedHeader) && !StartsWith(ZonesHeader + " " + t, ForbiddenHeader)
  {
    assert (ZonesHeader + " " + t)[0] == 'e';
  }

  /** A stripped `expected_zones:` line is read as the zones its value lists. */
  lemma ClassifyStrippedZones(s: PlanLine, zs: seq<string>)
    requires Strip(s) == s && StartsWith(s, ZonesHeader)
    requires !StartsWith(s, AllowedHeader) && !StartsWith(s, ForbiddenHeader)
    requires ZonesOf(s[|ZonesHeader|..]) == Some(zs)
    ensures Classify(s) == ZonesLine(Some(zs))
  {
  }

  /** `expected_zones: ` followed by a value with no blank at either end is read by `ZonesOf` on that value. */
  lemma ClassifyZonesText(t: string, zs: seq<string>, line: PlanLine)
    requires t != [] && !IsSpace(t[0]) && !IsSpace(t[|t| - 1])
    requires ZonesOf(" " + t) == Some(zs) && line == ZonesHeader + " " + t
    ensures Classify(line) == ZonesLine(Some(zs))
  {
    ZonesLineStripped(t);
    ZonesLineHeader(t);
    ClassifyStrippedZones(line, zs);
  }

  /** An `expected_zones:` line written as a flow list is read as the zones it lists. */
  lemma ClassifyZones(zs: seq<string>)
    requires forall k :: 0 <= k < |zs| ==> PlainZone(zs[k])
    ensures Classify(RenderZones(zs)) == ZonesLine(Some(zs))
  {
    ZonesOfText(zs);
    ClassifyZonesText(ZonesText(zs), zs, RenderZones(zs));
  }

  lemma ZonesTextOneLine(zs: seq<string>)
    requires forall k :: 0 <= k < |zs| ==> PlainZone(zs[k])
    ensures NoLineBreak(ZonesHeader + " " + ZonesText(zs))
  {
    var body := ZonesBody(zs);
    ConcatOneLine("[", body);
    ConcatOneLine("[" + body, "]");
    ZonesHeadOneLine();
    ConcatOneLine(ZonesHeader + " ", ZonesText(zs));
  }

  lemma ZonesHeadOneLine()
    ensures NoLineBreak(ZonesHeader + " ")
  {
  }

  /** The text between the brackets of the rendered zones. */
  function ZonesBody(zs: seq<string>): (body: string)
    requires forall k :: 0 <= k < |zs| ==> PlainZone(zs[k])
    ensures NoLineBreak(body)
    ensures ZonesText(zs) == "[" + body + "]"
  {
    PlainZonesInline(zs);
    var items := RenderAtoms(StrValues(zs));
    forall k | 0 <= k < |items| ensures NoLineBreak(items[k]) {
      assert items[k] == "\"" + zs[k] + "\"";
    }
    if items == [] then "" else JoinOneLine(items, ','); Join(items, ',')
  }

  lemma ConcatOneLine(a: string, b: string)
    requires NoLineBreak(a) && NoLineBreak(b)
    ensures NoLineBreak(a + b)
  {
    assert forall i :: |a| <= i < |a + b| ==> (a + b)[i] == b[i - |a|];
  }

  lemma {:induction false} JoinOneLine(parts: seq<string>, c: char)
    requires |parts| >= 1 && !IsLineBreak(c)
    requires forall k :: 0 <= k < |parts| ==> NoLineBreak(parts[k])
    ensures NoLineBreak(Join(parts, c))
  {
    if |parts| > 1 {
      JoinOneLine(parts[1..], c);
    }
  }

  predicate LowerWord(z: string) {
    |z| >= 1 && (forall i :: 0 <= i < |z| ==> 'a' <= z[i] <= 'z') && !IsNullWord(z) && !IsTrueWord(z) && !IsFalseWord(z)
  }

  lemma LowerWordShape(z: string)
    requires LowerWord(z)
    ensures !IsSpace(z[0]) && !IsSpace(z[|z| - 1])
    ensures !IsQuoted(z) && !IsBracketed(z) && !IsIntLiteral(z)
  {
    assert 'a' <= z[0] <= 'z' && 'a' <= z[|z| - 1] <= 'z';
    assert !IsDigit(z[0]);
  }

  /** A lower-case word that is no keyword parses as a string. */
  lemma LowerWordIsString(z: string)
    requires LowerWord(z)
    ensures ParseScalar(" " + z) == Str(z)
  {
    LowerWordShape(z);
    StripPadded(z);
    StripKeeps(z);
  }

  /** A value that parses as a non-empty string is iterated character by character. */
  lemma ZonesOfString(rest: string, z: string)
    requires ParseScalar(rest) == Str(z) && z != []
    ensures ZonesOf(rest).Some?
    ensures |ZonesOf(rest).value| == |z| && forall k :: 0 <= k < |z| ==> ZonesOf(rest).value[k] == [z[k]]
  {
    var xs := Iterate(Str(z)).value;
    assert ZonesOf(rest) == Some(PyStrs(xs));
  }

  /** Zones written without brackets are iterated as a string: every character becomes a zone of its own. */
  lemma BareZonesAreCharacters(z: string)
    requires LowerWord(z)
    ensures ZonesOf(" " + z).Some?
    ensures |ZonesOf(" " + z).value| == |z| && forall k :: 0 <= k < |z| ==> ZonesOf(" " + z).value[k] == [z[k]]
  {
    LowerWordIsString(z);
    ZonesOfString(" " + z, z);
  }

  // -------------------------------------------------------------- round trip

  predicate PlainScopes(sc: Scopes) {
    && (forall k :: 0 <= k < |sc.allowed| ==> PlainItem(sc.allowed[k]))
    && (forall k :: 0 <= k < |sc.forbidden| ==> PlainItem(sc.forbidden[k]))
    && (forall k :: 0 <= k < |sc.expectedZones| ==> PlainZone(sc.expectedZones[k]))
  }

  predicate AllOneLine(lines: seq<string>) {
    forall k :: 0 <= k < |lines| ==> NoLineBreak(lines[k])
  }

  /** The `expected_zones:` line and the `allowed_paths:` header. */
  function PlanHead(zs: seq<string>): (r: seq<PlanLine>)
    requires forall k :: 0 <= k < |zs| ==> PlainZone(zs[k])
    ensures AllOneLine(r)
  {
    HeadersOneLine();
    [RenderZones(zs), AllowedHeader]
  }

  lemma HeadersOneLine()
    ensures NoLineBreak(AllowedHeader) && NoLineBreak(ForbiddenHeader)
  {
  }

  /** `f` over four consecutive blocks. */
  lemma MapFour<A, B>(a: seq<A>, b: seq<A>, c: seq<A>, d: seq<A>, f: A -> B, ka: seq<B>, kb: seq<B>, kc: seq<B>, kd: seq<B>)
    requires Map(a, f) == ka && Map(b, f) == kb && Map(c, f) == kc && Map(d, f) == kd
    ensures Map(a + b + c + d, f) == ka + kb + kc + kd
  {
    MapAppend(a + b + c, d, f);
    MapAppend(a + b, c, f);
    MapAppend(a, b, f);
  }

  /** Plan text with an `expected_zones:` line and both lists. */
  function PlanLines(sc: Scopes): seq<PlanLine>
    requires PlainScopes(sc)
  {
    PlanHead(sc.expectedZones) + RenderItems(sc.allowed) + [ForbiddenHeader] + RenderItems(sc.forbidden)
  }

  /** A plan written out as `PlanLines` reads back as the scopes it was written from. */
  lemma PlanRoundTrip(sc: Scopes)
    requires PlainScopes(sc)
    ensures ParsePlan(Unlines(PlanLines(sc))) == Some(sc)
  {
    var lines := PlanLines(sc);
    PlanLinesOneLine(sc);
    SplitLinesUnlines(lines);
    assert Lines(Unlines(lines)) == lines;
    PlanKinds(sc);
    PlanRun(sc);
  }

  lemma PlanLinesOneLine(sc: Scopes)
    requires PlainScopes(sc)
    ensures AllOneLine(PlanLines(sc))
  {
    var a := PlanHead(sc.expectedZones);
    var b := RenderItems(sc.allowed);
    var c: seq<string> := [ForbiddenHeader];
    var d := RenderItems(sc.forbidden);
    HeadersOneLine();
    assert AllOneLine(b) && AllOneLine(c) && AllOneLine(d);
    AllOneLineAppend(a, b);
    AllOneLineAppend(a + b, c);
    AllOneLineAppend(a + b + c, d);
  }

  lemma AllOneLineAppend(a: seq<string>, b: seq<string>)
    requires AllOneLine(a) && AllOneLine(b)
    ensures AllOneLine(a + b)
  {
    assert forall k :: |a| <= k < |a + b| ==> (a + b)[k] == b[k - |a|];
  }

  function PlanKindList(sc: Scopes): seq<LineKind> {
    [ZonesLine(Some(sc.expectedZones)), HeaderLine(AllowedSection)] + ItemKinds(sc.allowed)
      + [HeaderLine(ForbiddenSection)] + ItemKinds(sc.forbidden)
  }

  lemma ClassifyAllowedHeaderLine()
    ensures Classify(AllowedHeader) == HeaderLine(AllowedSection)
  {
    var e: PlanLine := [];
    ClassifyAllowedHeader(e);
    AppendEmpty(AllowedHeader);
  }

  lemma ClassifyForbiddenHeaderLine()
    ensures Classify(ForbiddenHeader) == HeaderLine(ForbiddenSection)
  {
    var e: PlanLine := [];
    ClassifyForbiddenHeader(e);
    AppendEmpty(ForbiddenHeader);
  }

  lemma KindsOfHead(zs: seq<string>, f: PlanLine -> LineKind)
    requires forall k :: 0 <= k < |zs| ==> PlainZone(zs[k])
    requires f(RenderZones(zs)) == ZonesLine(Some(zs)) && f(AllowedHeader) == HeaderLine(AllowedSection)
    ensures Map(PlanHead(zs), f) == [ZonesLine(Some(zs)), HeaderLine(AllowedSection)]
  {
    MapExt(PlanHead(zs), f, [ZonesLine(Some(zs)), HeaderLine(AllowedSection)]);
  }

  /** The plan's lines, read by any `f` that reads each kind of rendered line as `Classify` does. */
  lemma PlanKindsBy(sc: Scopes, f: PlanLine -> LineKind)
    requires PlainScopes(sc)
    requires f(RenderZones(sc.expectedZones)) == ZonesLine(Some(sc.expectedZones))
    requires f(AllowedHeader) == HeaderLine(AllowedSection) && f(ForbiddenHeader) == HeaderLine(ForbiddenSection)
    requires forall x :: PlainItem(x) ==> f(RenderItem(x)) == ItemLine(x)
    ensures Map(PlanLines(sc), f) == PlanKindList(sc)
  {
    var a := PlanHead(sc.expectedZones);
    var b := RenderItems(sc.allowed);
    var fh: PlanLine := ForbiddenHeader;
    var c := [fh];
    var d := RenderItems(sc.forbidden);
    KindsOfHead(sc.expectedZones, f);
    KindsOfItems(sc.allowed, f);
    KindsOfItems(sc.forbidden, f);
    MapSingle(fh, f);
    MapFour(a, b, c, d, f, [ZonesLine(Some(sc.expectedZones)), HeaderLine(AllowedSection)], ItemKinds(sc.allowed),
      [HeaderLine(ForbiddenSection)], ItemKinds(sc.forbidden));
  }

  lemma PlanKinds(sc: Scopes)
    requires PlainScopes(sc)
    ensures Map(PlanLines(sc), Classify) == PlanKindList(sc)
  {
    ClassifyZones(sc.expectedZones);
    ClassifyAllowedHeaderLine();
    ClassifyForbiddenHeaderLine();
    ClassifyRenderedItems();
    PlanKindsBy(sc, Classify);
  }

  /** After the `expected_zones:` line and the allowed header, the allowed list is open and empty. */
  lemma RunHead(zs: seq<string>)
    ensures Run(Initial, [ZonesLine(Some(zs)), HeaderLine(AllowedSection)]) == Some(PlanState(AllowedSection, Scopes([], [], zs)))
  {
    var a := [ZonesLine(Some(zs))];
    var b := [HeaderLine(AllowedSection)];
    var s1 := PlanState(NoSection, Scopes([], [], zs));
    assert Run(Initial, a) == Some(s1) by { assert a[..0] == []; }
    assert Run(s1, b) == Some(PlanState(AllowedSection, Scopes([], [], zs))) by { assert b[..0] == []; }
    RunAppend(Initial, a, b, s1);
    assert a + b == [ZonesLine(Some(zs)), HeaderLine(AllowedSection)];
  }

  /** A block of items after a run that left `st` with an open section. */
  lemma RunThenItems(pre: seq<LineKind>, st: PlanState, items: seq<string>)
    requires Run(Initial, pre) == Some(st) && st.section != NoSection
    ensures Run(Initial, pre + ItemKinds(items)) == Some(
      if st.section == AllowedSection then st.(scopes := st.scopes.(allowed := st.scopes.allowed + items))
      else st.(scopes := st.scopes.(forbidden := st.scopes.forbidden + items)))
  {
    RunAppend(Initial, pre, ItemKinds(items), st);
    RunItems(st, items);
  }

  /** The forbidden header closes the allowed list and opens the forbidden one. */
  lemma RunForbiddenHeader(pre: seq<LineKind>, st: PlanState)
    requires Run(Initial, pre) == Some(st)
    ensures Run(Initial, pre + [HeaderLine(ForbiddenSection)]) == Some(st.(section := ForbiddenSection))
  {
    var ks := pre + [HeaderLine(ForbiddenSection)];
    assert ks[..|ks| - 1] == pre;
  }

  lemma PlanRun(sc: Scopes)
    ensures Run(Initial, PlanKindList(sc)) == Some(PlanState(ForbiddenSection, sc))
  {
    var zs := sc.expectedZones;
    var head := [ZonesLine(Some(zs)), HeaderLine(AllowedSection)];
    RunHead(zs);
    var s2 := PlanState(AllowedSection, Scopes([], [], zs));
    RunThenItems(head, s2, sc.allowed);
    assert [] + sc.allowed == sc.allowed;
    var s3 := PlanState(AllowedSection, Scopes(sc.allowed, [], zs));
    var pre := head + ItemKinds(sc.allowed);
    RunForbiddenHeader(pre, s3);
    var s4 := PlanState(ForbiddenSection, Scopes(sc.allowed, [], zs));
    RunThenItems(pre + [HeaderLine(ForbiddenSection)], s4, sc.forbidden);
    assert [] + sc.forbidden == sc.forbidden;
  }

  // ------------------------------------------------------------ allow list

  const IntentRoot: string := ".id-sdlc/intent/"
  const CurrentIntentFile: string := ".id-sdlc/current-intent.json"

  /** The plan's allowed paths, or, when it names none, the intent folder and the current-intent file. */
  function AllowList(allowed: seq<string>, folder: string): (r: seq<string>)
    ensures allowed != [] ==> r == allowed
    ensures r != []
  {
    if allowed != [] then allowed else [IntentRoot + folder + "/**", CurrentIntentFile]
  }

  /** Whether some element satisfies `p`, looked at from the front. */
  function AnyOf<T>(xs: seq<T>, p: T -> bool): (r: bool)
    ensures r <==> exists k :: 0 <= k < |xs| && p(xs[k])
  {
    if xs == [] then false
    else
      var r := p(xs[0]) || AnyOf(xs[1..], p);
      assert forall k :: 0 < k < |xs| ==> xs[k] == xs[1..][k - 1];
      r
  }

  /** `any(r.match(path) for r in compiled)`. */
  function AnyMatch(patterns: seq<string>, path: string, cls: (string, char) -> bool): (r: bool)
    ensures r <==> exists k :: 0 <= k < |patterns| && GlobMatches(patterns[k], path, cls)
  {
    AnyOf(patterns, q => GlobMatches(q, path, cls))
  }

  lemma PlainTextAppend(a: string, b: string)
    requires PlainText(a) && PlainText(b)
    ensures PlainText(a + b)
  {
    assert forall i :: |a| <= i < |a + b| ==> (a + b)[i] == b[i - |a|];
  }

  lemma FolderPatternBody(folder: string)
    ensures PatternBody(IntentRoot + folder + "/**") == IntentRoot + folder + "/**"
  {
    var p := IntentRoot + folder + "/**";
    assert IsCleanPattern(p) by {
      assert p[0] == '.' && p[1] == 'i' && p[|p| - 1] == '*';
    }
    PatternBodyClean(p);
  }

  lemma FolderPatternTokens(folder: string)
    requires PlainText(folder)
    ensures Tokenize(IntentRoot + folder + "/**") == Lits(IntentRoot + folder + "/") + [DoubleStar]
  {
    var lit := IntentRoot + folder + "/";
    assert IntentRoot + folder + "/**" == lit + "**";
    assert PlainText(IntentRoot) && PlainText("/");
    PlainTextAppend(IntentRoot, folder);
    PlainTextAppend(IntentRoot + folder, "/");
    TokenizeThen(lit, "**");
    assert Tokenize("**") == [DoubleStar] by {
      assert "**"[2..] == [];
    }
  }

  /** The intent-folder pattern admits exactly the paths below the folder. */
  lemma FolderPatternMatches(folder: string, path: string, cls: (string, char) -> bool)
    requires PlainText(folder) && '\n' !in path
    ensures GlobMatches(IntentRoot + folder + "/**", path, cls) <==> StartsWith(path, IntentRoot + folder + "/")
  {
    var lit := IntentRoot + folder + "/";
    FolderPatternBody(folder);
    FolderPatternTokens(folder);
    LitsThen(lit, [DoubleStar], path, cls);
    if StartsWith(path, lit) {
      var rest := path[|lit|..];
      Wildcards(rest, cls);
      assert forall i :: 0 <= i < |rest| ==> rest[i] == path[|lit| + i];
    }
    assert path == [] || path[|path| - 1] != '\n';
  }

  lemma IntentFilePatternBody()
    ensures PatternBody(CurrentIntentFile) == CurrentIntentFile
  {
    var p := CurrentIntentFile;
    assert IsCleanPattern(p) by {
      assert p[0] == '.' && p[1] == 'i' && p[|p| - 1] == 'n';
    }
    PatternBodyClean(p);
  }

  lemma IntentFilePatternPlain()
    ensures PlainText(CurrentIntentFile)
  {
  }

  /** The current-intent pattern admits that one file. */
  lemma IntentFilePatternMatches(path: string, cls: (string, char) -> bool)
    requires '\n' !in path
    ensures GlobMatches(CurrentIntentFile, path, cls) <==> path == CurrentIntentFile
  {
    IntentFilePatternBody();
    IntentFilePatternPlain();
    ExactPattern(CurrentIntentFile, path, cls);
  }

  /** A pattern compiled as written and without metacharacters admits only itself. */
  lemma ExactPattern(p: string, path: string, cls: (string, char) -> bool)
    requires PatternBody(p) == p && PlainText(p) && '\n' !in path
    ensures GlobMatches(p, path, cls) <==> path == p
  {
    PlainPattern(p, path, cls);
  }

  /** The fallback allow list admits exactly the files below the intent folder and the current-intent file. */
  lemma FallbackAllowsIntentFolder(folder: string, path: string, cls: (string, char) -> bool)
    requires PlainText(folder) && '\n' !in path
    ensures AnyMatch(AllowList([], folder), path, cls) <==>
      StartsWith(path, IntentRoot + folder + "/") || path == CurrentIntentFile
  {
    FolderPatternMatches(folder, path, cls);
    IntentFilePatternMatches(path, cls);
    AnyMatchTwo(IntentRoot + folder + "/**", CurrentIntentFile, path, cls);
  }

  lemma AnyMatchTwo(a: string, b: string, path: string, cls: (string, char) -> bool)
    ensures AnyMatch([a, b], path, cls) <==> GlobMatches(a, path, cls) || GlobMatches(b, path, cls)
  {
    var ps := [a, b];
    assert ps[0] == a && ps[1] == b;
    if AnyMatch(ps, path, cls) {
      var k :| 0 <= k < |ps| && GlobMatches(ps[k], path, cls);
      assert k == 0 || k == 1;
    }
  }
}
