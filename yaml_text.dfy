/**
 * The reader over whole documents: the rendered lines of a document,
 * written out as text with their indentation, load back as that
 * document, as long as no line holds a comment sign.
 */
module YamlText {
  import opened Wrappers
  import opened Strs
  import opened Values
  import opened Yaml
  import opened YamlDoc

  function Spaces(n: nat): (s: string)
    ensures |s| == n && forall k :: 0 <= k < n ==> s[k] == ' '
  {
    if n == 0 then [] else [' '] + Spaces(n - 1)
  }

  /** Each line as the text it came from: its indent in blanks, then its content. */
  function RawLines(ls: seq<Line>): (raws: seq<string>)
    ensures |raws| == |ls|
  {
    seq(|ls|, k requires 0 <= k < |ls| => Spaces(ls[k].0) + ls[k].1)
  }

  /** The document text of a line list. */
  function Text(ls: seq<Line>): string { Unlines(RawLines(ls)) }

  /**
   * Content that survives line preparation unchanged: it is not blank, has
   * no whitespace at either end, and holds no line break and no '#'.
   */
  predicate PlainLine(c: string) {
    c != [] && !IsSpace(c[0]) && !IsSpace(c[|c| - 1]) && NoLineBreak(c) && '#' !in c
  }

  lemma {:induction false} IndentSpaces(n: nat, c: string)
    requires c == [] || c[0] != ' '
    ensures Indent(Spaces(n) + c) == n
  {
    if n > 0 {
      assert (Spaces(n) + c)[1..] == Spaces(n - 1) + c;
      IndentSpaces(n - 1, c);
    }
  }

  /** A line without '#' has no comment to cut. */
  lemma NoComment(raw: string)
    requires '#' !in raw
    ensures WithoutComment(raw) == raw
  {
  }

  /** Preparing the text of a plain line gives the line back. */
  lemma RawStep(l: Line)
    requires PlainLine(l.1)
    ensures StepOf(Spaces(l.0) + l.1, true) == Keep(l)
  {
    var raw := Spaces(l.0) + l.1;
    assert '#' !in raw;
    NoComment(raw);
    assert RStripChar(raw, '\n') == raw;
    assert Strip(raw) == l.1 by {
      assert AllSpace(Spaces(l.0)) && AllSpace([]);
      assert raw == Spaces(l.0) + l.1 + [];
      StripExactly(Spaces(l.0), l.1, []);
    }
    IndentSpaces(l.0, l.1);
    TabCheckAsWrittenIsDead(raw);
  }

  lemma {:induction false} PreparedRaws(ls: seq<Line>, i: nat)
    requires i <= |ls| && forall k :: 0 <= k < |ls| ==> PlainLine(ls[k].1)
    ensures PreparedFrom(RawLines(ls), i, true) == Ok(ls[i..])
    decreases |ls| - i
  {
    if i < |ls| {
      var raws := RawLines(ls);
      assert StepOf(raws[i], true) == Keep(ls[i]) by { RawStep(ls[i]); }
      PreparedFromStep(raws, i, Keep(ls[i]));
      PreparedRaws(ls, i + 1);
      PrefixedCons(ls, i);
    } else {
      assert ls[i..] == [];
    }
  }

  lemma PrefixedCons(ls: seq<Line>, i: nat)
    requires i < |ls|
    ensures Prefixed([ls[i]], Ok(ls[i + 1..])) == Ok(ls[i..])
  {
    assert ls[i..] == [ls[i]] + ls[i + 1..];
  }

  /** Splitting the text of plain lines gives back their raw lines, which prepare to the lines. */
  lemma PreparedText(ls: seq<Line>)
    requires forall k :: 0 <= k < |ls| ==> PlainLine(ls[k].1)
    ensures Prepared(SplitLines(Text(ls))) == Ok(ls)
  {
    var raws := RawLines(ls);
    forall k | 0 <= k < |raws|
      ensures NoLineBreak(raws[k])
    {
      assert PlainLine(ls[k].1);
    }
    SplitLinesUnlines(raws);
    PreparedRaws(ls, 0);
    assert ls[0..] == ls;
  }

  /**
   * `_load_simple_yaml` of a rendered document gives the document back,
   * when no rendered line holds a '#'.
   */
  lemma LoadRendered(v: Value)
    requires Doc(v)
    requires forall k :: 0 <= k < |RenderBlock(v, 0)| ==> PlainLine(RenderBlock(v, 0)[k].1)
    ensures Load(Text(RenderBlock(v, 0))) == Ok(v)
  {
    PreparedText(RenderBlock(v, 0));
    ParseRendered(v);
  }
}
