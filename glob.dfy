/**
 * Root-anchored globs, as `_compile_root_anchored_glob` turns them into
 * regular expressions: `**` becomes `.*`, `*` becomes `[^/]*`, `?` becomes
 * `[^/]`, a bracketed class is copied through as it stands, and every
 * other character (an unclosed "[" included) is matched literally. The
 * compiled expression is `^...$` and is applied with `re.match`.
 *
 * The pattern is kept as a list of tokens, and matching is a recursive
 * relation that follows Python's `re` engine for exactly these tokens:
 * `.` does not match a newline, `[^/]` does, and `$` also matches just
 * before a newline that ends the string. What a bracketed class admits is
 * left to the `re` engine, so it is a parameter `cls(classText, ch)`.
 */
module Glob {
  import opened Strs

  datatype Token = Lit(c: char) | Star | DoubleStar | Quest | Class(text: string)

  /** Characters with a meaning of their own in a pattern. */
  predicate IsSpecial(c: char) { c == '*' || c == '?' || c == '[' }

  /** The text that is compiled: stripped, then one leading "./" dropped, then one leading "/". */
  function PatternBody(pattern: string): (r: string)
    ensures |r| <= |pattern|
    ensures |r| <= |Strip(pattern)| && r == Strip(pattern)[|Strip(pattern)| - |r|..]
  {
    var pat := Strip(pattern);
    var pat2 := if StartsWith(pat, "./") then pat[2..] else pat;
    if StartsWith(pat2, "/") then pat2[1..] else pat2
  }

  /** The token list of a pattern body, scanned left to right. */
  function Tokenize(pat: string): (r: seq<Token>)
    ensures |r| <= |pat|
    decreases |pat|
  {
    if pat == [] then []
    else if pat[0] == '*' then
      if |pat| > 1 && pat[1] == '*' then [DoubleStar] + Tokenize(pat[2..]) else [Star] + Tokenize(pat[1..])
    else if pat[0] == '?' then [Quest] + Tokenize(pat[1..])
    else if pat[0] == '[' && ']' in pat[1..] then
      var j := IndexOf(pat[1..], ']') + 1;
      [Class(pat[..j + 1])] + Tokenize(pat[j + 1..])
    else [Lit(pat[0])] + Tokenize(pat[1..])
  }

  /** The pattern text a token stands for. */
  function TokenText(t: Token): string {
    match t
    case Lit(c) => [c]
    case Star => "*"
    case DoubleStar => "**"
    case Quest => "?"
    case Class(text) => text
  }

  function Render(toks: seq<Token>): string {
    if toks == [] then [] else TokenText(toks[0]) + Render(toks[1..])
  }

  /** Tokenizing loses nothing: the tokens spell out the pattern again. */
  lemma {:induction false} RenderTokenize(pat: string)
    ensures Render(Tokenize(pat)) == pat
    decreases |pat|
  {
    if pat == [] {
    } else if pat[0] == '*' {
      if |pat| > 1 && pat[1] == '*' {
        RenderTokenize(pat[2..]);
        assert pat == "**" + pat[2..];
      } else {
        RenderTokenize(pat[1..]);
        assert pat == "*" + pat[1..];
      }
    } else if pat[0] == '?' {
      RenderTokenize(pat[1..]);
      assert pat == "?" + pat[1..];
    } else if pat[0] == '[' && ']' in pat[1..] {
      var j := IndexOf(pat[1..], ']') + 1;
      RenderTokenize(pat[j + 1..]);
      assert pat == pat[..j + 1] + pat[j + 1..];
    } else {
      RenderTokenize(pat[1..]);
      assert pat == [pat[0]] + pat[1..];
    }
  }

  /** A "[" with no "]" after it is an ordinary character. */
  lemma UnclosedBracket(rest: string)
    requires ']' !in rest
    ensures Tokenize("[" + rest) == [Lit('[')] + Tokenize(rest)
  {
    assert ("[" + rest)[1..] == rest;
  }

  /** A closed bracket becomes one class token holding the text up to the first "]". */
  lemma ClosedBracket(body: string, rest: string)
    requires ']' !in body
    ensures Tokenize("[" + body + "]" + rest) == [Class("[" + body + "]")] + Tokenize(rest)
  {
    var pat := "[" + body + "]" + rest;
    assert pat[1..] == body + "]" + rest;
    IndexOfIs(pat[1..], ']', |body|);
    assert pat[..|body| + 2] == "[" + body + "]";
    assert pat[|body| + 2..] == rest;
  }

  /** The one token per character of a pattern with no special characters. */
  function Lits(s: string): (r: seq<Token>)
    ensures |r| == |s|
  {
    if s == [] then [] else [Lit(s[0])] + Lits(s[1..])
  }

  lemma {:induction false} TokenizePlain(s: string)
    requires forall i :: 0 <= i < |s| ==> !IsSpecial(s[i])
    ensures Tokenize(s) == Lits(s)
  {
    if s != [] {
      TokenizePlain(s[1..]);
    }
  }

  /** `_compile_root_anchored_glob` up to the regular-expression text: the index loop that emits one token at a time. */
  method Compile(pattern: string) returns (toks: seq<Token>)
    ensures toks == Tokenize(PatternBody(pattern))
  {
    var pat := Strip(pattern);
    if StartsWith(pat, "./") {
      pat := pat[2..];
    }
    if StartsWith(pat, "/") {
      pat := pat[1..];
    }
    assert pat == PatternBody(pattern);
    toks := EmitTokens(pat);
  }

  /** The index loop of `Compile` over the cleaned pattern. */
  method EmitTokens(pat: string) returns (toks: seq<Token>)
    ensures toks == Tokenize(pat)
  {
    var i := 0;
    toks := [];
    while i < |pat|
      invariant i <= |pat|
      invariant toks + Tokenize(pat[i..]) == Tokenize(pat)
      decreases |pat| - i
    {
      var tok, next := NextToken(pat, i);
      Emit(toks, tok, Tokenize(pat[next..]));
      toks := toks + [tok];
      i := next;
    }
    assert pat[i..] == [];
  }

  /** The token that starts at index `i`, and the index after it. */
  method NextToken(pat: string, i: nat) returns (tok: Token, next: nat)
    requires i < |pat|
    ensures i < next <= |pat| && Tokenize(pat[i..]) == [tok] + Tokenize(pat[next..])
  {
    var ch := pat[i];
    ghost var t := pat[i..];
    assert t[0] == ch && t[1..] == pat[i + 1..];
    if ch == '*' {
      tok, next := StarToken(pat, i);
    } else if ch == '?' {
      TokenizeQuest(t);
      tok, next := Quest, i + 1;
    } else if ch == '[' && ']' in pat[i + 1..] {
      tok, next := ClassToken(pat, i);
    } else {
      TokenizeLit(t);
      tok, next := Lit(ch), i + 1;
    }
  }

  /** A "*" at index `i`: "**" when another "*" follows, else a single star. */
  method StarToken(pat: string, i: nat) returns (tok: Token, next: nat)
    requires i < |pat| && pat[i] == '*'
    ensures i < next <= |pat| && Tokenize(pat[i..]) == [tok] + Tokenize(pat[next..])
  {
    ghost var t := pat[i..];
    assert t[0] == '*' && t[1..] == pat[i + 1..];
    if i + 1 < |pat| && pat[i + 1] == '*' {
      assert t[1] == '*' && t[2..] == pat[i + 2..];
      TokenizeDoubleStar(t);
      tok, next := DoubleStar, i + 2;
    } else {
      TokenizeStar(t);
      tok, next := Star, i + 1;
    }
  }

  /** A "[" at index `i` with a "]" after it: the class runs to the first "]". */
  method ClassToken(pat: string, i: nat) returns (tok: Token, next: nat)
    requires i < |pat| && pat[i] == '[' && ']' in pat[i + 1..]
    ensures i < next <= |pat| && Tokenize(pat[i..]) == [tok] + Tokenize(pat[next..])
  {
    var k := IndexOf(pat[i + 1..], ']');
    TokenizeClassStep(pat, i, k);
    next := i + k + 2;
    tok := Class(pat[i..next]);
  }

  lemma Emit(toks: seq<Token>, tok: Token, rest: seq<Token>)
    ensures (toks + [tok]) + rest == toks + ([tok] + rest)
  {
  }

  lemma TokenizeDoubleStar(t: string)
    requires |t| > 1 && t[0] == '*' && t[1] == '*'
    ensures Tokenize(t) == [DoubleStar] + Tokenize(t[2..])
  {
  }

  lemma TokenizeStar(t: string)
    requires t != [] && t[0] == '*' && !(|t| > 1 && t[1] == '*')
    ensures Tokenize(t) == [Star] + Tokenize(t[1..])
  {
  }

  lemma TokenizeQuest(t: string)
    requires t != [] && t[0] == '?'
    ensures Tokenize(t) == [Quest] + Tokenize(t[1..])
  {
  }

  lemma TokenizeLit(t: string)
    requires t != [] && (!IsSpecial(t[0]) || (t[0] == '[' && ']' !in t[1..]))
    ensures Tokenize(t) == [Lit(t[0])] + Tokenize(t[1..])
  {
  }

  /** A closed bracket at index `i`, whose first "]" after it is `k + 1` further on. */
  lemma TokenizeClassStep(pat: string, i: nat, k: nat)
    requires i < |pat| && pat[i] == '[' && ']' in pat[i + 1..]
    requires k == IndexOf(pat[i + 1..], ']')
    ensures i + k + 2 <= |pat| && Tokenize(pat[i..]) == [Class(pat[i..i + k + 2])] + Tokenize(pat[i + k + 2..])
  {
    var t := pat[i..];
    assert t[1..] == pat[i + 1..];
    TokenizeClass(t, k);
    assert t[..k + 2] == pat[i..i + k + 2];
    assert t[k + 2..] == pat[i + k + 2..];
  }

  lemma TokenizeClass(t: string, k: nat)
    requires t != [] && t[0] == '[' && ']' in t[1..] && k == IndexOf(t[1..], ']')
    ensures Tokenize(t) == [Class(t[..k + 2])] + Tokenize(t[k + 2..])
  {
  }

  /**
   * The compiled expression, without its final `$`, matches the whole of
   * `s`. `*` and `**` are greedy in the `re` engine, but with nothing else
   * to choose between, the engine finds a match exactly when one exists.
   */
  predicate MatchesAll(toks: seq<Token>, s: string, cls: (string, char) -> bool)
    decreases |toks|, |s|
  {
    if toks == [] then s == []
    else match toks[0]
      case Lit(c) => s != [] && s[0] == c && MatchesAll(toks[1..], s[1..], cls)
      case Quest => s != [] && s[0] != '/' && MatchesAll(toks[1..], s[1..], cls)
      case Class(t) => s != [] && cls(t, s[0]) && MatchesAll(toks[1..], s[1..], cls)
      case Star => MatchesAll(toks[1..], s, cls) || (s != [] && s[0] != '/' && MatchesAll(toks, s[1..], cls))
      case DoubleStar => MatchesAll(toks[1..], s, cls) || (s != [] && s[0] != '\n' && MatchesAll(toks, s[1..], cls))
  }

  /** `re.match("^...$", path)`: `$` also accepts a path whose only leftover is a final newline. */
  predicate Matches(toks: seq<Token>, path: string, cls: (string, char) -> bool) {
    || MatchesAll(toks, path, cls)
    || (path != [] && path[|path| - 1] == '\n' && MatchesAll(toks, path[..|path| - 1], cls))
  }

  /** Text with no glob metacharacter. */
  predicate PlainText(s: string) {
    forall i :: 0 <= i < |s| ==> !IsSpecial(s[i])
  }

  /**
   * `_compile_root_anchored_glob(pattern).match(path)`. A pattern whose
   * body holds no glob character matches exactly that body, or the body
   * followed by a final newline.
   */
  predicate GlobMatches(pattern: string, path: string, cls: (string, char) -> bool): (m: bool)
    ensures PlainText(PatternBody(pattern)) ==>
      (m <==> path == PatternBody(pattern) || path == PatternBody(pattern) + "\n")
  {
    var body := PatternBody(pattern);
    if PlainText(body) then
      PlainPattern(body, path, cls);
      Matches(Tokenize(body), path, cls)
    else Matches(Tokenize(body), path, cls)
  }

  /** `*` takes any run of characters without "/", then the rest of the pattern must match what is left. */
  lemma {:induction false} StarSpan(rest: seq<Token>, s: string, cls: (string, char) -> bool)
    ensures MatchesAll([Star] + rest, s, cls) <==>
      exists k :: 0 <= k <= |s| && '/' !in s[..k] && MatchesAll(rest, s[k..], cls)
    decreases |s|
  {
    var toks := [Star] + rest;
    assert toks[1..] == rest;
    assert s[0..] == s && s[..0] == [];
    if s != [] {
      StarSpan(rest, s[1..], cls);
      if MatchesAll(toks, s, cls) && !MatchesAll(rest, s, cls) {
        var k :| 0 <= k <= |s[1..]| && '/' !in s[1..][..k] && MatchesAll(rest, s[1..][k..], cls);
        ShiftCut(s, k + 1);
      }
      if exists k :: 0 <= k <= |s| && '/' !in s[..k] && MatchesAll(rest, s[k..], cls) {
        var k :| 0 <= k <= |s| && '/' !in s[..k] && MatchesAll(rest, s[k..], cls);
        if k > 0 {
          ShiftCut(s, k);
        }
      }
    }
  }

  /** Cutting `s` at `k` is cutting its tail at `k - 1`. */
  lemma ShiftCut(s: string, k: nat)
    requires 0 < k <= |s|
    ensures s[..k] == [s[0]] + s[1..][..k - 1] && s[k..] == s[1..][k - 1..]
  {
  }

  /** `**` takes any run of characters without a newline, "/" included. */
  lemma {:induction false} DoubleStarSpan(rest: seq<Token>, s: string, cls: (string, char) -> bool)
    ensures MatchesAll([DoubleStar] + rest, s, cls) <==>
      exists k :: 0 <= k <= |s| && '\n' !in s[..k] && MatchesAll(rest, s[k..], cls)
    decreases |s|
  {
    var toks := [DoubleStar] + rest;
    assert toks[1..] == rest;
    assert s[0..] == s && s[..0] == [];
    if s != [] {
      DoubleStarSpan(rest, s[1..], cls);
      if MatchesAll(toks, s, cls) && !MatchesAll(rest, s, cls) {
        var k :| 0 <= k <= |s[1..]| && '\n' !in s[1..][..k] && MatchesAll(rest, s[1..][k..], cls);
        ShiftCut(s, k + 1);
      }
      if exists k :: 0 <= k <= |s| && '\n' !in s[..k] && MatchesAll(rest, s[k..], cls) {
        var k :| 0 <= k <= |s| && '\n' !in s[..k] && MatchesAll(rest, s[k..], cls);
        if k > 0 {
          ShiftCut(s, k);
        }
      }
    }
  }

  /** What each wildcard alone accepts: `*` a segment, `**` anything on one line, `?` one character other than "/". */
  lemma Wildcards(s: string, cls: (string, char) -> bool)
    ensures MatchesAll([Star], s, cls) <==> '/' !in s
    ensures MatchesAll([DoubleStar], s, cls) <==> '\n' !in s
    ensures MatchesAll([Quest], s, cls) <==> |s| == 1 && s[0] != '/'
  {
    StarSpan([], s, cls);
    DoubleStarSpan([], s, cls);
    assert [Star] + [] == [Star] && [DoubleStar] + [] == [DoubleStar];
    if '/' !in s {
      assert s[..|s|] == s && s[|s|..] == [];
    }
    if '\n' !in s {
      assert s[..|s|] == s && s[|s|..] == [];
    }
  }

  /** Literal tokens followed by more tokens match exactly the literal text followed by what the rest matches. */
  lemma {:induction false} LitsThen(lit: string, rest: seq<Token>, s: string, cls: (string, char) -> bool)
    ensures MatchesAll(Lits(lit) + rest, s, cls) <==> StartsWith(s, lit) && MatchesAll(rest, s[|lit|..], cls)
    decreases |lit|
  {
    if lit != [] {
      var toks := Lits(lit) + rest;
      assert toks[0] == Lit(lit[0]);
      assert toks[1..] == Lits(lit[1..]) + rest;
      if s != [] {
        LitsThen(lit[1..], rest, s[1..], cls);
        if |lit| <= |s| {
          assert s[..|lit|] == [s[0]] + s[1..][..|lit| - 1];
          assert s[1..][|lit| - 1..] == s[|lit|..];
        }
      }
    } else {
      assert Lits(lit) + rest == rest;
    }
  }

  /**
   * A pattern with no wildcard or bracket matches its own text and nothing
   * else, except the same text followed by one newline.
   */
  lemma PlainPattern(p: string, path: string, cls: (string, char) -> bool)
    requires forall i :: 0 <= i < |p| ==> !IsSpecial(p[i])
    ensures MatchesAll(Tokenize(p), path, cls) <==> path == p
    ensures Matches(Tokenize(p), path, cls) <==> path == p || path == p + "\n"
  {
    TokenizePlain(p);
    assert Lits(p) + [] == Lits(p);
    LitsThen(p, [], path, cls);
    if path != [] && path[|path| - 1] == '\n' {
      LitsThen(p, [], path[..|path| - 1], cls);
      if path == p + "\n" {
        assert path[..|path| - 1] == p;
      }
    }
    if StartsWith(path, p) && path[|p|..] == [] {
      assert path == path[..|p|];
    }
  }

  /** A clean pattern: no surrounding blanks and no leading "./" or "/". */
  predicate IsCleanPattern(q: string) {
    q != [] && !IsSpace(q[0]) && !IsSpace(q[|q| - 1]) && !StartsWith(q, "./") && !StartsWith(q, "/")
  }

  /** A clean pattern is compiled as written. */
  lemma PatternBodyClean(q: string)
    requires IsCleanPattern(q)
    ensures PatternBody(q) == q
  {
    StripKeeps(q);
  }

  /** A leading "./" on a clean pattern makes no difference. */
  lemma PatternBodyDotSlash(q: string)
    requires IsCleanPattern(q)
    ensures PatternBody("./" + q) == q
  {
    var p := "./" + q;
    StripKeeps(p);
    assert StartsWith(p, "./");
    assert p[2..] == q;
  }

  /** A leading "/" on a clean pattern makes no difference. */
  lemma PatternBodySlash(q: string)
    requires IsCleanPattern(q)
    ensures PatternBody("/" + q) == q
  {
    var p := "/" + q;
    StripKeeps(p);
    assert !StartsWith(p, "./");
    assert p[1..] == q;
  }

  /** A literal folder followed by "/" and a double star admits every path below that folder on one line. */
  lemma FolderGlob(dir: string, rest: string, cls: (string, char) -> bool)
    requires forall i :: 0 <= i < |dir| ==> !IsSpecial(dir[i])
    requires '\n' !in rest
    ensures MatchesAll(Tokenize(dir + "/**"), dir + "/" + rest, cls)
  {
    var lit := dir + "/";
    assert dir + "/**" == lit + "**";
    TokenizeThen(lit, "**");
    assert Tokenize("**") == [DoubleStar] + Tokenize([]) by {
      assert "**"[2..] == [];
    }
    assert Tokenize("**") == [DoubleStar];
    var s := dir + "/" + rest;
    LitsThen(lit, [DoubleStar], s, cls);
    assert s[..|lit|] == lit && s[|lit|..] == rest;
    DoubleStarSpan([], rest, cls);
    assert [DoubleStar] + [] == [DoubleStar];
    assert rest[..|rest|] == rest && rest[|rest|..] == [];
  }

  /** Tokenizing a plain prefix and then the rest. */
  lemma {:induction false} TokenizeThen(lit: string, s: string)
    requires forall i :: 0 <= i < |lit| ==> !IsSpecial(lit[i])
    ensures Tokenize(lit + s) == Lits(lit) + Tokenize(s)
    decreases |lit|
  {
    if lit != [] {
      var c, tail := lit[0], lit[1..];
      TokenizeThen(tail, s);
      assert lit + s == [c] + (tail + s);
      TokenizeLitHead(c, tail + s);
      assert Lits(lit) == [Lit(c)] + Lits(tail);
      assert [Lit(c)] + (Lits(tail) + Tokenize(s)) == [Lit(c)] + Lits(tail) + Tokenize(s);
    } else {
      assert lit + s == s;
    }
  }

  /** An ordinary character is one literal token. */
  lemma TokenizeLitHead(c: char, rest: string)
    requires !IsSpecial(c)
    ensures Tokenize([c] + rest) == [Lit(c)] + Tokenize(rest)
  {
    assert ([c] + rest)[1..] == rest;
  }
}
