/**
 * The small part of Python's string library the validator leans on:
 * whitespace stripping, prefix tests, substring search, splitting and
 * joining, ASCII lower-casing and decimal integers.
 */
module Strs {
  import opened Wrappers

  /** Python's `str.isspace()` for a single character. */
  predicate IsSpace(c: char) {
    || c == ' ' || c == '\t' || c == '\n' || c == '\r' || c == '\U{0B}' || c == '\U{0C}'
    || ('\U{1C}' <= c <= '\U{1F}') || c == '\U{85}' || c == '\U{A0}' || c == '\U{1680}'
    || ('\U{2000}' <= c <= '\U{200A}') || c == '\U{2028}' || c == '\U{2029}'
    || c == '\U{202F}' || c == '\U{205F}' || c == '\U{3000}'
  }

  predicate IsDigit(c: char) { '0' <= c <= '9' }

  predicate StartsWith(s: string, p: string) { |p| <= |s| && s[..|p|] == p }

  predicate EndsWith(s: string, p: string) { |p| <= |s| && s[|s| - |p|..] == p }

  /** `s.lstrip()`: drops leading whitespace. */
  function LStrip(s: string): (r: string)
    ensures |r| <= |s|
    ensures r == [] || !IsSpace(r[0])
  {
    if s != [] && IsSpace(s[0]) then LStrip(s[1..]) else s
  }

  /** `s.rstrip()`: drops trailing whitespace. */
  function RStrip(s: string): (r: string)
    ensures |r| <= |s|
    ensures r == [] || !IsSpace(r[|r| - 1])
  {
    if s != [] && IsSpace(s[|s| - 1]) then RStrip(s[..|s| - 1]) else s
  }

  /**
   * `s.strip()`: the infix of `s` left once the leading and the trailing
   * whitespace runs are dropped.
   */
  function Strip(s: string): (r: string)
    ensures |r| <= |s|
    ensures r == [] || (!IsSpace(r[0]) && !IsSpace(r[|r| - 1]))
    ensures s != [] && !IsSpace(s[0]) && !IsSpace(s[|s| - 1]) ==> r == s
  {
    RStripDrops(LStrip(s));
    RStrip(LStrip(s))
  }

  predicate AllSpace(w: string) { forall i :: 0 <= i < |w| ==> IsSpace(w[i]) }

  /** `lstrip` keeps a suffix of its input and drops only whitespace. */
  lemma {:induction false} LStripDrops(s: string)
    ensures var r := LStrip(s); r == s[|s| - |r|..] && AllSpace(s[..|s| - |r|])
  {
    if s != [] && IsSpace(s[0]) {
      LStripDrops(s[1..]);
      var r := LStrip(s);
      assert s[1..][|s| - 1 - |r|..] == s[|s| - |r|..];
      assert s[..|s| - |r|] == [s[0]] + s[1..][..|s| - 1 - |r|];
    } else {
      assert s[..0] == [];
    }
  }

  /** `rstrip` keeps a prefix of its input and drops only whitespace. */
  lemma {:induction false} RStripDrops(s: string)
    ensures var r := RStrip(s); r == s[..|r|] && AllSpace(s[|r|..])
  {
    if s != [] && IsSpace(s[|s| - 1]) {
      var u := s[..|s| - 1];
      RStripDrops(u);
      var r := RStrip(s);
      assert u[..|r|] == s[..|r|];
      assert s[|r|..] == u[|r|..] + [s[|s| - 1]];
    } else {
      assert s[|s|..] == [];
    }
  }

  /**
   * `strip` keeps the infix of its input that starts after the leading
   * whitespace run, and everything around it is whitespace.
   */
  lemma StripInfix(s: string)
    ensures var a, r := |s| - |LStrip(s)|, Strip(s);
      a + |r| <= |s| && r == s[a..a + |r|] && AllSpace(s[..a]) && AllSpace(s[a + |r|..])
  {
    var l := LStrip(s);
    var a := |s| - |l|;
    var r := RStrip(l);
    assert l == s[a..] by { LStripDrops(s); }
    assert r == l[..|r|] by { RStripDrops(l); }
    assert r == s[a..a + |r|];
    assert AllSpace(s[..a]) by { LStripDrops(s); }
    assert AllSpace(s[a + |r|..]) by {
      RStripDrops(l);
      assert s[a + |r|..] == l[|r|..];
    }
  }

  /** `lstrip` passes over a whitespace prefix. */
  lemma {:induction false} LStripSkips(w: string, u: string)
    requires AllSpace(w)
    ensures LStrip(w + u) == LStrip(u)
  {
    if w != [] {
      assert (w + u)[0] == w[0];
      assert (w + u)[1..] == w[1..] + u;
      LStripSkips(w[1..], u);
    } else {
      assert w + u == u;
    }
  }

  /** `rstrip` passes over a whitespace suffix. */
  lemma {:induction false} RStripSkips(u: string, w: string)
    requires AllSpace(w)
    ensures RStrip(u + w) == RStrip(u)
  {
    if w != [] {
      var v := u + w;
      assert v[|v| - 1] == w[|w| - 1];
      assert v[..|v| - 1] == u + w[..|w| - 1];
      RStripSkips(u, w[..|w| - 1]);
    } else {
      assert u + w == u;
    }
  }

  /** Stripping removes exactly the whitespace around a text that has none at its ends. */
  lemma StripExactly(w1: string, t: string, w2: string)
    requires AllSpace(w1) && AllSpace(w2)
    requires t == [] || (!IsSpace(t[0]) && !IsSpace(t[|t| - 1]))
    ensures Strip(w1 + t + w2) == t
  {
    assert w1 + t + w2 == w1 + (t + w2);
    LStripSkips(w1, t + w2);
    if t == [] {
      assert t + w2 == w2 + [];
      LStripSkips(w2, []);
    } else {
      assert (t + w2)[0] == t[0];
      RStripSkips(t, w2);
    }
  }

  /** `s.lstrip(c)`: drops leading copies of one character. */
  function LStripChar(s: string, c: char): (r: string)
    ensures |r| <= |s|
    ensures r == [] || r[0] != c
  {
    if s != [] && s[0] == c then LStripChar(s[1..], c) else s
  }

  /** `lstrip(c)` keeps a suffix of its input and drops only copies of `c`. */
  lemma {:induction false} LStripCharDrops(s: string, c: char)
    ensures var r := LStripChar(s, c); r == s[|s| - |r|..] && forall i :: 0 <= i < |s| - |r| ==> s[i] == c
  {
    if s != [] && s[0] == c {
      LStripCharDrops(s[1..], c);
      var r := LStripChar(s, c);
      assert s[1..][|s| - 1 - |r|..] == s[|s| - |r|..];
      forall i | 0 <= i < |s| - |r| ensures s[i] == c {
        if i > 0 {
          assert s[1..][i - 1] == s[i];
        }
      }
    }
  }

  /** `s.rstrip(c)`: drops trailing copies of one character. */
  function RStripChar(s: string, c: char): (r: string)
    ensures |r| <= |s| && r == s[..|r|]
    ensures r == [] || r[|r| - 1] != c
    ensures forall i :: |r| <= i < |s| ==> s[i] == c
  {
    if s != [] && s[|s| - 1] == c then RStripChar(s[..|s| - 1], c) else s
  }

  /** `s[1:-1]` with Python's slice clamping: a string shorter than two gives "". */
  function Inner(s: string): (r: string)
    ensures |s| >= 2 ==> r == s[1..|s| - 1]
    ensures |s| < 2 ==> r == []
  {
    if |s| >= 2 then s[1..|s| - 1] else []
  }

  /** Cutting the first and the last character undoes wrapping text in a pair of quotes or brackets. */
  lemma InnerOfWrapped(open: char, t: string, close: char)
    ensures Inner([open] + t + [close]) == t
  {
    assert ([open] + t + [close])[1..|t| + 1] == t;
  }

  /** `t` occurs in `s` starting at index `j`. */
  predicate OccursAt(s: string, t: string, j: nat) {
    j + |t| <= |s| && s[j..j + |t|] == t
  }

  /** The first index at which `t` occurs in `s`, as `s.find(t)`. */
  function Find(s: string, t: string): (r: Option<nat>)
    ensures r.Some? ==> OccursAt(s, t, r.value)
    ensures r.Some? ==> forall j: nat :: j < r.value ==> !OccursAt(s, t, j)
    ensures r.None? ==> forall j: nat :: !OccursAt(s, t, j)
  {
    if StartsWith(s, t) then Some(0)
    else if s == [] then None
    else
      var tail := s[1..];
      assert forall j: nat :: OccursAt(s, t, j + 1) == OccursAt(tail, t, j) by {
        forall j: nat ensures OccursAt(s, t, j + 1) == OccursAt(tail, t, j) {
          if j + 1 + |t| <= |s| {
            var a, b := s[j + 1..j + 1 + |t|], tail[j..j + |t|];
            assert forall k :: 0 <= k < |t| ==> a[k] == b[k];
            assert a == b;
          }
        }
      }
      assert forall j: nat :: j > 0 ==> OccursAt(s, t, j) == OccursAt(tail, t, j - 1) by {
        forall j: nat | j > 0 ensures OccursAt(s, t, j) == OccursAt(tail, t, j - 1) {
          assert OccursAt(s, t, (j - 1) + 1) == OccursAt(tail, t, j - 1);
        }
      }
      match Find(tail, t)
      case None => None
      case Some(k) => Some(k + 1)
  }

  /** Python's `t in s` for strings. */
  predicate Contains(s: string, t: string) { Find(s, t).Some? }

  /** Python's `s.split(sep, 1)` when `sep in s`; `None` when it is not. */
  function SplitOnce(s: string, sep: string): (r: Option<(string, string)>)
    requires sep != []
    ensures r.Some? <==> Contains(s, sep)
    ensures r.Some? ==> s == r.value.0 + sep + r.value.1 && !Contains(r.value.0, sep)
  {
    match Find(s, sep)
    case None => None
    case Some(i) =>
      var head := s[..i];
      assert s == head + sep + s[i + |sep|..];
      assert forall j: nat :: OccursAt(head, sep, j) ==> OccursAt(s, sep, j) by {
        forall j: nat | OccursAt(head, sep, j) ensures OccursAt(s, sep, j) {
          assert head[j..j + |sep|] == s[j..j + |sep|];
        }
      }
      Some((head, s[i + |sep|..]))
  }

  /** The first index holding `c`, as `s.index(c)` when `c in s`. */
  function IndexOf(s: string, c: char): (k: nat)
    requires c in s
    ensures k < |s| && s[k] == c && c !in s[..k]
  {
    if s[0] == c then 0
    else
      assert c in s[1..] by { var j :| 0 <= j < |s| && s[j] == c; assert s[1..][j - 1] == c; }
      var k := IndexOf(s[1..], c) + 1;
      assert s[..k] == [s[0]] + s[1..][..k - 1];
      k
  }

  /** `s.split(c, 1)` for a one-character separator that occurs in `s`. */
  function SplitAt(s: string, c: char): (r: (string, string))
    requires c in s
    ensures s == r.0 + [c] + r.1 && c !in r.0
  {
    var k := IndexOf(s, c);
    assert s == s[..k] + [c] + s[k + 1..];
    (s[..k], s[k + 1..])
  }

  lemma IndexOfIs(s: string, c: char, k: nat)
    requires k < |s| && s[k] == c && forall j :: 0 <= j < k ==> s[j] != c
    ensures IndexOf(s, c) == k
  {
    var k' := IndexOf(s, c);
    assert forall j :: 0 <= j < k' ==> s[..k'][j] == s[j];
  }

  /** The split lands on the first separator. */
  lemma SplitAtFirst(a: string, b: string, c: char)
    requires c !in a
    ensures c in a + [c] + b && SplitAt(a + [c] + b, c) == (a, b)
  {
    var s := a + [c] + b;
    assert s[|a|] == c;
    assert forall j :: 0 <= j < |a| ==> s[j] == a[j];
    IndexOfIs(s, c, |a|);
    assert s[..|a|] == a && s[|a| + 1..] == b;
  }

  /** Splitting at the first separator when the head holds none. */
  lemma SplitOnceAt(a: string, b: string, c: char)
    requires c !in a
    ensures SplitOnce(a + [c] + b, [c]) == Some((a, b))
  {
    var s := a + [c] + b;
    assert OccursAt(s, [c], |a|) by { assert s[|a|..|a| + 1] == [c]; }
    assert forall j: nat :: j < |a| ==> !OccursAt(s, [c], j) by {
      forall j: nat | j < |a| ensures !OccursAt(s, [c], j) {
        assert s[j..j + 1][0] == a[j];
      }
    }
    assert Find(s, [c]) == Some(|a|);
    assert s[..|a|] == a && s[|a| + 1..] == b;
  }

  /** A string with no whitespace at either end is its own strip. */
  lemma StripKeeps(s: string)
    requires s != [] && !IsSpace(s[0]) && !IsSpace(s[|s| - 1])
    ensures Strip(s) == s
  {
  }

  /** Stripping a string padded with one leading blank. */
  lemma StripPadded(s: string)
    requires s != [] && !IsSpace(s[0]) && !IsSpace(s[|s| - 1])
    ensures Strip(" " + s) == s
  {
    assert (" " + s)[1..] == s;
    assert LStrip(s) == s;
  }

  /** Stripping a string that starts with one whitespace character. */
  lemma StripAfterBlank(c: char, s: string)
    requires IsSpace(c) && s != [] && !IsSpace(s[0]) && !IsSpace(s[|s| - 1])
    ensures Strip([c] + s) == s
  {
    assert ([c] + s)[1..] == s;
    assert LStrip(s) == s;
  }

  lemma AppendEmpty<T>(a: seq<T>)
    ensures a + [] == a
  {
  }

  lemma AppendAssoc<T>(a: seq<T>, b: seq<T>, c: seq<T>)
    ensures (a + b) + c == a + (b + c)
  {
  }

  lemma DropLastAppend<T>(s: seq<T>)
    requires s != []
    ensures s[..|s| - 1] + [s[|s| - 1]] == s
  {
  }

  /** A witness in a non-empty `xs` is its head or lies in its tail. */
  lemma HeadOrTail<T>(xs: seq<T>, p: T -> bool)
    requires xs != []
    ensures (exists k :: 0 <= k < |xs| && p(xs[k])) <==> p(xs[0]) || exists k :: 0 <= k < |xs[1..]| && p(xs[1..][k])
  {
    if exists k :: 0 <= k < |xs| && p(xs[k]) {
      var k :| 0 <= k < |xs| && p(xs[k]);
      if k > 0 {
        assert xs[1..][k - 1] == xs[k];
      }
    }
  }

  /** A witness in `xs` lies in its first `n` elements or is the last one. */
  lemma PrefixWitness<T>(xs: seq<T>, n: nat, p: T -> bool)
    requires n + 1 == |xs|
    ensures (exists k :: 0 <= k < |xs| && p(xs[k])) <==> (exists k :: 0 <= k < n && p(xs[..n][k])) || p(xs[n])
  {
    if exists k :: 0 <= k < |xs| && p(xs[k]) {
      var k :| 0 <= k < |xs| && p(xs[k]);
      if k < n {
        assert xs[..n][k] == xs[k];
      }
    }
  }

  /** Python's `s.split(c)` for a one-character separator. */
  function Split(s: string, c: char): (r: seq<string>)
    ensures |r| >= 1
    ensures forall i :: 0 <= i < |r| ==> c !in r[i]
    ensures Join(r, c) == s
  {
    if s == [] then [[]]
    else
      var rest := Split(s[1..], c);
      if s[0] == c then [[]] + rest
      else [[s[0]] + rest[0]] + rest[1..]
  }

  /** No part of a split is longer than the whole. */
  lemma {:induction false} SplitPartsShorter(s: string, c: char)
    ensures forall i :: 0 <= i < |Split(s, c)| ==> |Split(s, c)[i]| <= |s|
  {
    if s != [] {
      SplitPartsShorter(s[1..], c);
    }
  }

  /** Python's `c.join(parts)` for a non-empty list of parts. */
  function Join(parts: seq<string>, c: char): string
    requires |parts| >= 1
  {
    if |parts| == 1 then parts[0] else parts[0] + [c] + Join(parts[1..], c)
  }

  /** Splitting undoes joining when no part holds the separator. */
  lemma {:induction false} SplitJoin(parts: seq<string>, c: char)
    requires |parts| >= 1
    requires forall i :: 0 <= i < |parts| ==> c !in parts[i]
    ensures Split(Join(parts, c), c) == parts
  {
    if |parts| == 1 {
      SplitNoSeparator(parts[0], c);
    } else {
      SplitJoin(parts[1..], c);
      SplitCons(parts[0], Join(parts[1..], c), c);
    }
  }

  lemma {:induction false} SplitNoSeparator(s: string, c: char)
    requires c !in s
    ensures Split(s, c) == [s]
  {
    if s != [] {
      SplitNoSeparator(s[1..], c);
    }
  }

  lemma {:induction false} SplitCons(a: string, b: string, c: char)
    requires c !in a
    ensures Split(a + [c] + b, c) == [a] + Split(b, c)
  {
    if a == [] {
      assert a + [c] + b == [c] + b;
      assert ([c] + b)[1..] == b;
    } else {
      assert (a + [c] + b)[0] == a[0];
      assert (a + [c] + b)[1..] == a[1..] + [c] + b;
      SplitCons(a[1..], b, c);
      assert [a[0]] + a[1..] == a;
    }
  }

  /** Splitting at one separator splits each side independently. */
  lemma {:induction false} SplitAppend(a: string, b: string, c: char)
    ensures Split(a + [c] + b, c) == Split(a, c) + Split(b, c)
  {
    var s := a + [c] + b;
    if a == [] {
      assert s == [c] + b;
      assert s[1..] == b;
    } else {
      var t := a[1..];
      assert s[0] == a[0];
      assert s[1..] == t + [c] + b;
      SplitAppend(t, b, c);
      if a[0] != c {
        ExtendFirstPart([a[0]], Split(t, c), Split(b, c));
      }
    }
  }

  /** Growing the first part of a list of parts commutes with appending more parts. */
  lemma ExtendFirstPart<T>(x: seq<T>, ra: seq<seq<T>>, rb: seq<seq<T>>)
    requires ra != []
    ensures [x + (ra + rb)[0]] + (ra + rb)[1..] == ([x + ra[0]] + ra[1..]) + rb
  {
    assert (ra + rb)[0] == ra[0];
    assert (ra + rb)[1..] == ra[1..] + rb;
  }

  /** Joining splits back at any boundary between parts. */
  lemma {:induction false} JoinAt(parts: seq<string>, k: nat, c: char)
    requires 1 <= k < |parts|
    ensures Join(parts, c) == Join(parts[..k], c) + [c] + Join(parts[k..], c)
  {
    if k > 1 {
      JoinAt(parts[1..], k - 1, c);
      assert parts[1..][..k - 1] == parts[..k][1..];
      assert parts[1..][k - 1..] == parts[k..];
    }
  }

  /** The last index holding `c`, as `s.rfind(c)`. */
  function LastIndexOf(s: string, c: char): (r: Option<nat>)
    ensures r.Some? ==> r.value < |s| && s[r.value] == c && c !in s[r.value + 1..]
    ensures r.None? ==> c !in s
  {
    if s == [] then None
    else if s[|s| - 1] == c then Some(|s| - 1)
    else
      var r := LastIndexOf(s[..|s| - 1], c);
      assert s == s[..|s| - 1] + [s[|s| - 1]];
      r
  }

  lemma ReplaceCharSnoc(s: string, a: char, b: char, c: char)
    requires c != a
    ensures ReplaceChar(s + [c], a, b) == ReplaceChar(s, a, b) + [c]
  {
    var l, r := ReplaceChar(s + [c], a, b), ReplaceChar(s, a, b) + [c];
    assert |l| == |r|;
    forall i | 0 <= i < |l| ensures l[i] == r[i] {
      if i < |s| { assert (s + [c])[i] == s[i]; }
    }
  }

  /** Python's `str.lower()` restricted to the ASCII letters. */
  function Lower(s: string): (r: string)
    ensures |r| == |s|
    ensures forall i :: 0 <= i < |s| ==> r[i] == LowerChar(s[i])
  {
    seq(|s|, i requires 0 <= i < |s| => LowerChar(s[i]))
  }

  function LowerChar(c: char): char {
    if 'A' <= c <= 'Z' then (c as int - 'A' as int + 'a' as int) as char else c
  }

  predicate NoUpper(s: string) {
    forall i :: 0 <= i < |s| ==> !('A' <= s[i] <= 'Z')
  }

  /**
   * Lower-casing leaves no capital letter, so a second pass changes
   * nothing, and text without capitals is its own lower case.
   */
  lemma LowerFolds(s: string)
    ensures NoUpper(Lower(s))
    ensures Lower(Lower(s)) == Lower(s)
    ensures NoUpper(s) ==> Lower(s) == s
  {
  }

  /** `s.replace(a, b)` for single characters. */
  function ReplaceChar(s: string, a: char, b: char): (r: string)
    ensures |r| == |s|
    ensures forall i :: 0 <= i < |s| ==> r[i] == (if s[i] == a then b else s[i])
  {
    if s == [] then [] else [if s[0] == a then b else s[0]] + ReplaceChar(s[1..], a, b)
  }

  function DigitChar(d: nat): (c: char)
    requires d < 10
    ensures IsDigit(c)
  {
    ('0' as int + d) as char
  }

  function DigitValue(c: char): (d: nat)
    requires IsDigit(c)
    ensures d < 10 && DigitChar(d) == c
  {
    c as int - '0' as int
  }

  predicate AllDigits(s: string) { forall i :: 0 <= i < |s| ==> IsDigit(s[i]) }

  /** The value of a string of decimal digits. */
  function DecValue(s: string): nat
    requires AllDigits(s)
  {
    if s == [] then 0 else 10 * DecValue(s[..|s| - 1]) + DigitValue(s[|s| - 1])
  }

  /** Python's `str(n)` for a natural number. */
  function NatToDec(n: nat): (r: string)
    ensures |r| >= 1 && AllDigits(r)
    ensures DecValue(r) == n
  {
    if n < 10 then
      [DigitChar(n)]
    else
      var r := NatToDec(n / 10) + [DigitChar(n % 10)];
      assert r[..|r| - 1] == NatToDec(n / 10);
      r
  }

  /** Python's `str(i)` for an integer. */
  function IntToDec(i: int): (r: string)
    ensures r != []
  {
    if i < 0 then "-" + NatToDec(-i) else NatToDec(i)
  }

  /** `re.fullmatch(r"-?[0-9]+", v)`. */
  predicate IsIntLiteral(v: string) {
    if v != [] && v[0] == '-' then |v| >= 2 && AllDigits(v[1..]) else v != [] && AllDigits(v)
  }

  /** `int(v)` for a string that `IsIntLiteral` accepts. */
  function IntLiteralValue(v: string): int
    requires IsIntLiteral(v)
  {
    if v[0] == '-' then -(DecValue(v[1..]) as int) else DecValue(v)
  }

  /** Decimal text of an integer is an integer literal of the same value. */
  lemma IntToDecLiteral(i: int)
    ensures IsIntLiteral(IntToDec(i)) && IntLiteralValue(IntToDec(i)) == i
  {
    if i < 0 {
      assert IntToDec(i)[1..] == NatToDec(-i);
    }
  }

  /** Decimal text of an integer has no whitespace to strip. */
  lemma IntToDecStripped(i: int)
    ensures Strip(IntToDec(i)) == IntToDec(i)
  {
    var t := IntToDec(i);
    IntToDecLiteral(i);
    assert IsDigit(t[|t| - 1]);
    assert !IsSpace(t[0]);
    StripKeeps(t);
  }

  /**
   * The digits part that Python's `int()` accepts for a string: digits,
   * with single underscores allowed between two digits.
   */
  predicate IsUnderscoredDigits(s: string) decreases |s| {
    && s != []
    && IsDigit(s[0])
    && (|s| == 1
        || (s[1] == '_' && |s| > 2 && IsUnderscoredDigits(s[2..]))
        || (s[1] != '_' && IsUnderscoredDigits(s[1..])))
  }

  function DropUnderscores(s: string): (r: string)
    requires IsUnderscoredDigits(s)
    ensures AllDigits(r)
    decreases |s|
  {
    if |s| == 1 then s
    else if s[1] == '_' then [s[0]] + DropUnderscores(s[2..])
    else [s[0]] + DropUnderscores(s[1..])
  }

  /**
   * Python's `int(s)` for a string: surrounding whitespace, an optional
   * sign and digits with single underscores; `None` where Python raises
   * `ValueError`.
   */
  function ParseIntText(s: string): Option<int> {
    ParseSigned(Strip(s))
  }

  /** `int()` on stripped text: an optional sign, then underscored digits. */
  function ParseSigned(t: string): Option<int> {
    if t != [] && (t[0] == '-' || t[0] == '+') then
      if IsUnderscoredDigits(t[1..]) then
        var n := DecValue(DropUnderscores(t[1..]));
        Some(if t[0] == '-' then -(n as int) else n)
      else None
    else if IsUnderscoredDigits(t) then Some(DecValue(DropUnderscores(t)))
    else None
  }

  /** `int()` reads a plain integer literal, `-?[0-9]+`, as its value. */
  lemma ParseSignedLiteral(t: string)
    requires IsIntLiteral(t)
    ensures ParseSigned(t) == Some(IntLiteralValue(t))
  {
    if t[0] == '-' {
      NoUnderscoresKept(t[1..]);
    } else {
      NoUnderscoresKept(t);
    }
  }

  lemma {:induction false} DigitsAreUnderscored(s: string)
    requires s != [] && AllDigits(s)
    ensures IsUnderscoredDigits(s)
  {
    if |s| > 1 {
      DigitsAreUnderscored(s[1..]);
    }
  }

  lemma {:induction false} NoUnderscoresKept(s: string)
    requires s != [] && AllDigits(s)
    ensures IsUnderscoredDigits(s) && DropUnderscores(s) == s
  {
    DigitsAreUnderscored(s);
    if |s| > 1 {
      NoUnderscoresKept(s[1..]);
    }
  }
}
