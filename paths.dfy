/** Repository-relative paths: normalisation, `dirname`, and the chain of ancestor directories. */
module RepoPaths {
  import opened Wrappers
  import opened Strs

  /** Drops every leading "./". */
  function DropDotSlashes(p: string): (r: string)
    ensures !StartsWith(r, "./")
    ensures |r| <= |p| && r == p[|p| - |r|..]
  {
    if StartsWith(p, "./") then DropDotSlashes(p[2..]) else p
  }

  /**
   * `_normalize_repo_path`: backslashes become slashes, every leading "./"
   * goes, then one leading "/" goes.
   */
  function Normalize(p: string): (r: string)
    ensures '\\' !in r
    ensures |r| <= |p|
  {
    var p1 := ReplaceChar(p, '\\', '/');
    var p2 := DropDotSlashes(p1);
    assert '\\' !in p2 by {
      forall i | 0 <= i < |p2| ensures p2[i] != '\\' {
        assert p2[i] == p1[|p1| - |p2| + i];
      }
    }
    if StartsWith(p2, "/") then p2[1..] else p2
  }

  /** A redundant leading "./" makes no difference. */
  lemma NormalizeIgnoresDotSlash(p: string)
    ensures Normalize("./" + p) == Normalize(p)
  {
    var q := ReplaceChar("./" + p, '\\', '/');
    assert q == "./" + ReplaceChar(p, '\\', '/');
    assert StartsWith(q, "./") && q[2..] == ReplaceChar(p, '\\', '/');
  }

  /** Writing the separators as backslashes makes no difference. */
  lemma NormalizeIgnoresBackslashes(p: string)
    ensures Normalize(ReplaceChar(p, '/', '\\')) == Normalize(p)
  {
    assert ReplaceChar(ReplaceChar(p, '/', '\\'), '\\', '/') == ReplaceChar(p, '\\', '/');
  }

  /** A trailing "/" survives the dropping of leading "./", unless all that is left is ".". */
  lemma {:induction false} DropDotSlashesSlash(p: string)
    requires DropDotSlashes(p) != "."
    ensures DropDotSlashes(p + "/") == DropDotSlashes(p) + "/"
    decreases |p|
  {
    if StartsWith(p, "./") {
      DropDotSlashesSlash(p[2..]);
      DotSlashSlash(p);
    } else {
      NoDotSlashSlash(p);
    }
  }

  lemma DotSlashSlash(p: string)
    requires StartsWith(p, "./")
    ensures StartsWith(p + "/", "./") && (p + "/")[2..] == p[2..] + "/"
  {
    assert (p + "/")[..2] == p[..2];
  }

  lemma NoDotSlashSlash(p: string)
    requires !StartsWith(p, "./") && p != "."
    ensures !StartsWith(p + "/", "./")
  {
    var t := p + "/";
    if |p| == 1 {
      assert p == [p[0]] && p[0] != '.';
      assert t[0] == p[0];
    } else if |p| >= 2 {
      assert t[..2] == p[..2];
    }
  }

  /** Normalising a path with "/" appended appends "/" to its normal form, unless that form is "" or ".". */
  lemma NormalizeSlash(p: string)
    requires Normalize(p) != "" && Normalize(p) != "."
    ensures Normalize(p + "/") == Normalize(p) + "/"
  {
    var p1 := ReplaceChar(p, '\\', '/');
    var q := DropDotSlashes(p1);
    NormalizeSteps(p, q);
    ReplaceCharSnoc(p, '\\', '/', '/');
    DropDotSlashesSlash(p1);
    NormalizeSteps(p + "/", q + "/");
    UnrootSlash(q);
  }

  /** `Normalize` in two steps: `q` is the path once "\\" is replaced and leading "./" dropped. */
  lemma NormalizeSteps(p: string, q: string)
    requires q == DropDotSlashes(ReplaceChar(p, '\\', '/'))
    ensures Normalize(p) == if StartsWith(q, "/") then q[1..] else q
  {
  }

  /** Dropping one leading "/" commutes with appending "/", for text that is neither "", "/" nor ".". */
  lemma UnrootSlash(q: string)
    requires (if StartsWith(q, "/") then q[1..] else q) != ""
    requires (if StartsWith(q, "/") then q[1..] else q) != "."
    ensures q != "."
    ensures StartsWith(q + "/", "/") == StartsWith(q, "/")
    ensures StartsWith(q, "/") ==> (q + "/")[1..] == q[1..] + "/"
  {
    assert !StartsWith(".", "/") by { assert "."[..1] == "."; }
    assert q != [];
    assert (q + "/")[..1] == q[..1];
  }

  /** A path that is already in normal form is left alone. */
  lemma NormalizeKeepsCleanPath(p: string)
    requires '\\' !in p && !StartsWith(p, "./") && !StartsWith(p, "/")
    ensures Normalize(p) == p
  {
    assert ReplaceChar(p, '\\', '/') == p;
  }

  /** Normalisation is not idempotent: a leading "/./" leaves a "./" behind. */
  lemma NormalizeNotIdempotent(q: string)
    requires '\\' !in q && !StartsWith(q, "./") && !StartsWith(q, "/")
    ensures Normalize("/./" + q) == "./" + q && Normalize(Normalize("/./" + q)) == q
  {
    assert "/./" + q == "/" + ("./" + q);
    NormalizeRooted("./" + q);
    NormalizeIgnoresDotSlash(q);
    NormalizeKeepsCleanPath(q);
  }

  /** One leading "/" goes, and only one. */
  lemma NormalizeRooted(q: string)
    requires '\\' !in q
    ensures Normalize("/" + q) == q
  {
    var p := "/" + q;
    assert '\\' !in p;
    assert ReplaceChar(p, '\\', '/') == p;
    assert p[0] == '/';
    assert !StartsWith(p, "./");
    assert p[..1] == "/" && p[1..] == q;
  }

  predicate AllSlashes(s: string) { forall i :: 0 <= i < |s| ==> s[i] == '/' }

  /** `os.path.dirname` (POSIX): everything before the last "/", trailing slashes dropped unless that is all there is. */
  function Dirname(p: string): (r: string)
    ensures |r| <= |p| && r == p[..|r|]
    ensures '/' !in p ==> r == []
  {
    var i := match LastIndexOf(p, '/') case Some(k) => k + 1 case None => 0;
    var head := p[..i];
    if head != [] && !AllSlashes(head) then RStripChar(head, '/') else head
  }

  lemma {:induction false} LastIndexOfIs(s: string, c: char, i: nat)
    requires i < |s| && s[i] == c && c !in s[i + 1..]
    ensures LastIndexOf(s, c) == Some(i)
  {
    if i < |s| - 1 {
      assert s[|s| - 1] == s[i + 1..][|s| - 2 - i];
      var s' := s[..|s| - 1];
      assert s'[i + 1..] == s[i + 1..|s| - 1];
      LastIndexOfIs(s', c, i);
    }
  }

  /** The directory of `dir + "/" + name` is `dir`. */
  lemma DirnameOfChild(dir: string, name: string)
    requires dir != [] && dir[|dir| - 1] != '/' && '/' !in name
    ensures Dirname(dir + "/" + name) == dir
  {
    var p := dir + "/" + name;
    var k := |dir|;
    assert p[k] == '/' && p[k + 1..] == name;
    LastIndexOfIs(p, '/', k);
    var head := p[..k + 1];
    assert head == dir + "/";
    assert !AllSlashes(head) by { assert head[k - 1] == dir[k - 1]; }
    assert RStripChar(head, '/') == RStripChar(dir, '/');
    assert RStripChar(dir, '/') == dir;
  }

  /** `d` is `parent` itself or the part of `parent` before one of its "/". */
  predicate IsAncestorOf(d: string, parent: string) {
    d == parent || (|d| < |parent| && parent[|d|] == '/' && parent[..|d|] == d)
  }

  /**
   * `"/".join(segments[:k])` for k = 1 .. len(segments), with
   * `segments = parent.split("/")`: "a", "a/b", "a/b/c" for "a/b/c".
   */
  function Ancestors(parent: string): (r: seq<string>)
    ensures |r| == |Split(parent, '/')|
    ensures forall k {:trigger r[k]} :: 0 <= k < |r| ==> r[k] == Join(Split(parent, '/')[..k + 1], '/')
  {
    var segs := Split(parent, '/');
    seq(|segs|, k requires 0 <= k < |segs| => Join(segs[..k + 1], '/'))
  }

  /** The ancestor chain holds exactly the cuts of `parent` at a "/", and `parent` itself. */
  lemma AncestorsExactly(parent: string, d: string)
    ensures d in Ancestors(parent) <==> IsAncestorOf(d, parent)
  {
    var anc := Ancestors(parent);
    if d in anc {
      var k :| 0 <= k < |anc| && anc[k] == d;
      AncestorAt(parent, k);
    }
    if IsAncestorOf(d, parent) {
      AncestorListed(parent, d);
    }
  }

  /** Each entry of the chain is an ancestor. */
  lemma AncestorAt(parent: string, k: nat)
    requires k < |Ancestors(parent)|
    ensures IsAncestorOf(Ancestors(parent)[k], parent)
  {
    var segs := Split(parent, '/');
    var d := Ancestors(parent)[k];
    if k + 1 < |segs| {
      JoinAt(segs, k + 1, '/');
      assert parent == d + "/" + Join(segs[k + 1..], '/');
      assert parent[..|d|] == d && parent[|d|] == '/';
    } else {
      assert segs[..k + 1] == segs;
    }
  }

  /** Each ancestor is an entry of the chain. */
  lemma AncestorListed(parent: string, d: string)
    requires IsAncestorOf(d, parent)
    ensures d in Ancestors(parent)
  {
    var segs := Split(parent, '/');
    var anc := Ancestors(parent);
    if d == parent {
      assert segs[..|segs|] == segs;
      assert anc[|segs| - 1] == d;
    } else {
      var rest := parent[|d| + 1..];
      assert parent == d + "/" + rest;
      SplitAppend(d, rest, '/');
      var k := |Split(d, '/')|;
      assert segs[..k] == Split(d, '/');
      assert anc[k - 1] == d;
    }
  }

  /**
   * The directories a file in `parent` lives under: the ancestor chain of
   * `parent`, or nothing for a file at the repository root.
   */
  function DirsUnder(parent: string): (r: seq<string>)
    ensures parent in {"", "."} ==> r == []
  {
    if parent in {"", "."} then [] else Ancestors(parent)
  }

  /** Membership in `DirsUnder`, stated without split and join. */
  lemma DirsUnderExactly(parent: string, d: string)
    ensures d in DirsUnder(parent) <==> parent !in {"", "."} && IsAncestorOf(d, parent)
  {
    AncestorsExactly(parent, d);
  }
}
