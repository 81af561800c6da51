/**
 * Change records from `git diff --name-status -z`: the NUL-token parse
 * loop, the ordering the validator sorts them by, the coding-stage union
 * of worktree, index and untracked changes, and the removal of the
 * validator's own report files.
 */
module Diff {
  import opened Wrappers
  import opened Strs
  import opened Ordering
  import opened RepoPaths

  /** `(change_type, path, extra_path)`: `extra` is the new path of a rename. */
  datatype Entry = Entry(change: string, path: string, extra: Option<string>)

  /** "Unexpected git diff -z format" and "Unexpected rename format". */
  datatype DiffError = BadFormat | BadRename

  // ------------------------------------------------------------- ordering

  predicate StrLt(a: string, b: string) { StrLeq(a, b) && a != b }

  /** Python's order on triples of strings. */
  predicate TripleLeq(a: (string, string, string), b: (string, string, string)) {
    || StrLt(a.0, b.0)
    || (a.0 == b.0 && (StrLt(a.1, b.1) || (a.1 == b.1 && StrLeq(a.2, b.2))))
  }

  lemma TripleLeqIsTotalOrder()
    ensures forall a, b, c :: TripleLeq(a, b) && TripleLeq(b, c) ==> TripleLeq(a, c)
    ensures forall a, b :: TripleLeq(a, b) || TripleLeq(b, a)
    ensures forall a, b :: TripleLeq(a, b) && TripleLeq(b, a) ==> a == b
  {
    StrOrderIsTotalOrder();
    assert forall x, y :: StrOrder()(x, y) == StrLeq(x, y);
  }

  /** The sort key of `_git_diff_name_status_z`: `(t[0], t[1], t[2] or "")`. */
  function Key(e: Entry): (string, string, string) {
    (e.change, e.path, e.extra.GetOr(""))
  }

  /** Ordering by `Key`; records that differ only in a missing versus empty extra path tie. */
  function KeyOrder(): (Entry, Entry) -> bool {
    (a: Entry, b: Entry) => TripleLeq(Key(a), Key(b))
  }

  lemma KeyOrderIsTotalPreorder()
    ensures TotalPreorder(KeyOrder())
  {
    TripleLeqIsTotalOrder();
  }

  /**
   * Python's own order on the tuples, as `sorted(mf) != sorted(df)` uses
   * it: `None` before any string in the third place. The two never meet
   * there, because the change type decides whether a record has one.
   */
  function FullKey(e: Entry): (string, string, string) {
    (e.change, e.path, match e.extra case None => "" case Some(s) => "+" + s)
  }

  function EntryOrder(): (Entry, Entry) -> bool {
    (a: Entry, b: Entry) => TripleLeq(FullKey(a), FullKey(b))
  }

  lemma EntryOrderIsTotalOrder()
    ensures TotalPreorder(EntryOrder()) && Antisymmetric(EntryOrder())
  {
    TripleLeqIsTotalOrder();
    forall a: Entry, b: Entry | FullKey(a) == FullKey(b) ensures a == b {
      if a.extra.Some? && b.extra.Some? {
        assert a.extra.value == ("+" + a.extra.value)[1..];
      }
    }
  }

  /** `sorted(es, key=...)` with the diff key; stable, as Python's sort is. */
  function SortByKey(es: seq<Entry>): (r: seq<Entry>)
    ensures SortedBy(r, KeyOrder()) && multiset(r) == multiset(es)
  {
    KeyOrderIsTotalPreorder();
    SortBy(es, KeyOrder())
  }

  /** `sorted(es)` on the tuples themselves. */
  function SortRecords(es: seq<Entry>): (r: seq<Entry>)
    ensures SortedBy(r, EntryOrder()) && multiset(r) == multiset(es)
  {
    EntryOrderIsTotalOrder();
    SortBy(es, EntryOrder())
  }

  /** `sorted(a) == sorted(b)` for lists of records exactly when they hold the same records, counted. */
  lemma SortedRecordsEqualIff(a: seq<Entry>, b: seq<Entry>)
    ensures SortRecords(a) == SortRecords(b) <==> multiset(a) == multiset(b)
  {
    EntryOrderIsTotalOrder();
    SortEqualIffPermutation(a, b, EntryOrder());
  }

  // ---------------------------------------------------------------- parse

  /**
   * The records of the NUL-separated tokens from index `i` on: an empty
   * token is skipped, a rename status takes two paths, any other status
   * one path, and a missing or empty path is a format error. Every record
   * has a one-letter status and carries a new path exactly when it is a
   * rename, and no record is made from fewer than two tokens.
   */
  function RecordsFrom(parts: seq<string>, i: nat): (r: Result<seq<Entry>, DiffError>)
    requires i <= |parts|
    ensures r.Ok? ==> |r.value| <= |parts| - i
    ensures r.Ok? ==> forall k :: 0 <= k < |r.value| ==> WellFormed(r.value[k])
    decreases |parts| - i
  {
    if i == |parts| then Ok([])
    else if parts[i] == "" then RecordsFrom(parts, i + 1)
    else if i + 1 >= |parts| then Err(BadFormat)
    else if parts[i][0] == 'R' then
      if i + 2 >= |parts| || parts[i + 1] == "" || parts[i + 2] == "" then Err(BadRename)
      else Prepend(Entry("R", Normalize(parts[i + 1]), Some(Normalize(parts[i + 2]))), RecordsFrom(parts, i + 3))
    else if parts[i + 1] == "" then Err(BadFormat)
    else Prepend(Entry([parts[i][0]], Normalize(parts[i + 1]), None), RecordsFrom(parts, i + 2))
  }

  /** A record as the parser makes it: a one-letter status, and a new path exactly for a rename. */
  predicate WellFormed(e: Entry) {
    |e.change| == 1 && (e.change == "R" <==> e.extra.Some?)
  }

  function Prepend(e: Entry, r: Result<seq<Entry>, DiffError>): (p: Result<seq<Entry>, DiffError>)
    ensures p.Ok? == r.Ok? && (p.Ok? ==> |p.value| == |r.value| + 1 && p.value[0] == e && p.value[1..] == r.value)
  {
    match r
    case Ok(es) => Ok([e] + es)
    case Err(err) => Err(err)
  }

  function PrependAll(es: seq<Entry>, r: Result<seq<Entry>, DiffError>): Result<seq<Entry>, DiffError> {
    match r
    case Ok(rest) => Ok(es + rest)
    case Err(err) => Err(err)
  }

  /** `_git_diff_name_status_z` on the raw output: the records, sorted by `Key`. */
  function Parsed(out: string): (r: Result<seq<Entry>, DiffError>)
    ensures r.Ok? ==> RecordsFrom(Split(out, '\0'), 0).Ok?
    ensures r.Ok? ==> SortedBy(r.value, KeyOrder())
    ensures r.Ok? ==> multiset(r.value) == multiset(RecordsFrom(Split(out, '\0'), 0).value)
    ensures r.Err? <==> RecordsFrom(Split(out, '\0'), 0).Err?
  {
    match RecordsFrom(Split(out, '\0'), 0)
    case Ok(es) => Ok(SortByKey(es))
    case Err(e) => Err(e)
  }

  /** The parse loop of `_git_diff_name_status_z`, then the sort. */
  method ParseNameStatusZ(out: string) returns (r: Result<seq<Entry>, DiffError>)
    ensures r == Parsed(out)
  {
    var parts := Split(out, '\0');
    var i := 0;
    var results: seq<Entry> := [];
    assert RecordsFrom(parts, 0) == PrependAll([], RecordsFrom(parts, 0)) by {
      match RecordsFrom(parts, 0)
      case Ok(es) => assert [] + es == es;
      case Err(_) =>
    }
    while i < |parts|
      invariant i <= |parts|
      invariant RecordsFrom(parts, 0) == PrependAll(results, RecordsFrom(parts, i))
      decreases |parts| - i
    {
      var status := parts[i];
      if status == "" {
        i := i + 1;
      } else {
        if i + 1 >= |parts| {
          return Err(BadFormat);
        }
        var change := status[0];
        if change == 'R' {
          if i + 2 >= |parts| {
            return Err(BadRename);
          }
          var oldPath := parts[i + 1];
          var newPath := parts[i + 2];
          if oldPath == "" || newPath == "" {
            return Err(BadRename);
          }
          var e := Entry("R", Normalize(oldPath), Some(Normalize(newPath)));
          PrependStep(results, e, RecordsFrom(parts, i + 3));
          results := results + [e];
          i := i + 3;
        } else {
          var path1 := parts[i + 1];
          if path1 == "" {
            return Err(BadFormat);
          }
          var e := Entry([change], Normalize(path1), None);
          PrependStep(results, e, RecordsFrom(parts, i + 2));
          results := results + [e];
          i := i + 2;
        }
      }
    }
    assert RecordsFrom(parts, 0) == Ok(results) by {
      assert results + [] == results;
    }
    r := Ok(SortByKey(results));
  }

  lemma PrependStep(done: seq<Entry>, e: Entry, r: Result<seq<Entry>, DiffError>)
    ensures PrependAll(done, Prepend(e, r)) == PrependAll(done + [e], r)
  {
    if r.Ok? {
      assert done + ([e] + r.value) == (done + [e]) + r.value;
    }
  }

  // ------------------------------------------------------------ round trip

  /** A path as git prints it and as the validator keeps it. */
  predicate CleanPath(p: string) {
    p != [] && '\0' !in p && '\\' !in p && !StartsWith(p, "./") && !StartsWith(p, "/")
  }

  /** A record `git diff --name-status -z` can print: a one-letter status, and a new path exactly for a rename. */
  predicate Printable(e: Entry) {
    && CleanPath(e.path)
    && (e.change == "R" ==> e.extra.Some? && CleanPath(e.extra.value))
    && (e.change != "R" ==> |e.change| == 1 && e.change[0] != 'R' && e.change[0] != '\0' && e.extra.None?)
  }

  predicate AllPrintable(es: seq<Entry>) {
    es == [] || (Printable(es[0]) && AllPrintable(es[1..]))
  }

  /** The tokens git prints for the records, with a similarity score after "R". */
  function Tokens(es: seq<Entry>): (r: seq<string>)
  {
    if es == [] then [] else TokensOf(es[0]) + Tokens(es[1..])
  }

  /** The raw output: every token followed by a NUL. */
  function Serialize(es: seq<Entry>): string {
    Join(Tokens(es) + [""], '\0')
  }

  lemma {:induction false} RecordsOfTokens(es: seq<Entry>, tail: seq<string>)
    requires AllPrintable(es)
    ensures RecordsFrom(Tokens(es) + tail, 0) == PrependAll(es, RecordsFrom(tail, 0))
  {
    if es == [] {
      assert Tokens(es) + tail == tail;
      PrependNone(RecordsFrom(tail, 0));
    } else {
      var e := es[0];
      var rest := Tokens(es[1..]) + tail;
      calc {
        RecordsFrom(Tokens(es) + tail, 0);
        { TokensCons(es, tail); }
        RecordsFrom(TokensOf(e) + rest, 0);
        { RecordsOfOne(e, rest); }
        Prepend(e, RecordsFrom(rest, 0));
        { RecordsOfTokens(es[1..], tail); }
        Prepend(e, PrependAll(es[1..], RecordsFrom(tail, 0)));
        { PrependAllCons(e, es[1..], RecordsFrom(tail, 0)); }
        PrependAll([e] + es[1..], RecordsFrom(tail, 0));
        { assert [e] + es[1..] == es; }
        PrependAll(es, RecordsFrom(tail, 0));
      }
    }
  }

  lemma TokensCons(es: seq<Entry>, tail: seq<string>)
    requires es != []
    ensures Tokens(es) + tail == TokensOf(es[0]) + (Tokens(es[1..]) + tail)
  {
    assert Tokens(es) == TokensOf(es[0]) + Tokens(es[1..]);
    AppendAssoc(TokensOf(es[0]), Tokens(es[1..]), tail);
  }

  lemma PrependAllCons(e: Entry, es: seq<Entry>, r: Result<seq<Entry>, DiffError>)
    ensures PrependAll([e] + es, r) == Prepend(e, PrependAll(es, r))
  {
    if r.Ok? {
      assert ([e] + es) + r.value == [e] + (es + r.value);
    }
  }

  /** The tokens of one record. */
  function TokensOf(e: Entry): seq<string> {
    if e.change == "R" then ["R100", e.path, e.extra.GetOr("")] else [e.change, e.path]
  }

  lemma RecordsOfOne(e: Entry, rest: seq<string>)
    requires Printable(e)
    ensures RecordsFrom(TokensOf(e) + rest, 0) == Prepend(e, RecordsFrom(rest, 0))
  {
    if e.change == "R" {
      RecordsOfRename(e, rest);
    } else {
      RecordsOfPlain(e, rest);
    }
  }

  lemma RecordsOfRename(e: Entry, rest: seq<string>)
    requires Printable(e) && e.change == "R"
    ensures RecordsFrom(TokensOf(e) + rest, 0) == Prepend(e, RecordsFrom(rest, 0))
  {
    RenameTokens(e, rest);
    RenameRecordAt(TokensOf(e) + rest, rest);
    NormalizeKeepsCleanPath(e.path);
    NormalizeKeepsCleanPath(e.extra.value);
  }

  /** The tokens git prints for a rename: a status starting with 'R', then the old and the new path. */
  lemma RenameTokens(e: Entry, rest: seq<string>)
    requires Printable(e) && e.change == "R"
    ensures var all := TokensOf(e) + rest;
      |all| >= 3 && all[3..] == rest && all[0] != "" && all[0][0] == 'R' && all[1] == e.path && all[2] == e.extra.value
  {
    var all := TokensOf(e) + rest;
    assert all[3..] == rest;
  }

  /** A rename status followed by two paths is one rename record. */
  lemma RenameRecordAt(all: seq<string>, rest: seq<string>)
    requires |all| >= 3 && all[3..] == rest
    requires all[0] != "" && all[0][0] == 'R' && all[1] != "" && all[2] != ""
    ensures RecordsFrom(all, 0) == Prepend(Entry("R", Normalize(all[1]), Some(Normalize(all[2]))), RecordsFrom(rest, 0))
  {
    RecordsShift(all, rest, 3);
  }

  lemma RecordsOfPlain(e: Entry, rest: seq<string>)
    requires Printable(e) && e.change != "R"
    ensures RecordsFrom(TokensOf(e) + rest, 0) == Prepend(e, RecordsFrom(rest, 0))
  {
    var all := TokensOf(e) + rest;
    NormalizeKeepsCleanPath(e.path);
    assert all[2..] == rest;
    assert all[0] == e.change && all[1] == e.path;
    assert [all[0][0]] == e.change;
    PlainRecordAt(all, rest);
  }

  /** Any other status followed by one path is one record of that status's first letter. */
  lemma PlainRecordAt(all: seq<string>, rest: seq<string>)
    requires |all| >= 2 && all[2..] == rest
    requires all[0] != "" && all[0][0] != 'R' && all[1] != ""
    ensures RecordsFrom(all, 0) == Prepend(Entry([all[0][0]], Normalize(all[1]), None), RecordsFrom(rest, 0))
  {
    RecordsShift(all, rest, 2);
  }

  lemma PrependNone(r: Result<seq<Entry>, DiffError>)
    ensures PrependAll([], r) == r
  {
    if r.Ok? {
      assert [] + r.value == r.value;
    }
  }

  lemma PrependAllAssoc(a: seq<Entry>, b: seq<Entry>, r: Result<seq<Entry>, DiffError>)
    ensures PrependAll(a, PrependAll(b, r)) == PrependAll(a + b, r)
  {
    if r.Ok? {
      assert a + (b + r.value) == (a + b) + r.value;
    }
  }

  /** Parsing from index `n` of `all` is parsing its suffix from the start. */
  lemma RecordsShift(all: seq<string>, rest: seq<string>, n: nat)
    requires n <= |all| && all[n..] == rest
    ensures RecordsFrom(all, n) == RecordsFrom(rest, 0)
  {
    assert rest[0..] == rest;
    RecordsSameSuffix(all, n, rest, 0);
  }

  /** The records read from position `i` depend only on the tokens from `i` on. */
  lemma {:induction false} RecordsSameSuffix(a: seq<string>, i: nat, b: seq<string>, j: nat)
    requires i <= |a| && j <= |b| && a[i..] == b[j..]
    ensures RecordsFrom(a, i) == RecordsFrom(b, j)
    decreases |a| - i
  {
    if i < |a| {
      assert a[i] == a[i..][0] == b[j..][0] == b[j];
      if a[i] == "" {
        assert a[i + 1..] == a[i..][1..] == b[j..][1..] == b[j + 1..];
        RecordsSameSuffix(a, i + 1, b, j + 1);
      } else if i + 1 < |a| {
        assert a[i + 1] == a[i..][1] == b[j..][1] == b[j + 1];
        if i + 2 < |a| {
          assert a[i + 2] == a[i..][2] == b[j..][2] == b[j + 2];
        }
        if a[i][0] == 'R' {
          if i + 3 <= |a| {
            assert a[i + 3..] == a[i..][3..] == b[j..][3..] == b[j + 3..];
            RecordsSameSuffix(a, i + 3, b, j + 3);
          }
        } else {
          assert a[i + 2..] == a[i..][2..] == b[j..][2..] == b[j + 2..];
          RecordsSameSuffix(a, i + 2, b, j + 2);
        }
      }
    }
  }

  /** Parsing what git prints for some records gives back those records, sorted. */
  lemma ParseSerialized(es: seq<Entry>)
    requires AllPrintable(es)
    ensures Parsed(Serialize(es)) == Ok(SortByKey(es))
  {
    var toks := Tokens(es) + [""];
    SerializedTokensClean(es);
    SplitJoin(toks, '\0');
    RecordsOfTokens(es, [""]);
    RecordsOfTerminator();
    AppendEmpty(es);
  }

  /** The tokens of printable records, and the empty token after the last NUL, hold no NUL. */
  lemma SerializedTokensClean(es: seq<Entry>)
    requires AllPrintable(es)
    ensures forall k :: 0 <= k < |Tokens(es) + [""]| ==> '\0' !in (Tokens(es) + [""])[k]
  {
    TokensClean(es);
    var toks := Tokens(es) + [""];
    forall k | 0 <= k < |toks| ensures '\0' !in toks[k] {
      if k < |Tokens(es)| {
        assert toks[k] == Tokens(es)[k];
      }
    }
  }

  /** The empty token after the final NUL ends the output without a record. */
  lemma RecordsOfTerminator()
    ensures RecordsFrom([""], 0) == Ok([])
  {
    assert RecordsFrom([""], 1) == Ok([]);
  }

  lemma {:induction false} TokensClean(es: seq<Entry>)
    requires AllPrintable(es)
    ensures forall k :: 0 <= k < |Tokens(es)| ==> '\0' !in Tokens(es)[k]
  {
    if es != [] {
      TokensClean(es[1..]);
      var h, t := TokensOf(es[0]), Tokens(es[1..]);
      assert forall k :: 0 <= k < |h| ==> '\0' !in h[k] by {
        if es[0].change != "R" {
          assert es[0].change == [es[0].change[0]];
        }
      }
      assert Tokens(es) == h + t;
      forall k | 0 <= k < |h + t| ensures '\0' !in (h + t)[k] {
        if k < |h| {
          assert (h + t)[k] == h[k];
        } else {
          assert (h + t)[k] == t[k - |h|];
        }
      }
    }
  }

  // ---------------------------------------------------- coding-stage union

  /**
   * `sorted(set(unstaged + staged + untracked), key=...)`: every record
   * once, ordered by `Key`. Records that tie on the key come out in an
   * order Python leaves to the set; here they keep their first appearance.
   */
  function Union(unstaged: seq<Entry>, staged: seq<Entry>, untracked: seq<string>): (r: seq<Entry>)
    ensures SortedBy(r, KeyOrder()) && NoDup(r)
    ensures forall e :: e in r <==> e in unstaged || e in staged || e in Untracked(untracked)
  {
    var all := unstaged + staged + Untracked(untracked);
    var d := Dedup(all);
    var r := SortByKey(d);
    NoDupPermutation(d, r);
    assert forall e :: e in r <==> e in Elems(d);
    r
  }

  /** `("A", p, None)` for each untracked file, its name normalised. */
  function Untracked(paths: seq<string>): (r: seq<Entry>)
    ensures |r| == |paths| && forall k :: 0 <= k < |r| ==> r[k] == Entry("A", Normalize(paths[k]), None)
  {
    seq(|paths|, k requires 0 <= k < |paths| => Entry("A", Normalize(paths[k]), None))
  }

  // --------------------------------------------------------- report filter

  /** The validator's own report files inside the active intent folder. */
  function ReportPaths(folder: string): set<string> {
    {".id-sdlc/intent/" + folder + "/validator-report.json", ".id-sdlc/intent/" + folder + "/validator-report.md"}
  }

  /** A record is dropped when its path, or for a rename either path, is ignored. */
  predicate Ignored(e: Entry, ignore: set<string>) {
    e.path in ignore || (e.change == "R" && e.extra.Some? && e.extra.value in ignore)
  }

  /** The records that are not ignored, in their order. */
  function Unignored(es: seq<Entry>, ignore: set<string>): (r: seq<Entry>)
    ensures |r| <= |es|
    ensures forall e :: e in r <==> e in es && !Ignored(e, ignore)
  {
    if es == [] then []
    else
      var rest := Unignored(es[1..], ignore);
      assert forall e :: e in es <==> e == es[0] || e in es[1..];
      if Ignored(es[0], ignore) then rest else [es[0]] + rest
  }

  /** The filter loop of `validate`. */
  method DropReports(es: seq<Entry>, ignore: set<string>) returns (kept: seq<Entry>)
    ensures kept == Unignored(es, ignore)
  {
    kept := [];
    var k := 0;
    while k < |es|
      invariant k <= |es|
      invariant kept + Unignored(es[k..], ignore) == Unignored(es, ignore)
      invariant k == |es| ==> es[k..] == []
      decreases |es| - k
    {
      var skip := IsDropped(es[k], ignore);
      UnignoredStep(es, k, ignore, kept);
      if !skip {
        kept := kept + [es[k]];
      }
      k := k + 1;
    }
    AppendEmpty(kept);
  }

  /** The test in the filter loop: a rename is dropped when either path is ignored. */
  method IsDropped(e: Entry, ignore: set<string>) returns (skip: bool)
    ensures skip == Ignored(e, ignore)
  {
    skip := if e.change == "R" then (e.extra.Some? && e.extra.value in ignore) || e.path in ignore else e.path in ignore;
  }

  /** One record of the filter: it joins the kept ones exactly when it is not ignored. */
  lemma UnignoredStep(es: seq<Entry>, k: nat, ignore: set<string>, kept: seq<Entry>)
    requires k < |es|
    ensures kept + Unignored(es[k..], ignore) ==
      (if Ignored(es[k], ignore) then kept else kept + [es[k]]) + Unignored(es[k + 1..], ignore)
  {
    assert es[k..][1..] == es[k + 1..];
    assert es[k..][0] == es[k];
  }

  /** "Rename diff entry missing new path": a rename whose new path is missing or empty. */
  predicate RenameWithoutNewPath(es: seq<Entry>) {
    exists k :: 0 <= k < |es| && es[k].change == "R" && (es[k].extra.None? || es[k].extra.value == "")
  }

  const RenameArrow: string := " -> "

  /**
   * The path a changed file is reported under: "old -> new" for a rename.
   * Splitting a rename's display at its first arrow gives back both paths,
   * provided no arrow starts inside the old path.
   */
  function DisplayPath(e: Entry): (d: string)
    ensures e.change != "R" ==> d == e.path
    ensures e.change == "R" && e.extra.Some? && !Contains(e.path + " ->", RenameArrow) ==>
      SplitOnce(d, RenameArrow) == Some((e.path, e.extra.value))
  {
    if e.change == "R" then
      if e.extra.Some? && !Contains(e.path + " ->", RenameArrow) then
        SplitAtArrow(e.path, e.extra.value);
        e.path + RenameArrow + e.extra.GetOr("None")
      else e.path + RenameArrow + e.extra.GetOr("None")
    else e.path
  }

  /**
   * "old -> new" splits back into its two paths at the first arrow,
   * provided no arrow starts inside the old path: one that ends in " ->"
   * would be cut short at its own arrow.
   */
  lemma SplitAtArrow(before: string, after: string)
    requires !Contains(before + " ->", RenameArrow)
    ensures SplitOnce(before + RenameArrow + after, RenameArrow) == Some((before, after))
  {
    var p := before + RenameArrow + after;
    assert OccursAt(p, RenameArrow, |before|);
    forall j: nat | j < |before| ensures !OccursAt(p, RenameArrow, j) {
      NoArrowBefore(before, after, j);
    }
    assert Find(p, RenameArrow) == Some(|before|);
    assert p[..|before|] == before && p[|before| + |RenameArrow|..] == after;
  }

  lemma NoArrowBefore(before: string, after: string, j: nat)
    requires !Contains(before + " ->", RenameArrow) && j < |before|
    ensures !OccursAt(before + RenameArrow + after, RenameArrow, j)
  {
    var p, q := before + RenameArrow + after, before + " ->";
    if OccursAt(p, RenameArrow, j) {
      assert p[j..j + |RenameArrow|] == q[j..j + |RenameArrow|];
      assert OccursAt(q, RenameArrow, j);
    }
  }

  /** The path zones, globs and new folders are judged by: the new path of a rename. */
  function MatchPath(e: Entry): string {
    if e.change == "R" && e.extra.Some? && e.extra.value != "" then e.extra.value else e.path
  }
}
