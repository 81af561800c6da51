/**
 * Red-operation detection. An operation of red_operations.yml fires when a
 * changed file's path (either side of a rename) equals one of its
 * `match.paths`, lies under one that ends in "/", or contains one of its
 * `match.patterns` ignoring case. At governance level 3 the detected
 * operations are compared with those the change manifest declares.
 */
module RedOps {
  import opened Wrappers
  import opened Strs
  import opened Ordering
  import opened Values
  import opened RepoPaths
  import opened Diff
  import opened Verdict

  /** An operation whose id is a string, with its two match lists as written. */
  datatype RedOp = RedOp(id: string, paths: Value, patterns: Value)

  // ------------------------------------------------------ reading the config

  /** The items of `operations`; a configuration that is not a mapping has none. `None` where iterating raises. */
  function Operations(cfg: Value): (r: Option<seq<Value>>)
    ensures !cfg.Dict? ==> r == Some([])
    ensures cfg.Dict? && Get(cfg.entries, "operations").None? ==> r == Some([])
    ensures cfg.Dict? && Get(cfg.entries, "operations").Some? && Get(cfg.entries, "operations").value.List? ==>
      r == Some(Get(cfg.entries, "operations").value.items)
  {
    if cfg.Dict? then Iterate(GetOr(cfg.entries, "operations", List([]))) else Some([])
  }

  /**
   * One item of `operations`: `Some(None)` when the loop skips it, `None`
   * where reading its `match` raises. The `match` value is read before the
   * id is checked, so a bad `match` raises even on an item the id would skip.
   */
  function ReadOp(op: Value): (r: Option<Option<RedOp>>)
    ensures r.None? <==> op.Dict? && !GetOr(op.entries, "match", Dict([])).Dict?
    ensures r.Some? && r.value.Some? <==>
      op.Dict? && GetOr(op.entries, "match", Dict([])).Dict? && Get(op.entries, "id").Some? && Get(op.entries, "id").value.Str?
    ensures r.Some? && r.value.Some? ==> Get(op.entries, "id") == Some(Str(r.value.value.id))
  {
    match op
    case Dict(es) =>
      var m := GetOr(es, "match", Dict([]));
      if !m.Dict? then None
      else
        var id := Get(es, "id");
        if id.Some? && id.value.Str? then
          Some(Some(RedOp(id.value.s, GetOr(m.entries, "paths", List([])), GetOr(m.entries, "patterns", List([])))))
        else Some(None)
    case _ => Some(None)
  }

  // ----------------------------------------------------------------- matching

  /** A `match.paths` rule: after normalising both, a prefix when the rule ends in "/", else the exact path. */
  predicate PathRuleHits(rule: Value, candidate: string) {
    var m := Normalize(PyStr(rule));
    var c := Normalize(candidate);
    if EndsWith(m, "/") then StartsWith(c, m) else c == m
  }

  /** A `match.patterns` token: a non-empty substring of the normalised path, both lower-cased. */
  predicate TokenHits(token: Value, candidate: string) {
    var t := Lower(PyStr(token));
    t != [] && Contains(Lower(Normalize(candidate)), t)
  }

  predicate SomeRuleHits(rules: seq<Value>, candidate: string) {
    exists k :: 0 <= k < |rules| && PathRuleHits(rules[k], candidate)
  }

  predicate SomeTokenHits(tokens: seq<Value>, candidate: string) {
    exists k :: 0 <= k < |tokens| && TokenHits(tokens[k], candidate)
  }

  /** The paths a changed file is matched by: both sides of "old -> new", else the path itself. */
  function Candidates(p: string): (r: seq<string>)
    ensures 1 <= |r| <= 2
    ensures !Contains(p, RenameArrow) ==> r == [p]
    ensures |r| == 2 ==> p == r[0] + RenameArrow + r[1] && !Contains(r[0], RenameArrow)
  {
    match SplitOnce(p, RenameArrow)
    case Some((before, after)) => [before, after]
    case None => [p]
  }

  /**
   * One candidate against one operation: the path rules, then the tokens.
   * `None` where iterating a rule list raises; the tokens are not iterated
   * when a path rule already hit.
   */
  function CandidateHit(o: RedOp, c: string): Option<bool> {
    match Iterate(o.paths)
    case None => None
    case Some(rules) =>
      if SomeRuleHits(rules, c) then Some(true)
      else
        match Iterate(o.patterns)
        case None => None
        case Some(tokens) => Some(SomeTokenHits(tokens, c))
  }

  /** The items tried in order until one decides `true` or raises (`None`); `Some(false)` when none does. */
  function FirstDecided<T>(xs: seq<T>, f: T -> Option<bool>): (r: Option<bool>)
    ensures r == Some(false) <==> forall k :: 0 <= k < |xs| ==> f(xs[k]) == Some(false)
    ensures r == Some(true) ==> exists k :: 0 <= k < |xs| && f(xs[k]) == Some(true)
    ensures r.None? ==> exists k :: 0 <= k < |xs| && f(xs[k]).None?
  {
    if xs == [] then Some(false)
    else
      assert forall k :: 0 < k < |xs| ==> xs[k] == xs[1..][k - 1];
      match f(xs[0])
      case None => None
      case Some(hit) => if hit then Some(true) else FirstDecided(xs[1..], f)
  }

  /** When every item decides, the scan decides whether some item is `true`. */
  lemma {:induction false} FirstDecidedTotal<T>(xs: seq<T>, f: T -> Option<bool>, g: T -> bool)
    requires forall k :: 0 <= k < |xs| ==> f(xs[k]) == Some(g(xs[k]))
    ensures FirstDecided(xs, f) == Some(exists k :: 0 <= k < |xs| && g(xs[k]))
  {
    if xs != [] {
      FirstDecidedTotal(xs[1..], f, g);
      HeadOrTail(xs, g);
    }
  }

  /** The candidates of one changed file, tried in order until one hits or raises. */
  function EntryHit(o: RedOp, cs: seq<string>): (r: Option<bool>)
    ensures r == Some(false) <==> forall k :: 0 <= k < |cs| ==> CandidateHit(o, cs[k]) == Some(false)
    ensures r == Some(true) ==> exists k :: 0 <= k < |cs| && CandidateHit(o, cs[k]) == Some(true)
    ensures r.None? ==> exists k :: 0 <= k < |cs| && CandidateHit(o, cs[k]).None?
  {
    FirstDecided(cs, c => CandidateHit(o, c))
  }

  /** The changed files, tried in order until one hits or raises: whether the operation fires. */
  function OpFires(o: RedOp, ps: seq<string>): Option<bool> {
    if ps == [] then Some(false)
    else
      match EntryHit(o, Candidates(ps[0]))
      case None => None
      case Some(hit) => if hit then Some(true) else OpFires(o, ps[1..])
  }

  /** What one item of `operations` contributes: `None` where it raises, else the id of an operation that fires, if it does. */
  function Outcome(op: Value, ps: seq<string>): (r: Option<Option<string>>)
    ensures r.Some? && r.value.Some? ==> ReadOp(op).Some? && ReadOp(op).value.Some? && ReadOp(op).value.value.id == r.value.value
  {
    match ReadOp(op)
    case None => None
    case Some(None) => Some(None)
    case Some(Some(o)) =>
      match OpFires(o, ps)
      case None => None
      case Some(fires) => Some(if fires then Some(o.id) else None)
  }

  /** A left fold whose step may raise: `None` from the first step that does. */
  function FoldSteps<A, S>(xs: seq<A>, init: S, step: (S, A) -> Option<S>): Option<S>
    decreases |xs|
  {
    if xs == [] then Some(init)
    else
      match FoldSteps(xs[..|xs| - 1], init, step)
      case None => None
      case Some(acc) => step(acc, xs[|xs| - 1])
  }

  /** The ids of the operations that fire, in the order of `ops`; `None` where the loop raises. */
  function DetectedIds(ops: seq<Value>, ps: seq<string>): Option<seq<string>> {
    FoldSteps(ops, [], (ids: seq<string>, op: Value) => DetectStep(ids, op, ps))
  }

  /** One more item of `operations` after `ids` were found. */
  function DetectStep(ids: seq<string>, op: Value, ps: seq<string>): Option<seq<string>> {
    match Outcome(op, ps)
    case None => None
    case Some(x) => Some(if x.Some? then ids + [x.value] else ids)
  }

  /** `sorted(set(detected))`: the ids of the operations that fire; `None` where detection raises. */
  function Detected(cfg: Value, ps: seq<string>): Option<set<string>> {
    match Operations(cfg)
    case None => None
    case Some(ops) =>
      match DetectedIds(ops, ps)
      case None => None
      case Some(ids) => Some(Elems(ids))
  }

  // ------------------------------------------------------------------ lemmas

  /** Some path rule or some token of `o` hits the candidate. */
  predicate CandidateMatches(o: RedOp, c: string)
    requires Iterate(o.paths).Some? && Iterate(o.patterns).Some?
  {
    SomeRuleHits(Iterate(o.paths).value, c) || SomeTokenHits(Iterate(o.patterns).value, c)
  }

  /** Some candidate of the changed file `p` matches `o`. */
  predicate EntryMatches(o: RedOp, p: string)
    requires Iterate(o.paths).Some? && Iterate(o.patterns).Some?
  {
    exists j :: 0 <= j < |Candidates(p)| && CandidateMatches(o, Candidates(p)[j])
  }

  /** With iterable rule lists a candidate hits exactly when some path rule or some token hits it. */
  lemma CandidateHitExactly(o: RedOp, c: string)
    requires Iterate(o.paths).Some? && Iterate(o.patterns).Some?
    ensures CandidateHit(o, c) == Some(CandidateMatches(o, c))
  {
  }

  /** A path rule that hits decides before the tokens are read, so an unusable pattern list does not raise then. */
  lemma RuleHitIgnoresPatterns(o: RedOp, c: string, k: int)
    requires Iterate(o.paths).Some? && 0 <= k < |Iterate(o.paths).value| && PathRuleHits(Iterate(o.paths).value[k], c)
    ensures CandidateHit(o, c) == Some(true)
  {
  }

  /** With iterable rule lists a changed file hits exactly when one of its candidates matches. */
  lemma EntryHitExactly(o: RedOp, p: string)
    requires Iterate(o.paths).Some? && Iterate(o.patterns).Some?
    ensures EntryHit(o, Candidates(p)) == Some(EntryMatches(o, p))
  {
    var cs := Candidates(p);
    forall j | 0 <= j < |cs| ensures CandidateHit(o, cs[j]) == Some(CandidateMatches(o, cs[j])) {
      CandidateHitExactly(o, cs[j]);
    }
    var g := (c: string) => Iterate(o.paths).Some? && Iterate(o.patterns).Some? && CandidateMatches(o, c);
    FirstDecidedTotal(cs, c => CandidateHit(o, c), g);
    assert EntryMatches(o, p) == exists k :: 0 <= k < |cs| && g(cs[k]);
  }

  /**
   * A rename "old -> new" is matched against both of its paths, provided
   * no arrow starts inside the old path: one that ends in " ->" would be
   * cut short at its own arrow.
   */
  lemma RenameCandidates(before: string, after: string)
    requires !Contains(before + " ->", RenameArrow)
    ensures Candidates(before + RenameArrow + after) == [before, after]
  {
    SplitAtArrow(before, after);
  }

  /**
   * With iterable rule lists an operation fires exactly when some path rule
   * or some token hits one of the candidates of some changed file.
   */
  lemma {:induction false} OpFiresExactly(o: RedOp, ps: seq<string>)
    requires Iterate(o.paths).Some? && Iterate(o.patterns).Some?
    ensures OpFires(o, ps) == Some(exists k :: 0 <= k < |ps| && EntryMatches(o, ps[k]))
  {
    if ps != [] {
      EntryHitExactly(o, ps[0]);
      OpFiresExactly(o, ps[1..]);
      HeadOrTail(ps, p => EntryMatches(o, p));
    }
  }

  /** An id is detected exactly when some item of `operations` is an operation with that id that fires. */
  lemma {:induction false} DetectedIdsExactly(ops: seq<Value>, ps: seq<string>, id: string)
    requires DetectedIds(ops, ps).Some?
    ensures id in DetectedIds(ops, ps).value <==> exists k :: 0 <= k < |ops| && Outcome(ops[k], ps) == Some(Some(id))
    decreases |ops|
  {
    if ops != [] {
      var n := |ops| - 1;
      DetectedIdsExactly(ops[..n], ps, id);
      PrefixWitness(ops, n, x => Outcome(x, ps) == Some(Some(id)));
    }
  }

  /** Detection ends in an id exactly when some operation with that id fires; the sorted list has the same ids. */
  lemma DetectedExactly(cfg: Value, ps: seq<string>, id: string)
    requires Detected(cfg, ps).Some?
    ensures Operations(cfg).Some?
    ensures id in Detected(cfg, ps).value <==>
      exists k :: 0 <= k < |Operations(cfg).value| && Outcome(Operations(cfg).value[k], ps) == Some(Some(id))
  {
    DetectedIdsExactly(Operations(cfg).value, ps, id);
  }

  /** On a rename, a rule that matches only the old path still makes the operation fire. */
  lemma RenamedFromRedPath(o: RedOp, before: string, after: string, k: int)
    requires !Contains(before + " ->", RenameArrow)
    requires Iterate(o.paths).Some? && 0 <= k < |Iterate(o.paths).value| && PathRuleHits(Iterate(o.paths).value[k], before)
    ensures OpFires(o, [before + RenameArrow + after]) == Some(true)
  {
    RenameCandidates(before, after);
    RuleHitIgnoresPatterns(o, before, k);
  }

  // ------------------------------------------------------------- declaration

  /** `red_ops_observed` of the manifest, each as `str()`, when it is a list; else none. */
  function Declared(manifest: Option<seq<(string, Value)>>): (r: seq<string>)
    ensures manifest.None? ==> r == []
    ensures manifest.Some? && Get(manifest.value, "red_ops_observed").Some? && Get(manifest.value, "red_ops_observed").value.List? ==>
      r == PyStrs(Get(manifest.value, "red_ops_observed").value.items)
  {
    if manifest.None? then []
    else
      match Get(manifest.value, "red_ops_observed")
      case Some(List(xs)) => PyStrs(xs)
      case _ => []
  }

  /** At level 3 and above: detected but undeclared, and declared but not detected, are each one error. */
  function DeclarationFindings(level: int, detected: seq<string>, declared: seq<string>): (r: seq<Finding>)
    ensures Finding("RED_OP_UNDECLARED", None) in r <==> level >= 3 && exists k :: 0 <= k < |detected| && detected[k] !in declared
    ensures Finding("MANIFEST_RED_OPS_NOT_SUBSET", None) in r <==> level >= 3 && exists k :: 0 <= k < |declared| && declared[k] !in detected
    ensures forall f :: f in r ==> f == Finding("RED_OP_UNDECLARED", None) || f == Finding("MANIFEST_RED_OPS_NOT_SUBSET", None)
    ensures level < 3 ==> r == []
  {
    if level < 3 then []
    else
      (if exists k :: 0 <= k < |detected| && detected[k] !in declared then [Finding("RED_OP_UNDECLARED", None)] else []) +
      (if exists k :: 0 <= k < |declared| && declared[k] !in detected then [Finding("MANIFEST_RED_OPS_NOT_SUBSET", None)] else [])
  }

  /** At level 3 and above the red-operation check passes exactly when the declared ids are the detected ones. */
  lemma DeclarationAgrees(level: int, detected: seq<string>, declared: seq<string>)
    requires level >= 3
    ensures DeclarationFindings(level, detected, declared) == [] <==> Elems(detected) == Elems(declared)
  {
    var r := DeclarationFindings(level, detected, declared);
    if Elems(detected) == Elems(declared) {
      assert forall k :: 0 <= k < |detected| ==> detected[k] in Elems(detected);
      assert forall k :: 0 <= k < |declared| ==> declared[k] in Elems(declared);
    } else {
      if x :| x in Elems(detected) && x !in Elems(declared) {
        var k :| 0 <= k < |detected| && detected[k] == x;
        assert Finding("RED_OP_UNDECLARED", None) in r;
      } else {
        var x :| x in Elems(declared) && x !in Elems(detected);
        var k :| 0 <= k < |declared| && declared[k] == x;
        assert Finding("MANIFEST_RED_OPS_NOT_SUBSET", None) in r;
      }
    }
  }

  // ----------------------------------------------------------------- methods

  /** The inner loops of the detection for one candidate path. */
  method MatchCandidate(o: RedOp, c: string) returns (hit: Option<bool>)
    ensures hit == CandidateHit(o, c)
  {
    var rules := Iterate(o.paths);
    if rules.None? {
      return None;
    }
    var ruleHit := AnyRuleHits(rules.value, c);
    if ruleHit {
      return Some(true);
    }
    var tokens := Iterate(o.patterns);
    if tokens.None? {
      return None;
    }
    var tokenHit := AnyTokenHits(tokens.value, c);
    return Some(tokenHit);
  }

  /** The loop over `match.paths`, stopping at the first rule that hits. */
  method AnyRuleHits(rules: seq<Value>, c: string) returns (hit: bool)
    ensures hit == SomeRuleHits(rules, c)
  {
    hit := FirstHit(rules, r => PathRuleHits(r, c));
  }

  /** The loop over `match.patterns`, stopping at the first token that hits. */
  method AnyTokenHits(tokens: seq<Value>, c: string) returns (hit: bool)
    ensures hit == SomeTokenHits(tokens, c)
  {
    hit := FirstHit(tokens, t => TokenHits(t, c));
  }

  /** A loop over `xs` that stops at the first element satisfying `p`. */
  method FirstHit<T>(xs: seq<T>, p: T -> bool) returns (hit: bool)
    ensures hit <==> exists k :: 0 <= k < |xs| && p(xs[k])
  {
    for i := 0 to |xs|
      invariant forall j :: 0 <= j < i ==> !p(xs[j])
    {
      if p(xs[i]) {
        return true;
      }
    }
    return false;
  }

  /** The candidate loop for one changed file. */
  method MatchEntry(o: RedOp, p: string) returns (hit: Option<bool>)
    ensures hit == EntryHit(o, Candidates(p))
  {
    var cs := Candidates(p);
    for i := 0 to |cs|
      invariant EntryHit(o, cs) == EntryHit(o, cs[i..])
    {
      assert cs[i..][1..] == cs[i + 1..];
      hit := MatchCandidate(o, cs[i]);
      if hit != Some(false) {
        return;
      }
    }
    return Some(false);
  }

  /** The loop over the changed files for one operation. */
  method MatchOp(o: RedOp, ps: seq<string>) returns (fires: Option<bool>)
    ensures fires == OpFires(o, ps)
  {
    for i := 0 to |ps|
      invariant OpFires(o, ps) == OpFires(o, ps[i..])
    {
      assert ps[i..][1..] == ps[i + 1..];
      fires := MatchEntry(o, ps[i]);
      if fires != Some(false) {
        return;
      }
    }
    return Some(false);
  }

  /** The detection loop: the ids of the operations that fire, sorted and without repeats; `None` where it raises. */
  method DetectRedOps(cfg: Value, ps: seq<string>) returns (r: Option<seq<string>>)
    ensures r.None? <==> Detected(cfg, ps).None?
    ensures r.Some? ==> SortedBy(r.value, StrOrder()) && NoDup(r.value) && Elems(r.value) == Detected(cfg, ps).value
  {
    var ops := Operations(cfg);
    if ops.None? {
      return None;
    }
    var found: seq<string> := [];
    for i := 0 to |ops.value|
      invariant DetectedIds(ops.value[..i], ps) == Some(found)
    {
      var step := DetectOne(found, ops.value[i], ps);
      assert ops.value[..i + 1][..i] == ops.value[..i] && ops.value[..i + 1][i] == ops.value[i];
      if step.None? {
        FoldCrashIsFinal(ops.value, i + 1, [], (ids: seq<string>, op: Value) => DetectStep(ids, op, ps));
        return None;
      }
      found := step.value;
    }
    assert ops.value[..|ops.value|] == ops.value;
    var sorted := SortedFromSet(Elems(found));
    return Some(sorted);
  }

  /** The body of the detection loop for one item of `operations`. */
  method DetectOne(ids: seq<string>, op: Value, ps: seq<string>) returns (r: Option<seq<string>>)
    ensures r == DetectStep(ids, op, ps)
  {
    var ro := ReadOp(op);
    if ro.None? {
      return None;
    }
    if ro.value.None? {
      return Some(ids);
    }
    var fires := MatchOp(ro.value.value, ps);
    if fires.None? {
      return None;
    }
    r := Some(if fires.value then ids + [ro.value.value.id] else ids);
  }

  /** Once a step raises, the whole fold does. */
  lemma {:induction false} FoldCrashIsFinal<A, S>(xs: seq<A>, j: nat, init: S, step: (S, A) -> Option<S>)
    requires j <= |xs| && FoldSteps(xs[..j], init, step) == None
    ensures FoldSteps(xs, init, step) == None
    decreases |xs|
  {
    if |xs| > j {
      var n := |xs| - 1;
      assert xs[..n][..j] == xs[..j];
      FoldCrashIsFinal(xs[..n], j, init, step);
    } else {
      assert xs[..j] == xs;
    }
  }
}
