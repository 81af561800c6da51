/**
 * The zone classifier of zones.yml: file overrides, then the longest
 * classified folder prefix, then the root entry, then "yellow-auto"; the
 * quarantine that gives files under newly created directories the
 * new-folder zone; and the detection of those directories against the
 * base commit, which is a parameter `existedAtBase` here.
 */
module Zones {
  import opened Wrappers
  import opened Strs
  import opened Ordering
  import opened Values
  import opened RepoPaths

  const YellowAuto: string := "yellow-auto"

  /** The parts of zones.yml the validator reads. */
  datatype ZonesConfig = ZonesConfig(
    folderZones: seq<(string, Value)>,
    fileOverrides: seq<(string, Value)>,
    newFolderZone: string)

  /** `key` holds a truthy value that is not a mapping, where `cfg.get(key, {}) or {}` expects one. */
  predicate NotAMapping(entries: seq<(string, Value)>, key: string) {
    Get(entries, key).Some? && Truthy(Get(entries, key).value) && !Get(entries, key).value.Dict?
  }

  /** A mapping read with `cfg.get(key, {}) or {}`; `None` where Python would fail on a non-mapping. */
  function MappingAt(entries: seq<(string, Value)>, key: string): (r: Option<seq<(string, Value)>>)
    ensures r.None? <==> NotAMapping(entries, key)
    ensures r.Some? && r.value != [] ==> Get(entries, key) == Some(Dict(r.value))
  {
    match GetOr(entries, key, Dict([]))
    case Dict(es) => Some(es)
    case _ => None
  }

  /**
   * The configuration as `validate` reads it: a zones.yml that is not a
   * mapping counts as empty; `None` where a truthy non-mapping stands
   * where a mapping is read. The new-folder zone is `str()` of a truthy
   * value, or "yellow-auto", and so never empty.
   */
  function ReadZones(cfg: Value): (r: Option<ZonesConfig>)
    ensures !cfg.Dict? ==> r == Some(ZonesConfig([], [], YellowAuto))
    ensures r.None? <==> (cfg.Dict? &&
      (NotAMapping(cfg.entries, "folder_zones") || NotAMapping(cfg.entries, "file_overrides") || NotAMapping(cfg.entries, "defaults")))
    ensures r.Some? ==> r.value.newFolderZone != []
  {
    var top := if cfg.Dict? then cfg.entries else [];
    match (MappingAt(top, "folder_zones"), MappingAt(top, "file_overrides"), MappingAt(top, "defaults"))
    case (Some(fz), Some(fo), Some(defaults)) =>
      var nfz := match Get(defaults, "new_folder_zone")
        case Some(v) => if Truthy(v) then (PyStrEmpty(v); PyStr(v)) else YellowAuto
        case None => YellowAuto;
      Some(ZonesConfig(fz, fo, nfz))
    case _ => None
  }

  /** The prefix a `folder_zones` key classifies, "/" appended; `None` for the root entry "". */
  function FolderPrefix(key: string): (r: Option<string>)
    ensures r.None? <==> Normalize(key) == ""
    ensures r.Some? ==> r.value != [] && EndsWith(r.value, "/")
  {
    var pref := Normalize(key);
    if pref == "" then None
    else if EndsWith(pref, "/") then Some(pref)
    else Some(pref + "/")
  }

  /**
   * The prefix a folder key classifies is its normal form with "/"
   * appended, so "docs", "docs/", "./docs" and "docs\\" all name the
   * folder "docs/".
   */
  lemma FolderPrefixOf(key: string)
    requires Normalize(key) != "" && Normalize(key) != "." && !EndsWith(Normalize(key), "/")
    ensures FolderPrefix(key) == Some(Normalize(key) + "/")
    ensures FolderPrefix(key + "/") == Some(Normalize(key) + "/")
  {
    var p := Normalize(key);
    NormalizeSlash(key);
    assert EndsWith(p + "/", "/");
  }

  /** A key whose normal form ends in "/" classifies that form as it stands. */
  lemma FolderPrefixOfDir(key: string)
    requires Normalize(key) != "" && EndsWith(Normalize(key), "/")
    ensures FolderPrefix(key) == Some(Normalize(key))
  {
  }

  /** The key "." is the exception to `FolderPrefixOf`: it classifies "./" ... */
  lemma DotKey(dot: string)
    requires dot == "."
    ensures FolderPrefix(dot) == Some(dot + "/")
  {
    assert dot[0] == '.' && |dot| == 1;
    NormalizeKeepsCleanPath(dot);
  }

  /** ... while "." with "/" appended normalises to "" and is a root entry. */
  lemma DotSlashKey(key: string)
    requires key == "./"
    ensures FolderPrefix(key) == None
  {
    NormalizeIgnoresDotSlash("");
    assert key == "./" + "";
    NormalizeKeepsCleanPath("");
  }

  // ------------------------------------------------------------ zone scan

  /** A `folder_zones` entry as the scan sees it: its prefix (`None` for the root entry) and its zone. */
  datatype Rule = Rule(prefix: Option<string>, zone: string)

  function Rules(fz: seq<(string, Value)>): (r: seq<Rule>)
    ensures |r| == |fz|
    ensures forall k :: 0 <= k < |fz| ==> r[k] == Rule(FolderPrefix(fz[k].0), PyStr(fz[k].1))
  {
    seq(|fz|, k requires 0 <= k < |fz| => Rule(FolderPrefix(fz[k].0), PyStr(fz[k].1)))
  }

  /** The state of the scan over `folder_zones`: the best prefix so far and its zone. */
  datatype Best = Best(prefix: string, zone: Option<string>)

  /** One entry of the scan: the root entry counts only while nothing is chosen, a prefix only when strictly longer. */
  function Consider(b: Best, rule: Rule, pathN: string): Best {
    match rule.prefix
    case None => if b.zone.None? then Best("", Some(rule.zone)) else b
    case Some(pref) => if StartsWith(pathN, pref) && |pref| > |b.prefix| then Best(pref, Some(rule.zone)) else b
  }

  /** The scan over the entries in dictionary order. */
  function Scan(rules: seq<Rule>, pathN: string): Best
    decreases |rules|
  {
    if rules == [] then Best("", None)
    else Consider(Scan(rules[..|rules| - 1], pathN), rules[|rules| - 1], pathN)
  }

  /** `_zone_for_path` as a value. */
  function ZoneOf(path: string, z: ZonesConfig): string {
    var pathN := Normalize(path);
    match Get(z.fileOverrides, pathN)
    case Some(v) => PyStr(v)
    case None => Scan(Rules(z.folderZones), pathN).zone.GetOr(YellowAuto)
  }

  /** `_zone_for_path`: the override lookup, then the loop over `folder_zones`. */
  method ZoneForPath(path: string, z: ZonesConfig) returns (zone: string)
    ensures zone == ZoneOf(path, z)
  {
    var pathN := Normalize(path);
    var over := Get(z.fileOverrides, pathN);
    if over.Some? {
      return PyStr(over.value);
    }
    var fz := z.folderZones;
    ghost var rules := Rules(fz);
    var bestPrefix := "";
    var bestZone: Option<string> := None;
    for k := 0 to |fz|
      invariant Best(bestPrefix, bestZone) == Scan(rules[..k], pathN)
    {
      ScanStep(rules, k, pathN);
      bestPrefix, bestZone := ConsiderEntry(bestPrefix, bestZone, fz[k], pathN);
    }
    assert rules[..|fz|] == rules;
    zone := if bestZone.None? then YellowAuto else bestZone.value;
  }

  /** The scan over one more entry. */
  lemma ScanStep(rules: seq<Rule>, k: nat, pathN: string)
    requires k < |rules|
    ensures Scan(rules[..k + 1], pathN) == Consider(Scan(rules[..k], pathN), rules[k], pathN)
  {
    assert rules[..k + 1][..k] == rules[..k];
  }

  /** The body of the loop over `folder_zones` for one `(key, zone)` entry. */
  method ConsiderEntry(bestPrefix0: string, bestZone0: Option<string>, entry: (string, Value), pathN: string)
    returns (bestPrefix: string, bestZone: Option<string>)
    ensures Best(bestPrefix, bestZone) == Consider(Best(bestPrefix0, bestZone0), Rule(FolderPrefix(entry.0), PyStr(entry.1)), pathN)
  {
    bestPrefix, bestZone := bestPrefix0, bestZone0;
    var pref := Normalize(entry.0);
    if pref == "" {
      if bestZone.None? {
        bestZone := Some(PyStr(entry.1));
        bestPrefix := "";
      }
    } else {
      if !EndsWith(pref, "/") {
        pref := pref + "/";
      }
      if StartsWith(pathN, pref) && |pref| > |bestPrefix| {
        bestPrefix := pref;
        bestZone := Some(PyStr(entry.1));
      }
    }
  }

  /** Entry `k` is a non-root entry whose prefix starts the path. */
  ghost predicate Matching(rules: seq<Rule>, pathN: string, k: int) {
    0 <= k < |rules| && rules[k].prefix.Some? && rules[k].prefix.value != [] && StartsWith(pathN, rules[k].prefix.value)
  }

  ghost predicate IsRoot(rules: seq<Rule>, k: int) {
    0 <= k < |rules| && rules[k].prefix.None?
  }

  /** Entry `k` has the longest matching prefix, and no earlier entry has one as long. */
  ghost predicate IsWinner(rules: seq<Rule>, pathN: string, k: int) {
    && Matching(rules, pathN, k)
    && forall j :: Matching(rules, pathN, j) ==> Beats(rules, k, j)
  }

  /** Entry `k`'s prefix is longer than entry `j`'s, or as long and `k` comes first. */
  ghost predicate Beats(rules: seq<Rule>, k: int, j: int)
    requires Classified(rules, k) && Classified(rules, j)
  {
    var lk := |rules[k].prefix.value|;
    var lj := |rules[j].prefix.value|;
    lj < lk || (lj == lk && k <= j)
  }

  ghost predicate Classified(rules: seq<Rule>, k: int) {
    0 <= k < |rules| && rules[k].prefix.Some?
  }

  /** The chosen prefix is empty or the prefix of a matching entry. */
  lemma {:induction false} ScanPrefix(rules: seq<Rule>, pathN: string)
    ensures Scan(rules, pathN).prefix == [] || exists j :: Matching(rules, pathN, j) && rules[j].prefix.value == Scan(rules, pathN).prefix
    decreases |rules|
  {
    if rules != [] {
      var init := rules[..|rules| - 1];
      ScanPrefix(init, pathN);
      var b := Scan(init, pathN);
      if b.prefix != [] && Scan(rules, pathN).prefix == b.prefix {
        var j :| Matching(init, pathN, j) && init[j].prefix.value == b.prefix;
        assert init[j] == rules[j];
        assert Matching(rules, pathN, j);
      }
    }
  }

  /** With no matching prefix and no root entry the scan chooses nothing. */
  lemma {:induction false} NothingMatches(rules: seq<Rule>, pathN: string)
    requires forall j :: !Matching(rules, pathN, j) && !IsRoot(rules, j)
    ensures Scan(rules, pathN) == Best("", None)
    decreases |rules|
  {
    if rules != [] {
      var init := rules[..|rules| - 1];
      forall j ensures !Matching(init, pathN, j) && !IsRoot(init, j) {
        if 0 <= j < |init| {
          assert init[j] == rules[j];
          assert !Matching(rules, pathN, j) && !IsRoot(rules, j);
        }
      }
      NothingMatches(init, pathN);
      assert !Matching(rules, pathN, |rules| - 1) && !IsRoot(rules, |rules| - 1);
    }
  }

  /** The longest matching prefix wins, and on equal lengths the earlier entry. */
  lemma {:induction false} LongestPrefixWins(rules: seq<Rule>, pathN: string, k: int)
    requires IsWinner(rules, pathN, k)
    ensures Scan(rules, pathN) == Best(rules[k].prefix.value, Some(rules[k].zone))
    decreases |rules|
  {
    var init := rules[..|rules| - 1];
    var last := |rules| - 1;
    if k == last {
      ScanPrefix(init, pathN);
      var b := Scan(init, pathN);
      if b.prefix != [] {
        var j :| Matching(init, pathN, j) && init[j].prefix.value == b.prefix;
        assert init[j] == rules[j];
        assert Matching(rules, pathN, j) && Beats(rules, k, j);
      }
    } else {
      assert init[k] == rules[k];
      forall j | Matching(init, pathN, j) ensures Beats(init, k, j) {
        assert init[j] == rules[j];
        assert Matching(rules, pathN, j) && Beats(rules, k, j);
      }
      LongestPrefixWins(init, pathN, k);
      if Matching(rules, pathN, last) {
        assert Beats(rules, k, last);
      }
    }
  }

  /** With no matching prefix, the first root entry gives the zone. */
  lemma {:induction false} RootWhenNothingMatches(rules: seq<Rule>, pathN: string, k: int)
    requires forall j :: !Matching(rules, pathN, j)
    requires IsRoot(rules, k) && forall j :: 0 <= j < k ==> !IsRoot(rules, j)
    ensures Scan(rules, pathN) == Best("", Some(rules[k].zone))
    decreases |rules|
  {
    var init := rules[..|rules| - 1];
    var last := |rules| - 1;
    if k == last {
      forall j ensures !Matching(init, pathN, j) && !IsRoot(init, j) {
        if 0 <= j < |init| {
          assert init[j] == rules[j];
          assert !Matching(rules, pathN, j) && !IsRoot(rules, j);
        }
      }
      NothingMatches(init, pathN);
    } else {
      assert init[k] == rules[k];
      forall j ensures !Matching(init, pathN, j) && (0 <= j < k ==> !IsRoot(init, j)) {
        if 0 <= j < |init| {
          assert init[j] == rules[j];
          assert !Matching(rules, pathN, j);
          assert j < k ==> !IsRoot(rules, j);
        }
      }
      RootWhenNothingMatches(init, pathN, k);
      assert !Matching(rules, pathN, last);
    }
  }

  /** Whenever some prefix matches, some entry is the winner. */
  lemma {:induction false} WinnerExists(rules: seq<Rule>, pathN: string, m: int)
    requires Matching(rules, pathN, m)
    ensures exists k :: IsWinner(rules, pathN, k)
    decreases |rules|
  {
    var init := rules[..|rules| - 1];
    var last := |rules| - 1;
    if forall j :: !Matching(init, pathN, j) {
      forall j | 0 <= j < last ensures !Matching(rules, pathN, j) {
        assert init[j] == rules[j];
        assert !Matching(init, pathN, j);
      }
      assert m == last;
      assert IsWinner(rules, pathN, last);
    } else {
      var m' :| Matching(init, pathN, m');
      WinnerExists(init, pathN, m');
      var w :| IsWinner(init, pathN, w);
      assert init[w] == rules[w];
      assert Matching(rules, pathN, w);
      forall j | Matching(rules, pathN, j) && j < last ensures Beats(rules, w, j) {
        assert init[j] == rules[j];
        assert Matching(init, pathN, j) && Beats(init, w, j);
      }
      if Matching(rules, pathN, last) && !Beats(rules, w, last) {
        forall j | Matching(rules, pathN, j) ensures Beats(rules, last, j) {
          if j < last {
            assert Beats(rules, w, j);
          }
        }
        assert IsWinner(rules, pathN, last);
      } else {
        assert IsWinner(rules, pathN, w);
      }
    }
  }

  /** A path listed in `file_overrides` gets that zone, whatever the folders say. */
  lemma OverrideWins(path: string, z: ZonesConfig, v: Value)
    requires Get(z.fileOverrides, Normalize(path)) == Some(v)
    ensures ZoneOf(path, z) == PyStr(v)
  {
  }

  /** Without an override, the winning folder entry gives the zone. */
  lemma FolderZoneWins(path: string, z: ZonesConfig, k: int)
    requires !HasKey(z.fileOverrides, Normalize(path))
    requires IsWinner(Rules(z.folderZones), Normalize(path), k)
    ensures ZoneOf(path, z) == PyStr(z.folderZones[k].1)
  {
    LongestPrefixWins(Rules(z.folderZones), Normalize(path), k);
  }

  /** Without an override or a matching prefix, the first root entry gives the zone. */
  lemma RootZone(path: string, z: ZonesConfig, k: int)
    requires !HasKey(z.fileOverrides, Normalize(path))
    requires forall j :: !Matching(Rules(z.folderZones), Normalize(path), j)
    requires IsRoot(Rules(z.folderZones), k) && forall j :: 0 <= j < k ==> !IsRoot(Rules(z.folderZones), j)
    ensures ZoneOf(path, z) == PyStr(z.folderZones[k].1)
  {
    RootWhenNothingMatches(Rules(z.folderZones), Normalize(path), k);
  }

  /** With nothing to go by, the zone is "yellow-auto". */
  lemma UnclassifiedIsYellowAuto(path: string, z: ZonesConfig)
    requires !HasKey(z.fileOverrides, Normalize(path))
    requires forall j :: !Matching(Rules(z.folderZones), Normalize(path), j) && !IsRoot(Rules(z.folderZones), j)
    ensures ZoneOf(path, z) == YellowAuto
  {
    NothingMatches(Rules(z.folderZones), Normalize(path));
  }

  // ----------------------------------------------------------- quarantine

  /** `_classified_parent_prefixes`: the prefixes of the non-root entries, longest first, ties in dictionary order. */
  function ClassifiedPrefixes(fz: seq<(string, Value)>): (r: seq<string>)
    ensures forall p :: p in r <==> p in PrefixesOf(Rules(fz))
    ensures forall i, j :: 0 <= i < j < |r| ==> |r[i]| >= |r[j]|
  {
    var prefixes := PrefixesOf(Rules(fz));
    LongerFirstIsTotalPreorder();
    var r := SortBy(prefixes, LongerFirst());
    assert forall p :: p in r <==> p in multiset(prefixes);
    r
  }

  /** The prefixes of the non-root entries, in dictionary order. */
  function PrefixesOf(rules: seq<Rule>): (r: seq<string>)
    ensures forall p :: p in r <==> exists k :: 0 <= k < |rules| && rules[k].prefix == Some(p)
  {
    if rules == [] then []
    else
      var rest := PrefixesOf(rules[1..]);
      assert forall k :: 0 < k < |rules| ==> rules[k] == rules[1..][k - 1];
      match rules[0].prefix
      case None => rest
      case Some(p) => [p] + rest
  }

  /** `key=len, reverse=True`. */
  function LongerFirst(): (string, string) -> bool {
    (a: string, b: string) => |a| >= |b|
  }

  lemma LongerFirstIsTotalPreorder()
    ensures TotalPreorder(LongerFirst())
  {
  }

  /** `_is_under_any_prefix`: the normalised path starts with one of the prefixes. */
  function IsUnderAnyPrefix(path: string, prefixes: seq<string>): bool {
    StartsWithAny(Normalize(path), prefixes)
  }

  function StartsWithAny(pathN: string, prefixes: seq<string>): (r: bool)
    ensures r <==> exists k :: 0 <= k < |prefixes| && StartsWith(pathN, prefixes[k])
  {
    if prefixes == [] then false
    else if StartsWith(pathN, prefixes[0]) then true
    else
      var r := StartsWithAny(pathN, prefixes[1..]);
      assert forall k :: 0 < k < |prefixes| ==> prefixes[k] == prefixes[1..][k - 1];
      r
  }

  /** A path is under a classified prefix exactly when some non-root entry matches it. */
  lemma ClassifiedExactly(pathN: string, fz: seq<(string, Value)>)
    ensures StartsWithAny(pathN, ClassifiedPrefixes(fz)) <==> exists k :: Matching(Rules(fz), pathN, k)
  {
    var rules := Rules(fz);
    var prefixes := ClassifiedPrefixes(fz);
    if StartsWithAny(pathN, prefixes) {
      var i :| 0 <= i < |prefixes| && StartsWith(pathN, prefixes[i]);
      assert prefixes[i] in PrefixesOf(rules);
      var k :| 0 <= k < |rules| && rules[k].prefix == Some(prefixes[i]);
      assert Matching(rules, pathN, k);
    }
    if exists k :: Matching(rules, pathN, k) {
      var k :| Matching(rules, pathN, k);
      var p := rules[k].prefix.value;
      assert p in PrefixesOf(rules);
      assert p in prefixes;
    }
  }

  /** Some directory a file in `parent` lives under is newly created. */
  predicate UnderNewDir(parent: string, newDirs: set<string>) {
    exists k :: 0 <= k < |DirsUnder(parent)| && DirsUnder(parent)[k] in newDirs
  }

  /** A directory of the chain above a file is new exactly when it is a new ancestor of the file's directory. */
  lemma UnderNewDirExactly(parent: string, newDirs: set<string>)
    ensures UnderNewDir(parent, newDirs) <==> parent !in {"", "."} && exists d :: d in newDirs && IsAncestorOf(d, parent)
  {
    if UnderNewDir(parent, newDirs) {
      var k :| 0 <= k < |DirsUnder(parent)| && DirsUnder(parent)[k] in newDirs;
      DirsUnderExactly(parent, DirsUnder(parent)[k]);
    }
    if parent !in {"", "."} && exists d :: d in newDirs && IsAncestorOf(d, parent) {
      var d :| d in newDirs && IsAncestorOf(d, parent);
      DirsUnderExactly(parent, d);
    }
  }

  /** The `k`-th cut of the segments of `parent` is the `k`-th directory of its chain. */
  lemma DirsUnderCut(parent: string, segments: seq<string>, k: int)
    requires parent !in {"", "."} && segments == Split(parent, '/')
    requires 1 <= k <= |segments|
    ensures |DirsUnder(parent)| == |segments| && Join(segments[..k], '/') == DirsUnder(parent)[k - 1]
  {
  }

  /** The ancestor loop of `validate` that looks for a new directory above a changed file in `parent`. */
  method FindNewDir(parent: string, newDirs: set<string>) returns (under: bool)
    ensures under <==> UnderNewDir(parent, newDirs)
  {
    under := false;
    ghost var dirs := DirsUnder(parent);
    if parent !in {"", "."} {
      var segments := Split(parent, '/');
      assert |dirs| == |segments|;
      var k := 1;
      while k <= |segments|
        invariant 1 <= k <= |segments| + 1
        invariant forall i :: 0 <= i < k - 1 ==> dirs[i] !in newDirs
        decreases |segments| + 1 - k
      {
        var d := Join(segments[..k], '/');
        DirsUnderCut(parent, segments, k);
        if d in newDirs {
          under := true;
          break;
        }
        k := k + 1;
      }
    }
  }

  /** The zone a changed file is reported with: the new-folder zone under a new directory that no classified prefix covers. */
  function EffectiveZone(path: string, z: ZonesConfig, newDirs: set<string>): string {
    if UnderNewDir(Dirname(Normalize(path)), newDirs) && !IsUnderAnyPrefix(path, ClassifiedPrefixes(z.folderZones)) then z.newFolderZone
    else ZoneOf(path, z)
  }

  /**
   * The quarantine applies exactly when some ancestor directory of the
   * path is new and no classified (non-root) folder prefix starts it.
   */
  lemma QuarantineExactly(path: string, z: ZonesConfig, newDirs: set<string>, parent: string, pathN: string)
    requires pathN == Normalize(path) && parent == Dirname(pathN)
    ensures var quarantined :=
        && parent !in {"", "."}
        && (exists d :: d in newDirs && IsAncestorOf(d, parent))
        && !(exists k :: Matching(Rules(z.folderZones), pathN, k));
      EffectiveZone(path, z, newDirs) == if quarantined then z.newFolderZone else ZoneOf(path, z)
  {
    UnderNewDirExactly(parent, newDirs);
    ClassifiedExactly(pathN, z.folderZones);
  }

  // ------------------------------------------------------- new directories

  predicate CacheAgrees(cache: map<string, bool>, existedAtBase: string -> bool) {
    forall d :: d in cache ==> cache[d] == existedAtBase(d)
  }

  /** The directories above a file in `parent` that did not exist at the base commit. */
  function NewUnder(parent: string, existedAtBase: string -> bool): set<string> {
    set d | d in DirsUnder(parent) && !existedAtBase(d)
  }

  /** The directories among `ds` that did not exist at the base commit. */
  function NewAmong(ds: seq<string>, existedAtBase: string -> bool): set<string> {
    set d | d in ds && !existedAtBase(d)
  }

  lemma NewAmongStep(ds: seq<string>, k: int, existedAtBase: string -> bool)
    requires 0 <= k < |ds|
    ensures NewAmong(ds[..k + 1], existedAtBase) == NewAmong(ds[..k], existedAtBase) + (if existedAtBase(ds[k]) then {} else {ds[k]})
  {
    assert ds[..k + 1] == ds[..k] + [ds[k]];
  }

  /** The probe of every directory above one changed file, through the cache. */
  method AddNewDirs(parent: string, existedAtBase: string -> bool, cache0: map<string, bool>, newDirs0: set<string>)
    returns (cache: map<string, bool>, newDirs: set<string>)
    requires CacheAgrees(cache0, existedAtBase)
    ensures CacheAgrees(cache, existedAtBase)
    ensures newDirs == newDirs0 + NewUnder(parent, existedAtBase)
  {
    cache, newDirs := cache0, newDirs0;
    ghost var dirs := DirsUnder(parent);
    NewUnderAmong(parent, existedAtBase);
    if parent !in {"", "."} {
      var segments := Split(parent, '/');
      forall k | 1 <= k <= |segments| ensures |dirs| == |segments| && Join(segments[..k], '/') == dirs[k - 1] {
        DirsUnderCut(parent, segments, k);
      }
      cache, newDirs := AddAmong(segments, dirs, existedAtBase, cache, newDirs);
    } else {
      assert NewAmong(dirs, existedAtBase) == {};
    }
  }

  /** The loop over `1..len(segments)`: each prefix of segments is a directory, probed through the cache. */
  method AddAmong(segments: seq<string>, ghost dirs: seq<string>, existedAtBase: string -> bool,
                  cache0: map<string, bool>, newDirs0: set<string>)
    returns (cache: map<string, bool>, newDirs: set<string>)
    requires |dirs| == |segments| && forall k :: 1 <= k <= |segments| ==> Join(segments[..k], '/') == dirs[k - 1]
    requires CacheAgrees(cache0, existedAtBase)
    ensures CacheAgrees(cache, existedAtBase)
    ensures newDirs == newDirs0 + NewAmong(dirs, existedAtBase)
  {
    cache, newDirs := cache0, newDirs0;
    for k := 1 to |segments| + 1
      invariant CacheAgrees(cache, existedAtBase)
      invariant newDirs == newDirs0 + NewAmong(dirs[..k - 1], existedAtBase)
    {
      var d := Join(segments[..k], '/');
      NewAmongStep(dirs, k - 1, existedAtBase);
      var existed;
      existed, cache := Probe(d, existedAtBase, cache);
      if !existed {
        newDirs := newDirs + {d};
      }
    }
    assert dirs[..|segments|] == dirs;
  }

  lemma NewUnderAmong(parent: string, existedAtBase: string -> bool)
    ensures NewUnder(parent, existedAtBase) == NewAmong(DirsUnder(parent), existedAtBase)
  {
  }

  /** Whether `d` existed at the base commit, answered from the cache when it knows and recorded there when not. */
  method Probe(d: string, existedAtBase: string -> bool, cache0: map<string, bool>) returns (existed: bool, cache: map<string, bool>)
    requires CacheAgrees(cache0, existedAtBase)
    ensures existed == existedAtBase(d) && CacheAgrees(cache, existedAtBase)
    ensures d in cache && cache.Keys == cache0.Keys + {d}
  {
    if d in cache0 {
      existed, cache := cache0[d], cache0;
    } else {
      existed := existedAtBase(d);
      cache := cache0[d := existed];
    }
  }

  /** The directory of each changed path. */
  function ParentsOf(paths: seq<string>): (r: seq<string>)
    ensures |r| == |paths|
    decreases |paths|
  {
    if paths == [] then []
    else ParentsOf(paths[..|paths| - 1]) + [Dirname(Normalize(paths[|paths| - 1]))]
  }

  /** Entry `i` of `ParentsOf` is the directory of path `i`. */
  lemma {:induction false} ParentsOfAt(paths: seq<string>, i: int)
    requires 0 <= i < |paths|
    ensures ParentsOf(paths)[i] == Dirname(Normalize(paths[i]))
    decreases |paths|
  {
    if i < |paths| - 1 {
      ParentsOfAt(paths[..|paths| - 1], i);
      assert paths[..|paths| - 1][i] == paths[i];
    }
  }

  /** The directories above files in `parents` that did not exist at the base commit. */
  function NewDirsIn(parents: seq<string>, existedAtBase: string -> bool): set<string>
    decreases |parents|
  {
    if parents == [] then {}
    else NewDirsIn(parents[..|parents| - 1], existedAtBase) + NewUnder(parents[|parents| - 1], existedAtBase)
  }

  /** One more changed path adds the new directories above its own directory. */
  lemma NewDirsStep(paths: seq<string>, i: nat, existedAtBase: string -> bool)
    requires i < |paths|
    ensures NewDirsIn(ParentsOf(paths[..i + 1]), existedAtBase) ==
      NewDirsIn(ParentsOf(paths[..i]), existedAtBase) + NewUnder(Dirname(Normalize(paths[i])), existedAtBase)
  {
    assert paths[..i + 1][..i] == paths[..i];
    var ps := ParentsOf(paths[..i + 1]);
    assert ps[..i] == ParentsOf(paths[..i]);
  }

  /** The directories above the changed paths that did not exist at the base commit. */
  function NewDirs(paths: seq<string>, existedAtBase: string -> bool): set<string> {
    NewDirsIn(ParentsOf(paths), existedAtBase)
  }

  /** A directory is new exactly when it is an ancestor of a changed file's directory and did not exist. */
  lemma {:induction false} NewDirsInExactly(parents: seq<string>, existedAtBase: string -> bool, d: string)
    ensures d in NewDirsIn(parents, existedAtBase) <==>
      !existedAtBase(d) && exists i :: 0 <= i < |parents| && parents[i] !in {"", "."} && IsAncestorOf(d, parents[i])
    decreases |parents|
  {
    if parents != [] {
      var init := parents[..|parents| - 1];
      NewDirsInExactly(init, existedAtBase, d);
      DirsUnderExactly(parents[|parents| - 1], d);
      assert forall i :: 0 <= i < |init| ==> init[i] == parents[i];
    }
  }

  /** Files at the repository root add no directory. */
  lemma RootFilesAddNothing(paths: seq<string>, p: string, existedAtBase: string -> bool)
    requires Dirname(Normalize(p)) in {"", "."}
    ensures NewDirs(paths + [p], existedAtBase) == NewDirs(paths, existedAtBase)
  {
    assert (paths + [p])[..|paths|] == paths;
  }

  /** `_detect_new_directories`, with the `git cat-file` probe as the oracle `existedAtBase` and its cache. */
  method DetectNewDirectories(paths: seq<string>, existedAtBase: string -> bool) returns (r: seq<string>)
    ensures SortedBy(r, StrOrder()) && NoDup(r)
    ensures Elems(r) == NewDirs(paths, existedAtBase)
  {
    var cache: map<string, bool> := map[];
    var newDirs: set<string> := {};
    for i := 0 to |paths|
      invariant CacheAgrees(cache, existedAtBase)
      invariant newDirs == NewDirsIn(ParentsOf(paths[..i]), existedAtBase)
    {
      var parent := Dirname(Normalize(paths[i]));
      NewDirsStep(paths, i, existedAtBase);
      cache, newDirs := AddNewDirs(parent, existedAtBase, cache, newDirs);
    }
    assert paths[..|paths|] == paths;
    r := SortedFromSet(newDirs);
  }
}
