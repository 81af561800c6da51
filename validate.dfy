/**
 * `validate`: one run of the validator over a repository state. It loads
 * the three configuration files, checks the active intent folder's
 * artifacts, collects the changed files, judges each against the plan
 * scopes and the zones, detects red operations, reconciles the change
 * manifest at level 3 and above, and picks the exit code. Git, the
 * filesystem and the routing to the active intent folder are inputs
 * (`Inputs`); the report is returned rather than written and printed.
 */
module Validate {
  import opened Wrappers
  import opened Strs
  import opened Ordering
  import opened Values
  import opened Diff
  import opened Zones
  import opened Verdict
  import RepoPaths
  import Yaml
  import YamlReader
  import Plan
  import RedOps
  import Manifest
  import opened Failures

  // ---------------------------------------------------------------- inputs

  /** change-manifest.json: absent, not JSON, or a JSON value. */
  datatype ManifestFile = NoManifest | InvalidJson | Json(value: Value)

  /** What one run reads from the repository. */
  datatype Inputs = Inputs(
    governanceText: Option<string>,    // .id-sdlc/governance-config.yml; None when the file is missing
    zonesText: Option<string>,         // .id-sdlc/zones.yml
    redOpsText: Option<string>,        // .id-sdlc/red_operations.yml
    folder: string,                    // the active intent folder's name
    hasIntent: bool,                   // intent.md exists in it
    hasMetadata: bool,                 // metadata.json exists in it
    manifest: ManifestFile,
    planText: Option<string>,          // development-plan.md, when it exists
    unstaged: string,                  // output of `git diff --name-status -z <base>`
    staged: string,                    // ... `--cached <base>`
    untracked: seq<string>,            // the names `git ls-files --others --exclude-standard -z` prints
    committed: string,                 // ... `<base>..<head>`
    parentSha: string,                 // `rev-parse HEAD^`, or HEAD when that fails
    head: string,                      // `rev-parse HEAD`
    existedAtBase: string -> bool,     // a directory is present in the base commit's tree
    cls: (string, char) -> bool)       // a bracket expression of a glob accepts a character

  // --------------------------------------------------------------- outputs

  datatype ChangedFile = ChangedFile(path: string, changeType: string, zone: string)

  datatype Report = Report(
    ok: bool,
    exitCode: int,
    baseSha: Option<string>,
    workingSha: Option<string>,
    changedFiles: seq<ChangedFile>,
    errors: seq<Finding>,
    warnings: seq<Finding>)

  /**
   * A run completes with a report, stops with a `TyrValidatorError` (its
   * message and the SHAs known by then), or crashes with an exception the
   * handler does not catch.
   */
  datatype Outcome =
    | Completed(report: Report)
    | Raised(message: string, baseSha: Option<string>, workingSha: Option<string>)
    | Crashed

  /** The report a run leaves behind; an uncaught exception leaves none. */
  function ReportOf(o: Outcome): Option<Report> {
    match o
    case Completed(r) => Some(r)
    case Raised(msg, base, working) =>
      Some(Report(false, ExceptionExit(msg), base, working, [], [Finding("VALIDATOR_EXCEPTION", None)], []))
    case Crashed => None
  }

  // ---------------------------------------------------------- configuration

  datatype Configs = Configs(governance: Value, zones: Value, redOps: Value)

  /** `_read_yaml_file`: a missing file and a YAML error both raise. */
  function LoadConfig(path: string, text: Option<string>): Result<Value, ConfigFailure> {
    match text
    case None => Err(Missing(path))
    case Some(t) =>
      match Yaml.Load(t)
      case Ok(v) => Ok(v)
      case Err(e) => Err(Malformed(e))
  }

  /** The three configuration files, read in order; the first failure stops the run. */
  function LoadConfigs(inp: Inputs): (r: Result<Configs, ConfigFailure>)
    ensures r == Err(Missing(GovernancePath)) <==> inp.governanceText.None?
    ensures r.Ok? ==> inp.governanceText.Some? && inp.zonesText.Some? && inp.redOpsText.Some?
    ensures r.Err? && r.error.Missing? ==> r.error.path in {GovernancePath, ZonesPath, RedOpsPath}
  {
    match LoadConfig(GovernancePath, inp.governanceText)
    case Err(f) => Err(f)
    case Ok(g) =>
      match LoadConfig(ZonesPath, inp.zonesText)
      case Err(f) => Err(f)
      case Ok(z) =>
        match LoadConfig(RedOpsPath, inp.redOpsText)
        case Err(f) => Err(f)
        case Ok(r) => Ok(Configs(g, z, r))
  }

  /** The manifest as `validate` holds it: JSON `null` reads as no manifest at all. */
  function ManifestValue(mf: ManifestFile): Option<Value> {
    if mf.Json? && !mf.value.Null? then Some(mf.value) else None
  }

  /** A required artifact is missing, or the manifest is at level 3 and above. */
  predicate ArtifactsBroken(level: int, inp: Inputs, manifest: Option<Value>) {
    !inp.hasIntent || !inp.hasMetadata || (level >= 3 && manifest.None?)
  }

  // ---------------------------------------------------------------- changes

  /**
   * The changed records: at the coding stage the union of the worktree,
   * the index and the untracked files against the base; otherwise the
   * commits from the base to HEAD. They come sorted by key. At the coding
   * stage they hold no record twice, are exactly the records of the three
   * sources, and only a malformed diff makes the collection fail.
   */
  function Changes(stage: Manifest.Stage, inp: Inputs): (r: Result<seq<Entry>, DiffError>)
    ensures r.Ok? ==> SortedBy(r.value, KeyOrder())
    ensures stage == Manifest.Coding ==> (r.Ok? <==> Parsed(inp.unstaged).Ok? && Parsed(inp.staged).Ok?)
    ensures stage == Manifest.Coding && r.Ok? ==>
      && Parsed(inp.unstaged).Ok? && Parsed(inp.staged).Ok? && NoDup(r.value)
      && forall e :: e in r.value <==>
           e in Parsed(inp.unstaged).value || e in Parsed(inp.staged).value || e in Untracked(inp.untracked)
  {
    if stage == Manifest.Coding then
      match Parsed(inp.unstaged)
      case Err(e) => Err(e)
      case Ok(u) =>
        match Parsed(inp.staged)
        case Err(e) => Err(e)
        case Ok(s) => Ok(Union(u, s, inp.untracked))
    else Parsed(inp.committed)
  }

  /** `changed_paths`: each record's display path. */
  function Displays(es: seq<Entry>): (r: seq<string>)
    ensures |r| == |es| && forall k :: 0 <= k < |es| ==> r[k] == DisplayPath(es[k])
  {
    seq(|es|, k requires 0 <= k < |es| => DisplayPath(es[k]))
  }

  /** The path new directories are looked for under: the part after the first arrow, if any. */
  function NewDirPath(display: string): string {
    match SplitOnce(display, RenameArrow)
    case Some((_, after)) => after
    case None => display
  }

  function NewDirPaths(displays: seq<string>): (r: seq<string>)
    ensures |r| == |displays| && forall k :: 0 <= k < |displays| ==> r[k] == NewDirPath(displays[k])
  {
    seq(|displays|, k requires 0 <= k < |displays| => NewDirPath(displays[k]))
  }

  // ----------------------------------------------------------- per-file checks

  /** A missing plan leaves every scope empty. */
  function PlanScopes(planText: Option<string>): Option<Plan.Scopes> {
    match planText
    case None => Some(Plan.Scopes([], [], []))
    case Some(t) => Plan.ParsePlan(t)
  }

  /**
   * The report row of a changed record: its zone is its match path's
   * zone, or the quarantine zone; with no new directory, always the
   * former. A rename is classified by its new path.
   */
  function FileOf(e: Entry, z: ZonesConfig, newDirs: set<string>): (r: ChangedFile)
    ensures r.changeType == e.change
    ensures r.zone == ZoneOf(MatchPath(e), z) || r.zone == z.newFolderZone
    ensures newDirs == {} ==> r.zone == ZoneOf(MatchPath(e), z)
    ensures e.change == "R" && e.extra.Some? && e.extra.value != "" ==>
      r.zone in {ZoneOf(e.extra.value, z), z.newFolderZone}
  {
    ChangedFile(DisplayPath(e), e.change, EffectiveZone(MatchPath(e), z, newDirs))
  }

  /** `changed_files_report`: one row per changed record, in order. */
  function ChangedFiles(es: seq<Entry>, z: ZonesConfig, newDirs: set<string>): (r: seq<ChangedFile>)
    ensures |r| == |es| && forall k :: 0 <= k < |es| ==> r[k] == FileOf(es[k], z, newDirs)
  {
    Plan.Map(es, (e: Entry) => FileOf(e, z, newDirs))
  }

  lemma ChangedFilesSnoc(es: seq<Entry>, i: nat, z: ZonesConfig, newDirs: set<string>)
    requires i < |es|
    ensures ChangedFiles(es[..i + 1], z, newDirs) == ChangedFiles(es[..i], z, newDirs) + [FileOf(es[i], z, newDirs)]
  {
    assert es[..i + 1][..i] == es[..i];
  }

  /** `[f]` when `c` holds, else nothing. */
  function When(c: bool, f: Finding): (r: seq<Finding>)
    ensures forall g :: g in r <==> c && g == f
  {
    if c then [f] else []
  }

  /**
   * The errors one changed file draws, reported under its display path:
   * outside the allow list, inside the deny list, in a zone the plan does
   * not expect.
   */
  function FileFindings(display: string, allowedOk: bool, forbiddenHit: bool, zone: string,
                        expectedZones: seq<string>): (r: seq<Finding>)
  {
    When(!allowedOk, Finding(PlanAllowedViolation, Some(display)))
    + When(forbiddenHit, Finding(PlanForbiddenViolation, Some(display)))
    + When(expectedZones != [] && zone !in expectedZones, Finding(ZoneExpectationViolation, Some(display)))
  }

  const PlanAllowedViolation: string := "PLAN_ALLOWED_VIOLATION"
  const PlanForbiddenViolation: string := "PLAN_FORBIDDEN_VIOLATION"
  const ZoneExpectationViolation: string := "ZONE_EXPECTATION_VIOLATION"
  const PerFileCodes: set<string> := {PlanAllowedViolation, PlanForbiddenViolation, ZoneExpectationViolation}

  lemma PerFileCodesDiffer()
    ensures PlanAllowedViolation != PlanForbiddenViolation
    ensures PlanAllowedViolation != ZoneExpectationViolation
    ensures PlanForbiddenViolation != ZoneExpectationViolation
  {
    assert PlanAllowedViolation[5] == 'A' && PlanForbiddenViolation[5] == 'F';
    assert ZoneExpectationViolation[0] == 'Z' && PlanAllowedViolation[0] == 'P' && PlanForbiddenViolation[0] == 'P';
  }

  /** The errors of one changed record, with the plan's globs applied to its match path. */
  function RecordFindings(e: Entry, z: ZonesConfig, newDirs: set<string>, allowed: seq<string>, sc: Plan.Scopes,
                          cls: (string, char) -> bool): seq<Finding>
  {
    FileFindings(DisplayPath(e), Plan.AnyMatch(allowed, MatchPath(e), cls), Plan.AnyMatch(sc.forbidden, MatchPath(e), cls),
                 FileOf(e, z, newDirs).zone, sc.expectedZones)
  }

  /** The per-file errors of all changed records, record by record. */
  function PlanFindings(es: seq<Entry>, z: ZonesConfig, newDirs: set<string>, allowed: seq<string>, sc: Plan.Scopes,
                        cls: (string, char) -> bool): seq<Finding>
    decreases |es|
  {
    if es == [] then []
    else
      var n := |es| - 1;
      PlanFindings(es[..n], z, newDirs, allowed, sc, cls) + RecordFindings(es[n], z, newDirs, allowed, sc, cls)
  }

  predicate TouchesYellow(files: seq<ChangedFile>) {
    exists k :: 0 <= k < |files| && files[k].zone == YellowAuto
  }

  /** YELLOW_AUTO_QUARANTINE: an error from level 2, a warning below; as (errors, warnings). */
  function YellowFindings(level: int, files: seq<ChangedFile>): (seq<Finding>, seq<Finding>) {
    if !TouchesYellow(files) then ([], [])
    else if level >= 2 then ([Finding("YELLOW_AUTO_QUARANTINE", None)], [])
    else ([], [Finding("YELLOW_AUTO_QUARANTINE", None)])
  }

  function PathsOf(files: seq<ChangedFile>): (r: seq<string>)
    ensures |r| == |files| && forall k :: 0 <= k < |files| ==> r[k] == files[k].path
  {
    seq(|files|, k requires 0 <= k < |files| => files[k].path)
  }

  // ------------------------------------------------------------------ a run

  datatype Judged = Judged(files: seq<ChangedFile>, errors: seq<Finding>, warnings: seq<Finding>)

  /** `files` has one row per record of `diff`, in order, under its display path and status. */
  predicate RowsOf(files: seq<ChangedFile>, diff: seq<Entry>) {
    && |files| == |diff|
    && forall k :: 0 <= k < |diff| ==> files[k].path == DisplayPath(diff[k]) && files[k].changeType == diff[k].change
  }

  lemma ChangedFilesRows(diff: seq<Entry>, z: ZonesConfig, newDirs: set<string>)
    ensures RowsOf(ChangedFiles(diff, z, newDirs), diff)
  {
  }

  /**
   * Everything after the changed records are known: plan and zone checks,
   * the quarantine, red operations and the manifest. `None` where a
   * configuration or the plan makes Python raise an uncaught exception.
   * The report lists one row per record; the only warning there can be is
   * the quarantine, and from level 2 on there is none.
   */
  ghost function Policy(stage: Manifest.Stage, inp: Inputs, level: int, cfgs: Configs,
                        m: Option<seq<(string, Value)>>, diff: seq<Entry>, base: string): (j: Option<Judged>)
    ensures j.Some? ==> RowsOf(j.value.files, diff)
    ensures j.Some? ==> j.value.warnings == [] || j.value.warnings == [Finding("YELLOW_AUTO_QUARANTINE", None)]
    ensures j.Some? && level >= 2 ==> j.value.warnings == []
    ensures j.Some? ==> ReadZones(cfgs.zones).Some? && PlanScopes(inp.planText).Some?
  {
    match PlanScopes(inp.planText)
    case None => None
    case Some(sc) =>
      match ReadZones(cfgs.zones)
      case None => None
      case Some(z) =>
        var newDirs := NewDirs(NewDirPaths(Displays(diff)), inp.existedAtBase);
        var files := ChangedFiles(diff, z, newDirs);
        ChangedFilesRows(diff, z, newDirs);
        match RedOps.Detected(cfgs.redOps, PathsOf(files))
        case None => None
        case Some(detected) =>
          Some(Judged(files, Errors(stage, inp, level, m, diff, base, sc, z, newDirs, files, detected),
                      Warnings(level, files)))
  }

  /** The warnings of a report: the quarantine below level 2, and nothing else. */
  function Warnings(level: int, files: seq<ChangedFile>): (w: seq<Finding>)
    ensures w == [] || w == [Finding("YELLOW_AUTO_QUARANTINE", None)]
    ensures level >= 2 ==> w == []
  {
    YellowFindings(level, files).1
  }

  /**
   * The errors of a judged change set, in report order: per file, the
   * quarantine, red operations, the manifest. Below level 3 only the
   * per-file errors and, from level 2, the quarantine error remain.
   */
  ghost function Errors(stage: Manifest.Stage, inp: Inputs, level: int, m: Option<seq<(string, Value)>>,
                        diff: seq<Entry>, base: string, sc: Plan.Scopes, z: ZonesConfig, newDirs: set<string>,
                        files: seq<ChangedFile>, detected: set<string>): (r: seq<Finding>)
    ensures level < 3 ==> forall f :: f in r ==>
      f.code in PerFileCodes || (level >= 2 && f == Finding("YELLOW_AUTO_QUARANTINE", None))
  {
    var allowed := Plan.AllowList(sc.allowed, inp.folder);
    PlanFindingsCodes(diff, z, newDirs, allowed, sc, inp.cls);
    PlanFindings(diff, z, newDirs, allowed, sc, inp.cls)
    + YellowFindings(level, files).0
    + RedOps.DeclarationFindings(level, SortedOf(detected), RedOps.Declared(m))
    + (if m.Some? && level >= 3 then Manifest.ManifestFindings(m.value, stage, z, diff, base, inp.head, SortedOf(newDirs))
       else [])
  }

  /**
   * From the SHAs on: collect and filter the changes, then apply the
   * policy. A completed report passes exactly when it lists no error, and
   * then only with exit code 0.
   */
  ghost function Collect(stage: Manifest.Stage, inp: Inputs, level: int, cfgs: Configs,
                         m: Option<seq<(string, Value)>>): (o: Outcome)
    ensures o.Completed? ==> (o.report.ok <==> o.report.errors == []) && (o.report.ok <==> o.report.exitCode == ExitPass)
  {
    var base := Manifest.BaseSha(m, inp.parentSha);
    var working := Manifest.WorkingSha(stage, m, inp.head);
    match Changes(stage, inp)
    case Err(e) => Raised(DiffMessage(e), Some(base), working)
    case Ok(all) =>
      var diff := Unignored(all, ReportPaths(inp.folder));
      if RenameWithoutNewPath(diff) then Raised(RenameMissingNewPath, Some(base), working)
      else
        match Policy(stage, inp, level, cfgs, m, diff, base)
        case None => Crashed
        case Some(j) => Completed(Report(j.errors == [], ExitCode(j.errors), Some(base), working, j.files, j.errors, j.warnings))
  }

  /**
   * `validate(repo_root, stage)`. A run completes only when the three
   * configuration files, intent.md and metadata.json are there and the
   * manifest is not broken JSON; its report then passes exactly when it
   * lists no error, and only then with exit code 0.
   */
  ghost function Validate(stage: Manifest.Stage, inp: Inputs): (o: Outcome)
    ensures o.Completed? ==> (o.report.ok <==> o.report.errors == []) && (o.report.ok <==> o.report.exitCode == ExitPass)
    ensures o.Completed? ==>
      && inp.governanceText.Some? && inp.zonesText.Some? && inp.redOpsText.Some?
      && inp.hasIntent && inp.hasMetadata && !inp.manifest.InvalidJson?
  {
    match LoadConfigs(inp)
    case Err(f) => Raised(FailureMessage(f), None, None)
    case Ok(cfgs) =>
      match GovernanceLevel(cfgs.governance)
      case None => Crashed
      case Some(level) =>
        if inp.manifest.InvalidJson? then Raised(InvalidJsonMessage(inp.folder), None, None)
        else
          var manifest := ManifestValue(inp.manifest);
          if ArtifactsBroken(level, inp, manifest) then Raised(ArtifactContractInvalid, None, None)
          else if manifest.Some? && !manifest.value.Dict? then Crashed
          else Collect(stage, inp, level, cfgs, if manifest.Some? then Some(manifest.value.entries) else None)
  }

  // --------------------------------------------------------------- methods

  method Evaluate(stage: Manifest.Stage, inp: Inputs) returns (o: Outcome)
    ensures o == Validate(stage, inp)
  {
    var cfgs := ReadConfigs(inp);
    if cfgs.Err? {
      return Raised(FailureMessage(cfgs.error), None, None);
    }
    var level := GovernanceLevel(cfgs.value.governance);
    if level.None? {
      return Crashed;
    }
    if inp.manifest.InvalidJson? {
      return Raised(InvalidJsonMessage(inp.folder), None, None);
    }
    var manifest := ManifestValue(inp.manifest);
    if ArtifactsBroken(level.value, inp, manifest) {
      return Raised(ArtifactContractInvalid, None, None);
    }
    if manifest.Some? && !manifest.value.Dict? {
      return Crashed;
    }
    o := CollectAndJudge(stage, inp, level.value, cfgs.value, if manifest.Some? then Some(manifest.value.entries) else None);
  }

  method ReadConfig(path: string, text: Option<string>) returns (r: Result<Value, ConfigFailure>)
    ensures r == LoadConfig(path, text)
  {
    if text.None? {
      return Err(Missing(path));
    }
    var v := YamlReader.LoadSimpleYaml(text.value);
    r := if v.Ok? then Ok(v.value) else Err(Malformed(v.error));
  }

  method ReadConfigs(inp: Inputs) returns (r: Result<Configs, ConfigFailure>)
    ensures r == LoadConfigs(inp)
  {
    var g := ReadConfig(GovernancePath, inp.governanceText);
    if g.Err? {
      return Err(g.error);
    }
    var z := ReadConfig(ZonesPath, inp.zonesText);
    if z.Err? {
      return Err(z.error);
    }
    var red := ReadConfig(RedOpsPath, inp.redOpsText);
    if red.Err? {
      return Err(red.error);
    }
    r := Ok(Configs(g.value, z.value, red.value));
  }

  method CollectAndJudge(stage: Manifest.Stage, inp: Inputs, level: int, cfgs: Configs,
                         m: Option<seq<(string, Value)>>) returns (o: Outcome)
    ensures o == Collect(stage, inp, level, cfgs, m)
  {
    var base := Manifest.BaseSha(m, inp.parentSha);
    var working := Manifest.WorkingSha(stage, m, inp.head);
    var all := ReadChanges(stage, inp);
    if all.Err? {
      return Raised(DiffMessage(all.error), Some(base), working);
    }
    var diff := DropReports(all.value, ReportPaths(inp.folder));
    var bad := FindRenameWithoutNewPath(diff);
    if bad {
      return Raised(RenameMissingNewPath, Some(base), working);
    }
    var j := RunPolicy(stage, inp, level, cfgs, m, diff, base);
    if j.None? {
      return Crashed;
    }
    o := Completed(Report(j.value.errors == [], ExitCode(j.value.errors), Some(base), working,
                          j.value.files, j.value.errors, j.value.warnings));
  }

  /** The loop that rejects a rename record without a new path. */
  method FindRenameWithoutNewPath(es: seq<Entry>) returns (bad: bool)
    ensures bad == RenameWithoutNewPath(es)
  {
    bad := RedOps.FirstHit(es, (e: Entry) => e.change == "R" && (e.extra.None? || e.extra.value == ""));
  }

  method ReadChanges(stage: Manifest.Stage, inp: Inputs) returns (r: Result<seq<Entry>, DiffError>)
    ensures r == Changes(stage, inp)
  {
    if stage == Manifest.Coding {
      var u := ParseNameStatusZ(inp.unstaged);
      if u.Err? {
        return Err(u.error);
      }
      var s := ParseNameStatusZ(inp.staged);
      if s.Err? {
        return Err(s.error);
      }
      r := Ok(Union(u.value, s.value, inp.untracked));
    } else {
      r := ParseNameStatusZ(inp.committed);
    }
  }

  method ReadPlan(planText: Option<string>) returns (r: Option<Plan.Scopes>)
    ensures r == PlanScopes(planText)
  {
    if planText.None? {
      return Some(Plan.Scopes([], [], []));
    }
    r := Plan.ParsePlanScopes(planText.value);
  }

  method RunPolicy(stage: Manifest.Stage, inp: Inputs, level: int, cfgs: Configs,
                   m: Option<seq<(string, Value)>>, diff: seq<Entry>, base: string) returns (r: Option<Judged>)
    ensures r == Policy(stage, inp, level, cfgs, m, diff, base)
  {
    var sc := ReadPlan(inp.planText);
    if sc.None? {
      return None;
    }
    var z := ReadZones(cfgs.zones);
    if z.None? {
      return None;
    }
    var newDirs := DetectNewDirectories(NewDirPaths(Displays(diff)), inp.existedAtBase);
    SortedOfUnique(newDirs, NewDirs(NewDirPaths(Displays(diff)), inp.existedAtBase));
    var allowed := Plan.AllowList(sc.value.allowed, inp.folder);
    var files, errors := JudgeChanges(diff, z.value, Elems(newDirs), allowed, sc.value, inp.cls);
    var yellow := YellowFindings(level, files);
    var detected := RedOps.DetectRedOps(cfgs.redOps, PathsOf(files));
    if detected.None? {
      return None;
    }
    SortedOfUnique(detected.value, RedOps.Detected(cfgs.redOps, PathsOf(files)).value);
    var red := RedOps.DeclarationFindings(level, detected.value, RedOps.Declared(m));
    var manifestErrors := [];
    if m.Some? && level >= 3 {
      manifestErrors := Manifest.CheckManifest(m.value, stage, z.value, diff, base, inp.head, newDirs);
    }
    r := Some(Judged(files, errors + yellow.0 + red + manifestErrors, yellow.1));
  }

  /** The loop over the changed records. */
  method JudgeChanges(es: seq<Entry>, z: ZonesConfig, newDirs: set<string>, allowed: seq<string>, sc: Plan.Scopes,
                      cls: (string, char) -> bool) returns (files: seq<ChangedFile>, errors: seq<Finding>)
    ensures files == ChangedFiles(es, z, newDirs)
    ensures errors == PlanFindings(es, z, newDirs, allowed, sc, cls)
  {
    files, errors := [], [];
    var prefixes := ClassifiedPrefixes(z.folderZones);
    for i := 0 to |es|
      invariant files == ChangedFiles(es[..i], z, newDirs)
      invariant errors == PlanFindings(es[..i], z, newDirs, allowed, sc, cls)
    {
      var f, errs := JudgeOne(es[i], z, newDirs, prefixes, allowed, sc, cls);
      ChangedFilesSnoc(es, i, z, newDirs);
      assert es[..i + 1][..i] == es[..i];
      files := files + [f];
      errors := errors + errs;
    }
    assert es[..|es|] == es;
  }

  /** One pass of the loop: the record's report row and its errors. */
  method JudgeOne(e: Entry, z: ZonesConfig, newDirs: set<string>, prefixes: seq<string>, allowed: seq<string>,
                  sc: Plan.Scopes, cls: (string, char) -> bool) returns (f: ChangedFile, errors: seq<Finding>)
    requires prefixes == ClassifiedPrefixes(z.folderZones)
    ensures f == FileOf(e, z, newDirs)
    ensures errors == RecordFindings(e, z, newDirs, allowed, sc, cls)
  {
    var zone := ZoneOfChange(MatchPath(e), z, newDirs, prefixes);
    f := ChangedFile(DisplayPath(e), e.change, zone);
    var allowedOk := Plan.AnyMatch(allowed, MatchPath(e), cls);
    var forbiddenHit := Plan.AnyMatch(sc.forbidden, MatchPath(e), cls);
    errors := FileFindings(f.path, allowedOk, forbiddenHit, zone, sc.expectedZones);
  }

  /** The zone of one changed path, with the quarantine applied. */
  method ZoneOfChange(path: string, z: ZonesConfig, newDirs: set<string>, prefixes: seq<string>) returns (zone: string)
    requires prefixes == ClassifiedPrefixes(z.folderZones)
    ensures zone == EffectiveZone(path, z, newDirs)
  {
    zone := ZoneForPath(path, z);
    var under := FindNewDir(RepoPaths.Dirname(RepoPaths.Normalize(path)), newDirs);
    if under && !IsUnderAnyPrefix(path, prefixes) {
      zone := z.newFolderZone;
    }
  }

  // ------------------------------------------------------ per-file findings

  /** What one record draws: each finding under its display path, each iff its own condition. */
  lemma RecordFindingsExactly(e: Entry, z: ZonesConfig, newDirs: set<string>, allowed: seq<string>, sc: Plan.Scopes,
                              cls: (string, char) -> bool)
    ensures var r := RecordFindings(e, z, newDirs, allowed, sc, cls);
      && (Finding(PlanAllowedViolation, Some(DisplayPath(e))) in r <==> !Plan.AnyMatch(allowed, MatchPath(e), cls))
      && (Finding(PlanForbiddenViolation, Some(DisplayPath(e))) in r <==> Plan.AnyMatch(sc.forbidden, MatchPath(e), cls))
      && (Finding(ZoneExpectationViolation, Some(DisplayPath(e))) in r <==>
            sc.expectedZones != [] && EffectiveZone(MatchPath(e), z, newDirs) !in sc.expectedZones)
      && (forall f :: f in r ==> f.path == Some(DisplayPath(e)) && f.code in PerFileCodes)
  {
    FileFindingsExactly(DisplayPath(e), Plan.AnyMatch(allowed, MatchPath(e), cls), Plan.AnyMatch(sc.forbidden, MatchPath(e), cls),
                        FileOf(e, z, newDirs).zone, sc.expectedZones);
  }

  lemma FileFindingsExactly(display: string, allowedOk: bool, forbiddenHit: bool, zone: string, expectedZones: seq<string>)
    ensures var r := FileFindings(display, allowedOk, forbiddenHit, zone, expectedZones);
      && (Finding(PlanAllowedViolation, Some(display)) in r <==> !allowedOk)
      && (Finding(PlanForbiddenViolation, Some(display)) in r <==> forbiddenHit)
      && (Finding(ZoneExpectationViolation, Some(display)) in r <==> expectedZones != [] && zone !in expectedZones)
      && (forall f :: f in r ==> f.path == Some(display) && f.code in PerFileCodes)
  {
    PerFileCodesDiffer();
  }

  /** A finding is among the per-file errors exactly when some record draws it. */
  lemma {:induction false} PlanFindingsExactly(es: seq<Entry>, z: ZonesConfig, newDirs: set<string>, allowed: seq<string>,
                                               sc: Plan.Scopes, cls: (string, char) -> bool, f: Finding)
    ensures f in PlanFindings(es, z, newDirs, allowed, sc, cls) <==>
      exists k :: 0 <= k < |es| && f in RecordFindings(es[k], z, newDirs, allowed, sc, cls)
    decreases |es|
  {
    if es != [] {
      var n := |es| - 1;
      PlanFindingsExactly(es[..n], z, newDirs, allowed, sc, cls, f);
      PrefixWitness(es, n, (e: Entry) => f in RecordFindings(e, z, newDirs, allowed, sc, cls));
    }
  }

  /**
   * The plan and zone errors, path by path: a display path is reported
   * outside the allow list, inside the deny list or in an unexpected zone
   * exactly when some changed record shown under it is.
   */
  lemma PerFileExactly(es: seq<Entry>, z: ZonesConfig, newDirs: set<string>, allowed: seq<string>, sc: Plan.Scopes,
                       cls: (string, char) -> bool, p: string)
    ensures var r := PlanFindings(es, z, newDirs, allowed, sc, cls);
      && (Finding(PlanAllowedViolation, Some(p)) in r <==>
            exists k :: 0 <= k < |es| && DisplayPath(es[k]) == p && !Plan.AnyMatch(allowed, MatchPath(es[k]), cls))
      && (Finding(PlanForbiddenViolation, Some(p)) in r <==>
            exists k :: 0 <= k < |es| && DisplayPath(es[k]) == p && Plan.AnyMatch(sc.forbidden, MatchPath(es[k]), cls))
      && (Finding(ZoneExpectationViolation, Some(p)) in r <==>
            exists k :: 0 <= k < |es| && DisplayPath(es[k]) == p && sc.expectedZones != [] &&
                        EffectiveZone(MatchPath(es[k]), z, newDirs) !in sc.expectedZones)
  {
    forall k | 0 <= k < |es| {
      RecordFindingsExactly(es[k], z, newDirs, allowed, sc, cls);
    }
    PlanFindingsExactly(es, z, newDirs, allowed, sc, cls, Finding(PlanAllowedViolation, Some(p)));
    PlanFindingsExactly(es, z, newDirs, allowed, sc, cls, Finding(PlanForbiddenViolation, Some(p)));
    PlanFindingsExactly(es, z, newDirs, allowed, sc, cls, Finding(ZoneExpectationViolation, Some(p)));
  }

  /** Every per-file error carries one of the three per-file codes and a changed record's display path. */
  lemma PlanFindingsShape(es: seq<Entry>, z: ZonesConfig, newDirs: set<string>, allowed: seq<string>, sc: Plan.Scopes,
                          cls: (string, char) -> bool)
    ensures forall f :: f in PlanFindings(es, z, newDirs, allowed, sc, cls) ==>
      f.code in PerFileCodes && exists k :: 0 <= k < |es| && f.path == Some(DisplayPath(es[k]))
  {
    forall f | f in PlanFindings(es, z, newDirs, allowed, sc, cls)
      ensures f.code in PerFileCodes && exists k :: 0 <= k < |es| && f.path == Some(DisplayPath(es[k]))
    {
      PlanFindingsExactly(es, z, newDirs, allowed, sc, cls, f);
      var k :| 0 <= k < |es| && f in RecordFindings(es[k], z, newDirs, allowed, sc, cls);
      RecordFindingsExactly(es[k], z, newDirs, allowed, sc, cls);
    }
  }

  lemma PlanFindingsCodes(es: seq<Entry>, z: ZonesConfig, newDirs: set<string>, allowed: seq<string>, sc: Plan.Scopes,
                          cls: (string, char) -> bool)
    ensures forall f :: f in PlanFindings(es, z, newDirs, allowed, sc, cls) ==> f.code in PerFileCodes
  {
    PlanFindingsShape(es, z, newDirs, allowed, sc, cls);
  }

  // ------------------------------------------------------------ quarantine

  /**
   * YELLOW_AUTO_QUARANTINE is reported exactly when some changed record's
   * effective zone is "yellow-auto": as an error from level 2, as a
   * warning below.
   */
  lemma YellowExactly(level: int, es: seq<Entry>, z: ZonesConfig, newDirs: set<string>)
    ensures var y := YellowFindings(level, ChangedFiles(es, z, newDirs));
      var touched := exists k :: 0 <= k < |es| && EffectiveZone(MatchPath(es[k]), z, newDirs) == YellowAuto;
      && (Finding("YELLOW_AUTO_QUARANTINE", None) in y.0 <==> touched && level >= 2)
      && (Finding("YELLOW_AUTO_QUARANTINE", None) in y.1 <==> touched && level < 2)
      && |y.0| + |y.1| <= 1
  {
    var files := ChangedFiles(es, z, newDirs);
    if exists k :: 0 <= k < |es| && EffectiveZone(MatchPath(es[k]), z, newDirs) == YellowAuto {
      var k :| 0 <= k < |es| && EffectiveZone(MatchPath(es[k]), z, newDirs) == YellowAuto;
      RowZone(es, k, z, newDirs);
    }
    if TouchesYellow(files) {
      var k :| 0 <= k < |files| && files[k].zone == YellowAuto;
      RowZone(es, k, z, newDirs);
    }
  }

  lemma RowZone(es: seq<Entry>, k: nat, z: ZonesConfig, newDirs: set<string>)
    requires k < |es|
    ensures |ChangedFiles(es, z, newDirs)| == |es|
    ensures ChangedFiles(es, z, newDirs)[k].zone == EffectiveZone(MatchPath(es[k]), z, newDirs)
  {
  }

  // ------------------------------------------------------------ whole runs

  /** The governance level of a run whose configuration files load. */
  function LevelOf(inp: Inputs): Option<int> {
    match LoadConfigs(inp)
    case Ok(cfgs) => GovernanceLevel(cfgs.governance)
    case Err(_) => None
  }

  /** A run that stops with an error reports VALIDATOR_EXCEPTION alone, no changed files and no warnings. */
  lemma RaisedReport(o: Outcome)
    requires o.Raised?
    ensures ReportOf(o).Some? && !ReportOf(o).value.ok
    ensures ReportOf(o).value.errors == [Finding("VALIDATOR_EXCEPTION", None)]
    ensures ReportOf(o).value.changedFiles == [] && ReportOf(o).value.warnings == []
    ensures ReportOf(o).value.exitCode in {ExitRoutingInvalid, ExitArtifactInvalid, ExitUnknown}
  {
  }

  /** A missing configuration file stops the run first, with exit code 20 and neither SHA known. */
  lemma MissingConfigStops(stage: Manifest.Stage, inp: Inputs, path: string)
    requires LoadConfigs(inp) == Err(Missing(path))
    ensures ReportOf(Validate(stage, inp)) ==
      Some(Report(false, ExitArtifactInvalid, None, None, [], [Finding("VALIDATOR_EXCEPTION", None)], []))
  {
    MissingConfigExit(path);
  }

  /**
   * Once the configuration loads, a missing intent.md or metadata.json,
   * or at level 3 and above a missing (or `null`) change manifest, stops
   * the run with exit code 20 before any SHA is taken.
   */
  lemma BrokenArtifactsStop(stage: Manifest.Stage, inp: Inputs)
    requires LevelOf(inp).Some? && !inp.manifest.InvalidJson?
    requires ArtifactsBroken(LevelOf(inp).value, inp, ManifestValue(inp.manifest))
    ensures ReportOf(Validate(stage, inp)) ==
      Some(Report(false, ExitArtifactInvalid, None, None, [], [Finding("VALIDATOR_EXCEPTION", None)], []))
  {
    ArtifactContractExit();
  }

  /** The same for a completed run: below level 3 its errors come from the per-file checks and the quarantine only. */
  lemma CompletedBelowLevelThree(stage: Manifest.Stage, inp: Inputs, level: int)
    requires LevelOf(inp) == Some(level) && level < 3 && Validate(stage, inp).Completed?
    ensures forall f :: f in Validate(stage, inp).report.errors ==>
      f.code in PerFileCodes || (level >= 2 && f == Finding("YELLOW_AUTO_QUARANTINE", None))
  {
    var cfgs := LoadConfigs(inp).value;
    var manifest := ManifestValue(inp.manifest);
    var m := if manifest.Some? then Some(manifest.value.entries) else None;
    CollectBelowLevelThree(stage, inp, level, cfgs, m);
  }

  lemma CollectBelowLevelThree(stage: Manifest.Stage, inp: Inputs, level: int, cfgs: Configs,
                               m: Option<seq<(string, Value)>>)
    requires level < 3 && Collect(stage, inp, level, cfgs, m).Completed?
    ensures forall f :: f in Collect(stage, inp, level, cfgs, m).report.errors ==>
      f.code in PerFileCodes || (level >= 2 && f == Finding("YELLOW_AUTO_QUARANTINE", None))
  {
  }

  /**
   * The commits a completed report names: the manifest's string
   * `base_sha`, or git's parent commit without one; HEAD after the coding
   * stage; while coding, the manifest's `working_sha` exactly when that is
   * a non-empty string.
   */
  lemma ReportedShas(stage: Manifest.Stage, inp: Inputs, level: int, cfgs: Configs,
                     m: Option<seq<(string, Value)>>)
    requires Collect(stage, inp, level, cfgs, m).Completed?
    ensures var rep := Collect(stage, inp, level, cfgs, m).report;
      && (m.Some? && Get(m.value, "base_sha").Some? && Get(m.value, "base_sha").value.Str? ==>
            rep.baseSha == Some(Get(m.value, "base_sha").value.s))
      && (m.None? ==> rep.baseSha == Some(inp.parentSha))
      && (stage != Manifest.Coding ==> rep.workingSha == Some(inp.head))
      && (stage == Manifest.Coding ==>
            (rep.workingSha.Some? <==>
               (m.Some? && Get(m.value, "working_sha").Some? &&
                Get(m.value, "working_sha").value.Str? && Get(m.value, "working_sha").value.s != "")))
  {
  }

  /**
   * The validator's own report files never show up among the changed
   * files. The filter drops a record when its path, or either path of a
   * rename, is a report file; the statement covers the rows other than
   * renames because a rename's row carries the display "old -> new"
   * rather than either of its paths.
   */
  lemma ReportsNeverJudged(stage: Manifest.Stage, inp: Inputs, level: int, cfgs: Configs,
                           m: Option<seq<(string, Value)>>)
    requires Collect(stage, inp, level, cfgs, m).Completed?
    ensures forall f :: f in Collect(stage, inp, level, cfgs, m).report.changedFiles && f.changeType != "R" ==>
      f.path !in ReportPaths(inp.folder)
  {
    var diff := Unignored(Changes(stage, inp).value, ReportPaths(inp.folder));
    var z := ReadZones(cfgs.zones).value;
    var newDirs := NewDirs(NewDirPaths(Displays(diff)), inp.existedAtBase);
    UnignoredRows(Changes(stage, inp).value, ReportPaths(inp.folder), z, newDirs);
  }

  /**
   * The rows of records that survive the filter carry no ignored path;
   * a rename's row, whose path is its display, is left aside.
   */
  lemma UnignoredRows(all: seq<Entry>, ignore: set<string>, z: ZonesConfig, newDirs: set<string>)
    ensures forall f :: f in ChangedFiles(Unignored(all, ignore), z, newDirs) && f.changeType != "R" ==> f.path !in ignore
  {
    var diff := Unignored(all, ignore);
    var files := ChangedFiles(diff, z, newDirs);
    forall f | f in files && f.changeType != "R"
      ensures f.path !in ignore
    {
      var k :| 0 <= k < |files| && files[k] == f;
      assert diff[k] in diff;
    }
  }
}
