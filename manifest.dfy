/**
 * The reconciliation of change-manifest.json with what the validator sees
 * itself, run at governance level 3 and above: the schema version, the
 * `changed_files` list against the diff and the zone map, the base and
 * working commits, and the new directories.
 */
module Manifest {
  import opened Wrappers
  import opened Strs
  import opened Ordering
  import opened Values
  import opened RepoPaths
  import opened Diff
  import opened Zones
  import opened Verdict

  /** The stage `validate` runs at: the worktree while coding, a commit range afterwards. */
  datatype Stage = Coding | Verification | Ci

  const SchemaVersion: string := "change_manifest.v1"

  // ---------------------------------------------------------------- commits

  /** The base commit: the manifest's `base_sha` when it is a string, else the commit git names. */
  function BaseSha(manifest: Option<seq<(string, Value)>>, fromGit: string): (r: string)
    ensures manifest.Some? && Get(manifest.value, "base_sha").Some? && Get(manifest.value, "base_sha").value.Str? ==>
      r == Get(manifest.value, "base_sha").value.s
    ensures manifest.None? || Get(manifest.value, "base_sha").None? || !Get(manifest.value, "base_sha").value.Str? ==>
      r == fromGit
  {
    if manifest.Some? then
      match Get(manifest.value, "base_sha")
      case Some(Str(s)) => s
      case _ => fromGit
    else fromGit
  }

  /**
   * The working commit reported: while coding, the manifest's `working_sha`
   * when it is a non-empty string, else none; at the later stages HEAD.
   */
  function WorkingSha(stage: Stage, manifest: Option<seq<(string, Value)>>, head: string): (r: Option<string>)
    ensures stage != Coding ==> r == Some(head)
    ensures stage == Coding && r.Some? ==> manifest.Some? && Get(manifest.value, "working_sha") == Some(Str(r.value)) && r.value != ""
    ensures (stage == Coding && manifest.Some? && Get(manifest.value, "working_sha").Some? &&
             Get(manifest.value, "working_sha").value.Str? && Get(manifest.value, "working_sha").value.s != "") ==> r.Some?
  {
    if stage != Coding then Some(head)
    else if manifest.None? then None
    else
      match Get(manifest.value, "working_sha")
      case Some(Str(s)) => if s != "" then Some(s) else None
      case _ => None
  }

  // ---------------------------------------------------------- changed_files

  /** What one item of `changed_files` gives: nothing, a rename without an arrow, or a record with its zone verdict. */
  datatype Item = Skipped | RenameWithoutArrow(path: string) | Record(entry: Entry, zoneMismatch: bool)

  /** A `zone_expected` that is present, not null, and not the zone the map gives. */
  predicate ZoneMismatch(item: seq<(string, Value)>, zone: string) {
    Get(item, "zone_expected").Some? && !Get(item, "zone_expected").value.Null? && PyStr(Get(item, "zone_expected").value) != zone
  }

  /**
   * One item: skipped unless it is a mapping whose `path` is a string; a
   * rename ("R") must read "old -> new" and keeps both sides stripped, and
   * its zone is that of the new path; any other change type keeps the
   * normalised path. Zones here ignore the new-folder quarantine.
   */
  function ReadItem(item: Value, z: ZonesConfig): (r: Item)
    ensures r.Record? ==> (r.entry.extra.Some? <==> r.entry.change == "R")
    ensures r.RenameWithoutArrow? ==> !Contains(r.path, RenameArrow)
  {
    match item
    case Dict(es) =>
      var ct := PyStr(Get(es, "change_type").GetOr(Null));
      (match Get(es, "path")
       case Some(Str(p)) =>
         var pn := Normalize(p);
         if ct == "R" then
           match SplitOnce(pn, RenameArrow)
           case None => RenameWithoutArrow(pn)
           case Some((before, after)) =>
             Record(Entry("R", Strip(before), Some(Strip(after))), ZoneMismatch(es, ZoneOf(Strip(after), z)))
         else Record(Entry(ct, pn, None), ZoneMismatch(es, ZoneOf(pn, z)))
       case _ => Skipped)
    case _ => Skipped
  }

  /** The records, the arrow-less rename paths, and whether any zone mismatched, over all items. */
  datatype Reading = Reading(records: seq<Entry>, badRenames: seq<string>, zoneMismatch: bool)

  function Absorb(acc: Reading, it: Item): Reading {
    match it
    case Skipped => acc
    case RenameWithoutArrow(p) => acc.(badRenames := acc.badRenames + [p])
    case Record(e, mismatch) => acc.(records := acc.records + [e], zoneMismatch := acc.zoneMismatch || mismatch)
  }

  /** The items read in order; a zone mismatch is only ever found on a record. */
  function ReadItems(items: seq<Value>, z: ZonesConfig): (r: Reading)
    ensures r.zoneMismatch ==> r.records != []
    decreases |items|
  {
    if items == [] then Reading([], [], false)
    else
      var n := |items| - 1;
      Absorb(ReadItems(items[..n], z), ReadItem(items[n], z))
  }

  /** Each item yields at most one record or one arrow-less rename. */
  lemma {:induction false} ReadItemsCount(items: seq<Value>, z: ZonesConfig)
    ensures |ReadItems(items, z).records| + |ReadItems(items, z).badRenames| <= |items|
    decreases |items|
  {
    if items != [] {
      ReadItemsCount(items[..|items| - 1], z);
    }
  }

  /** One error per rename without an arrow, carrying its path. */
  function RenameFindings(paths: seq<string>): (r: seq<Finding>)
    ensures |r| == |paths| && forall k :: 0 <= k < |r| ==> r[k] == Finding("MANIFEST_RENAME", Some(paths[k]))
    ensures forall f :: f in r ==> f.code == "MANIFEST_RENAME" && f.path.Some?
    ensures forall p :: Finding("MANIFEST_RENAME", Some(p)) in r <==> p in paths
  {
    var r := seq(|paths|, k requires 0 <= k < |paths| => Finding("MANIFEST_RENAME", Some(paths[k])));
    assert forall p :: p in paths ==> Finding("MANIFEST_RENAME", Some(p)) in r by {
      forall p | p in paths ensures Finding("MANIFEST_RENAME", Some(p)) in r {
        var j :| 0 <= j < |paths| && paths[j] == p;
        assert r[j] == Finding("MANIFEST_RENAME", Some(p));
      }
    }
    r
  }

  /** The `changed_files` checks. */
  function FilesFindings(m: seq<(string, Value)>, z: ZonesConfig, diff: seq<Entry>): (r: seq<Finding>)
    ensures Finding("MANIFEST_FORMAT", None) in r <==> !IsList(Get(m, "changed_files"))
    ensures Finding("MANIFEST_ZONE_MISMATCH", None) in r <==>
      IsList(Get(m, "changed_files")) && ReadItems(Get(m, "changed_files").value.items, z).zoneMismatch
    ensures Finding("MANIFEST_DIFF_MISMATCH", None) in r <==>
      IsList(Get(m, "changed_files")) && multiset(ReadItems(Get(m, "changed_files").value.items, z).records) != multiset(diff)
  {
    match Get(m, "changed_files")
    case Some(List(items)) => ReadingFindings(ReadItems(items, z), diff)
    case _ => [Finding("MANIFEST_FORMAT", None)]
  }

  /**
   * The errors drawn from the items read: one per arrow-less rename, in
   * order, then a zone mismatch, then a difference from the diff records.
   */
  function ReadingFindings(rd: Reading, diff: seq<Entry>): (r: seq<Finding>)
    ensures forall p :: Finding("MANIFEST_RENAME", Some(p)) in r <==> p in rd.badRenames
    ensures Finding("MANIFEST_FORMAT", None) !in r
    ensures Finding("MANIFEST_ZONE_MISMATCH", None) in r <==> rd.zoneMismatch
    ensures Finding("MANIFEST_DIFF_MISMATCH", None) in r <==> multiset(rd.records) != multiset(diff)
  {
    SortedRecordsEqualIff(rd.records, diff);
    RenameFindings(rd.badRenames) + ZoneAndDiffFindings(rd, diff)
  }

  /** The zone and diff checks over the records read; the diff check compares both sorted. */
  function ZoneAndDiffFindings(rd: Reading, diff: seq<Entry>): (r: seq<Finding>)
    ensures forall f :: f in r ==> f.path.None? && f.code != "MANIFEST_FORMAT"
    ensures Finding("MANIFEST_ZONE_MISMATCH", None) in r <==> rd.zoneMismatch
    ensures Finding("MANIFEST_DIFF_MISMATCH", None) in r <==> SortRecords(rd.records) != SortRecords(diff)
  {
    (if rd.zoneMismatch then [Finding("MANIFEST_ZONE_MISMATCH", None)] else [])
    + (if SortRecords(rd.records) != SortRecords(diff) then [Finding("MANIFEST_DIFF_MISMATCH", None)] else [])
  }

  predicate IsList(v: Option<Value>) { v.Some? && v.value.List? }

  // ---------------------------------------------------------------- the rest

  /** The commit checks: `base_sha` against the base in use, and at the later stages `working_sha` against HEAD. */
  function ShaFindings(m: seq<(string, Value)>, stage: Stage, baseSha: string, head: string): (r: seq<Finding>)
    ensures Finding("MANIFEST_BASE_SHA_MISMATCH", None) in r <==>
      Get(m, "base_sha").Some? && Get(m, "base_sha").value.Str? && Get(m, "base_sha").value.s != baseSha
    ensures Finding("MANIFEST_WORKING_SHA_MISSING", None) in r <==>
      stage != Coding && (Get(m, "working_sha").None? || Get(m, "working_sha") == Some(Null))
    ensures Finding("MANIFEST_WORKING_SHA_MISMATCH", None) in r <==>
      stage != Coding && Get(m, "working_sha").Some? && Get(m, "working_sha").value.Str? && Get(m, "working_sha").value.s != head
  {
    var base := match Get(m, "base_sha")
      case Some(Str(s)) => if s != baseSha then [Finding("MANIFEST_BASE_SHA_MISMATCH", None)] else []
      case _ => [];
    var working := if stage == Coding then [] else
      match Get(m, "working_sha")
      case None => [Finding("MANIFEST_WORKING_SHA_MISSING", None)]
      case Some(Null) => [Finding("MANIFEST_WORKING_SHA_MISSING", None)]
      case Some(Str(s)) => if s != head then [Finding("MANIFEST_WORKING_SHA_MISMATCH", None)] else []
      case _ => [];
    base + working
  }

  /** `_normalize_repo_path(str(x))` for each declared new path. */
  function NormalizedStrs(xs: seq<Value>): (r: seq<string>)
    ensures |r| == |xs| && forall k :: 0 <= k < |xs| ==> r[k] == Normalize(PyStr(xs[k]))
  {
    seq(|xs|, k requires 0 <= k < |xs| => Normalize(PyStr(xs[k])))
  }

  /** A `new_paths` list, normalised, deduplicated and sorted, against the detected new directories. */
  function NewPathsFindings(m: seq<(string, Value)>, newDirs: seq<string>): (r: seq<Finding>) {
    match Get(m, "new_paths")
    case Some(List(xs)) => if SortedSet(NormalizedStrs(xs)) != newDirs then [Finding("MANIFEST_NEW_PATHS_MISMATCH", None)] else []
    case _ => []
  }

  /**
   * Every manifest check, in the order `validate` makes them. A manifest
   * that draws no error has the current schema version and a list of
   * changed files whose records are in their zones and are, counted, the
   * records of the diff.
   */
  function ManifestFindings(m: seq<(string, Value)>, stage: Stage, z: ZonesConfig, diff: seq<Entry>,
                            baseSha: string, head: string, newDirs: seq<string>): (r: seq<Finding>)
    ensures Get(m, "artifact_schema_version") != Some(Str(SchemaVersion)) ==> Finding("MANIFEST_SCHEMA", None) in r
    ensures r == [] ==>
      && IsList(Get(m, "changed_files"))
      && !ReadItems(Get(m, "changed_files").value.items, z).zoneMismatch
      && multiset(ReadItems(Get(m, "changed_files").value.items, z).records) == multiset(diff)
  {
    (if Get(m, "artifact_schema_version") != Some(Str(SchemaVersion)) then [Finding("MANIFEST_SCHEMA", None)] else [])
    + FilesFindings(m, z, diff) + ShaFindings(m, stage, baseSha, head) + NewPathsFindings(m, newDirs)
  }

  // ------------------------------------------------------------------ lemmas

  /**
   * The base-commit check can never fire: the base in use is the
   * manifest's own `base_sha` whenever that is a string.
   */
  lemma BaseShaNeverMismatches(m: seq<(string, Value)>, stage: Stage, fromGit: string, head: string)
    ensures Finding("MANIFEST_BASE_SHA_MISMATCH", None) !in ShaFindings(m, stage, BaseSha(Some(m), fromGit), head)
  {
  }

  /** Against an ordered, duplicate-free list of new directories, the check compares the two sets. */
  lemma NewPathsExactly(m: seq<(string, Value)>, newDirs: seq<string>)
    requires SortedBy(newDirs, StrOrder()) && NoDup(newDirs)
    ensures Finding("MANIFEST_NEW_PATHS_MISMATCH", None) in NewPathsFindings(m, newDirs) <==>
      IsList(Get(m, "new_paths")) && Elems(NormalizedStrs(Get(m, "new_paths").value.items)) != Elems(newDirs)
  {
    if IsList(Get(m, "new_paths")) {
      var ns := NormalizedStrs(Get(m, "new_paths").value.items);
      if Elems(ns) == Elems(newDirs) {
        StrOrderIsTotalOrder();
        SortedSetUnique(SortedSet(ns), newDirs, StrOrder());
      }
    }
  }

  /** A zone mismatch is reported exactly when some item is a record whose zone mismatched. */
  lemma {:induction false} ZoneMismatchExactly(items: seq<Value>, z: ZonesConfig)
    ensures ReadItems(items, z).zoneMismatch <==>
      exists k :: 0 <= k < |items| && ReadItem(items[k], z).Record? && ReadItem(items[k], z).zoneMismatch
    decreases |items|
  {
    if items != [] {
      var n := |items| - 1;
      ZoneMismatchExactly(items[..n], z);
      PrefixWitness(items, n, x => ReadItem(x, z).Record? && ReadItem(x, z).zoneMismatch);
    }
  }

  /** A path is among the arrow-less renames exactly when some item is such a rename with that path. */
  lemma {:induction false} BadRenamesExactly(items: seq<Value>, z: ZonesConfig, p: string)
    ensures p in ReadItems(items, z).badRenames <==>
      exists k :: 0 <= k < |items| && ReadItem(items[k], z) == RenameWithoutArrow(p)
    decreases |items|
  {
    if items != [] {
      var n := |items| - 1;
      BadRenamesExactly(items[..n], z, p);
      PrefixWitness(items, n, x => ReadItem(x, z) == RenameWithoutArrow(p));
    }
  }

  /** A "R" item whose normalised path has no " -> " is read as an arrow-less rename. */
  lemma RenameItemWithoutArrow(es: seq<(string, Value)>, z: ZonesConfig, p: string)
    requires Get(es, "change_type") == Some(Str("R")) && Get(es, "path") == Some(Str(p))
    requires !Contains(Normalize(p), RenameArrow)
    ensures ReadItem(Dict(es), z) == RenameWithoutArrow(Normalize(p))
  {
    PyStrOfScalars("R", 0);
  }

  /**
   * MANIFEST_RENAME is reported under a path exactly when some item of a
   * `changed_files` list is a rename without an arrow under that path.
   */
  lemma RenameReportedExactly(m: seq<(string, Value)>, z: ZonesConfig, diff: seq<Entry>, p: string)
    requires IsList(Get(m, "changed_files"))
    ensures Finding("MANIFEST_RENAME", Some(p)) in FilesFindings(m, z, diff) <==>
      exists k :: 0 <= k < |Get(m, "changed_files").value.items| &&
        ReadItem(Get(m, "changed_files").value.items[k], z) == RenameWithoutArrow(p)
  {
    BadRenamesExactly(Get(m, "changed_files").value.items, z, p);
  }

  /** Every record keeps a new path exactly when it is a rename. */
  lemma {:induction false} RecordsKeepNewPathOfRenames(items: seq<Value>, z: ZonesConfig)
    ensures forall e :: e in ReadItems(items, z).records ==> (e.extra.Some? <==> e.change == "R")
    decreases |items|
  {
    if items != [] {
      RecordsKeepNewPathOfRenames(items[..|items| - 1], z);
    }
  }

  // -------------------------------------------------------------- round trip

  /** A path the manifest can state as it stands: clean for git, and with no blank at either end. */
  predicate Unpadded(p: string) {
    CleanPath(p) && !IsSpace(p[0]) && !IsSpace(p[|p| - 1])
  }

  /** A diff record a manifest can restate: a clean path, and for a rename a clean new path after an old path with no arrow. */
  predicate Restatable(e: Entry) {
    && Unpadded(e.path)
    && (e.change == "R" ==> e.extra.Some? && Unpadded(e.extra.value) && !Contains(e.path + " ->", RenameArrow))
    && (e.change != "R" ==> e.extra.None?)
  }

  /** The manifest item that restates a diff record: its change type and display path, no zone claim. */
  function ItemOf(e: Entry): Value {
    Dict([("change_type", Str(e.change)), ("path", Str(DisplayPath(e)))])
  }

  function ItemsOf(es: seq<Entry>): (r: seq<Value>)
    ensures |r| == |es| && forall k :: 0 <= k < |es| ==> r[k] == ItemOf(es[k])
  {
    seq(|es|, k requires 0 <= k < |es| => ItemOf(es[k]))
  }

  /** Restating a record as an item reads back as that record, with no zone mismatch. */
  lemma ReadItemOf(e: Entry, z: ZonesConfig)
    requires Restatable(e)
    ensures ReadItem(ItemOf(e), z) == Record(e, false)
  {
    var es := [("change_type", Str(e.change)), ("path", Str(DisplayPath(e)))];
    ItemFields(e.change, DisplayPath(e));
    if e.change == "R" {
      var before, after := e.path, e.extra.value;
      RenamePathClean(before, after);
      SplitAtArrow(before, after);
      StripKeeps(before);
      StripKeeps(after);
    } else {
      NormalizeKeepsCleanPath(e.path);
    }
  }

  lemma ItemFields(ct: string, p: string)
    ensures var es := [("change_type", Str(ct)), ("path", Str(p))];
      Get(es, "change_type") == Some(Str(ct)) && Get(es, "path") == Some(Str(p)) && Get(es, "zone_expected").None?
  {
  }

  /** "old -> new" is left alone by normalisation when the old path is. */
  lemma RenamePathClean(before: string, after: string)
    requires CleanPath(before) && CleanPath(after)
    ensures Normalize(before + RenameArrow + after) == before + RenameArrow + after
  {
    var p := before + RenameArrow + after;
    assert '\\' !in p by {
      assert forall i :: 0 <= i < |p| ==> p[i] in before || p[i] in RenameArrow || p[i] in after;
    }
    assert !StartsWith(p, "./") by {
      if |before| == 1 {
        assert p[1] == ' ';
      } else {
        assert p[..2] == before[..2];
      }
    }
    assert !StartsWith(p, "/") by {
      assert p[0] == before[0];
    }
    NormalizeKeepsCleanPath(p);
  }

  /** A manifest whose items restate the diff reads back as exactly the diff's records. */
  lemma {:induction false} ReadItemsOf(es: seq<Entry>, z: ZonesConfig)
    requires forall k :: 0 <= k < |es| ==> Restatable(es[k])
    ensures ReadItems(ItemsOf(es), z) == Reading(es, [], false)
    decreases |es|
  {
    if es != [] {
      var n := |es| - 1;
      assert ItemsOf(es)[..n] == ItemsOf(es[..n]);
      ReadItemsOf(es[..n], z);
      ReadItemOf(es[n], z);
      DropLastAppend(es);
    }
  }

  /** A `changed_files` list that restates the diff passes every `changed_files` check. */
  lemma RestatedDiffPasses(m: seq<(string, Value)>, z: ZonesConfig, diff: seq<Entry>)
    requires forall k :: 0 <= k < |diff| ==> Restatable(diff[k])
    requires Get(m, "changed_files") == Some(List(ItemsOf(diff)))
    ensures FilesFindings(m, z, diff) == []
  {
    ReadItemsOf(diff, z);
    SortedRecordsEqualIff(diff, diff);
  }

  // ----------------------------------------------------------------- methods

  /** The loop over `changed_files`. */
  method ReconcileItems(items: seq<Value>, z: ZonesConfig) returns (records: seq<Entry>, badRenames: seq<string>, zoneMismatch: bool)
    ensures Reading(records, badRenames, zoneMismatch) == ReadItems(items, z)
  {
    records, badRenames, zoneMismatch := [], [], false;
    for i := 0 to |items|
      invariant Reading(records, badRenames, zoneMismatch) == ReadItems(items[..i], z)
    {
      assert items[..i + 1][..i] == items[..i] && items[..i + 1][i] == items[i];
      match ReadItem(items[i], z)
      case Skipped =>
      case RenameWithoutArrow(p) =>
        badRenames := badRenames + [p];
      case Record(e, mismatch) =>
        records := records + [e];
        zoneMismatch := zoneMismatch || mismatch;
    }
    assert items[..|items|] == items;
  }

  /** The `changed_files` block. */
  method CheckFiles(m: seq<(string, Value)>, z: ZonesConfig, diff: seq<Entry>) returns (errors: seq<Finding>)
    ensures errors == FilesFindings(m, z, diff)
  {
    var files := Get(m, "changed_files");
    if files.Some? && files.value.List? {
      var records, badRenames, zoneMismatch := ReconcileItems(files.value.items, z);
      var tail := [];
      if zoneMismatch {
        tail := [Finding("MANIFEST_ZONE_MISMATCH", None)];
      }
      if SortRecords(records) != SortRecords(diff) {
        tail := tail + [Finding("MANIFEST_DIFF_MISMATCH", None)];
      }
      assert tail == ZoneAndDiffFindings(Reading(records, badRenames, zoneMismatch), diff);
      errors := RenameFindings(badRenames) + tail;
    } else {
      errors := [Finding("MANIFEST_FORMAT", None)];
    }
  }

  /** The manifest block of `validate`, run when a manifest is present at level 3 and above. */
  method CheckManifest(m: seq<(string, Value)>, stage: Stage, z: ZonesConfig, diff: seq<Entry>,
                       baseSha: string, head: string, newDirs: seq<string>) returns (errors: seq<Finding>)
    ensures errors == ManifestFindings(m, stage, z, diff, baseSha, head, newDirs)
  {
    errors := [];
    if Get(m, "artifact_schema_version") != Some(Str(SchemaVersion)) {
      errors := [Finding("MANIFEST_SCHEMA", None)];
    }
    var files := CheckFiles(m, z, diff);
    errors := errors + files + ShaFindings(m, stage, baseSha, head) + NewPathsFindings(m, newDirs);
  }
}
