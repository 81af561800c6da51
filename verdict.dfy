/**
 * The outcome of a validation run: findings, the exit code chosen by the
 * first matching code prefix, and the governance level read from
 * governance-config.yml.
 */
module Verdict {
  import opened Wrappers
  import opened Strs
  import opened Values

  /** A validation message without its human-readable text and details. */
  datatype Finding = Finding(code: string, path: Option<string>)

  const ExitPass: int := 0
  const ExitRoutingInvalid: int := 10
  const ExitArtifactInvalid: int := 20
  const ExitZoneViolation: int := 30
  const ExitRedOpViolation: int := 40
  const ExitPlanViolation: int := 50
  const ExitYellowAuto: int := 60
  const ExitManifestMismatch: int := 70
  const ExitUnknown: int := 80

  /** The distinct codes among the findings. */
  function Codes(errors: seq<Finding>): (r: set<string>)
    ensures r == {} <==> errors == []
  {
    var r := set k | 0 <= k < |errors| :: errors[k].code;
    assert errors != [] ==> errors[0].code in r;
    r
  }

  predicate AnyStartsWith(codes: set<string>, prefix: string) {
    exists c :: c in codes && StartsWith(c, prefix)
  }

  /** The exit code `validate` picks: 0 without errors, else the first code prefix present decides. */
  function ExitCode(errors: seq<Finding>): (code: int)
    ensures code == ExitPass <==> errors == []
    ensures code in {ExitPass, ExitArtifactInvalid, ExitZoneViolation, ExitRedOpViolation, ExitPlanViolation,
                     ExitYellowAuto, ExitManifestMismatch, ExitUnknown}
  {
    if errors == [] then ExitPass
    else
      var codes := Codes(errors);
      if AnyStartsWith(codes, "MISSING_") || "MISSING_ARTIFACT" in codes then ExitArtifactInvalid
      else if AnyStartsWith(codes, "MANIFEST_") then ExitManifestMismatch
      else if AnyStartsWith(codes, "YELLOW_AUTO") then ExitYellowAuto
      else if AnyStartsWith(codes, "RED_") then ExitRedOpViolation
      else if AnyStartsWith(codes, "ZONE_") then ExitZoneViolation
      else if AnyStartsWith(codes, "PLAN_") then ExitPlanViolation
      else ExitUnknown
  }

  /** The categories in precedence order, each with its exit code. */
  const Precedence: seq<(string, int)> := [
    ("MISSING_", ExitArtifactInvalid),
    ("MANIFEST_", ExitManifestMismatch),
    ("YELLOW_AUTO", ExitYellowAuto),
    ("RED_", ExitRedOpViolation),
    ("ZONE_", ExitZoneViolation),
    ("PLAN_", ExitPlanViolation)
  ]

  /** The exit code of the first category in `table` that some code falls in; `ExitUnknown` if none. */
  function FirstCategory(codes: set<string>, table: seq<(string, int)>): (r: int)
    ensures r == ExitUnknown || exists k :: 0 <= k < |table| && r == table[k].1 && AnyStartsWith(codes, table[k].0)
  {
    if table == [] then ExitUnknown
    else if AnyStartsWith(codes, table[0].0) then table[0].1
    else
      var r := FirstCategory(codes, table[1..]);
      assert r != ExitUnknown ==> exists k :: 0 <= k < |table| && r == table[k].1 && AnyStartsWith(codes, table[k].0) by {
        if r != ExitUnknown {
          var k :| 0 <= k < |table[1..]| && r == table[1..][k].1 && AnyStartsWith(codes, table[1..][k].0);
          assert table[k + 1] == table[1..][k];
        }
      }
      r
  }

  /** The `if/elif` chain is the precedence table read from the top. */
  lemma {:induction false} ExitCodeByPrecedence(errors: seq<Finding>)
    requires errors != []
    ensures ExitCode(errors) == FirstCategory(Codes(errors), Precedence)
  {
    var codes := Codes(errors);
    MissingArtifactIsMissing(codes);
    var t5 := [("PLAN_", ExitPlanViolation)];
    var t4 := [("ZONE_", ExitZoneViolation)] + t5;
    var t3 := [("RED_", ExitRedOpViolation)] + t4;
    var t2 := [("YELLOW_AUTO", ExitYellowAuto)] + t3;
    var t1 := [("MANIFEST_", ExitManifestMismatch)] + t2;
    assert Precedence == [("MISSING_", ExitArtifactInvalid)] + t1;
    assert t5[1..] == [] && t4[1..] == t5 && t3[1..] == t4 && t2[1..] == t3 && t1[1..] == t2 && Precedence[1..] == t1;
    assert FirstCategory(codes, t5) == if AnyStartsWith(codes, "PLAN_") then ExitPlanViolation else ExitUnknown;
    assert FirstCategory(codes, t4) == if AnyStartsWith(codes, "ZONE_") then ExitZoneViolation else FirstCategory(codes, t5);
    assert FirstCategory(codes, t3) == if AnyStartsWith(codes, "RED_") then ExitRedOpViolation else FirstCategory(codes, t4);
    assert FirstCategory(codes, t2) == if AnyStartsWith(codes, "YELLOW_AUTO") then ExitYellowAuto else FirstCategory(codes, t3);
    assert FirstCategory(codes, t1) == if AnyStartsWith(codes, "MANIFEST_") then ExitManifestMismatch else FirstCategory(codes, t2);
    assert FirstCategory(codes, Precedence) == if AnyStartsWith(codes, "MISSING_") then ExitArtifactInvalid else FirstCategory(codes, t1);
  }

  /** The separate test for "MISSING_ARTIFACT" never decides anything: that code already starts with "MISSING_". */
  lemma MissingArtifactIsMissing(codes: set<string>)
    ensures "MISSING_ARTIFACT" in codes ==> AnyStartsWith(codes, "MISSING_")
  {
    if "MISSING_ARTIFACT" in codes {
      assert StartsWith("MISSING_ARTIFACT", "MISSING_");
    }
  }

  /** The exit code depends only on which codes occur, not on their order or repetition. */
  lemma ExitCodeOfSameCodes(a: seq<Finding>, b: seq<Finding>)
    requires Codes(a) == Codes(b)
    ensures ExitCode(a) == ExitCode(b)
  {
  }

  /** A finding whose code starts with "MISSING_" decides the exit code whatever else was found. */
  lemma MissingDominates(errors: seq<Finding>, k: int)
    requires 0 <= k < |errors| && StartsWith(errors[k].code, "MISSING_")
    ensures ExitCode(errors) == ExitArtifactInvalid
  {
    assert errors[k].code in Codes(errors);
  }

  /** A code outside every category gives the unknown exit code only when nothing else is present. */
  lemma UnknownOnlyAlone(errors: seq<Finding>)
    requires errors != []
    ensures ExitCode(errors) == ExitUnknown <==> forall k :: 0 <= k < |Precedence| ==> !AnyStartsWith(Codes(errors), Precedence[k].0)
  {
    var codes := Codes(errors);
    MissingArtifactIsMissing(codes);
    if ExitCode(errors) == ExitUnknown {
      forall k | 0 <= k < |Precedence| ensures !AnyStartsWith(codes, Precedence[k].0) {
        assert k == 0 || k == 1 || k == 2 || k == 3 || k == 4 || k == 5;
      }
    } else {
      assert exists k :: 0 <= k < |Precedence| && AnyStartsWith(codes, Precedence[k].0) by {
        if AnyStartsWith(codes, "MISSING_") {
          assert AnyStartsWith(codes, Precedence[0].0);
        } else if AnyStartsWith(codes, "MANIFEST_") {
          assert AnyStartsWith(codes, Precedence[1].0);
        } else if AnyStartsWith(codes, "YELLOW_AUTO") {
          assert AnyStartsWith(codes, Precedence[2].0);
        } else if AnyStartsWith(codes, "RED_") {
          assert AnyStartsWith(codes, Precedence[3].0);
        } else if AnyStartsWith(codes, "ZONE_") {
          assert AnyStartsWith(codes, Precedence[4].0);
        } else {
          assert AnyStartsWith(codes, Precedence[5].0);
        }
      }
    }
  }

  // ------------------------------------------------------ governance level

  /**
   * `_read_governance_level`: the first of "governance_level" and "level"
   * that is present decides; a value `int()` rejects gives 1, without
   * looking at the other key; neither key gives 1. On a list or string the
   * membership test may succeed but the lookup fails, which also gives 1.
   * `None` where the membership test itself raises.
   */
  function GovernanceLevel(cfg: Value): (r: Option<int>)
    ensures r.None? <==> cfg.Null? || cfg.Bool? || cfg.Int?
    ensures cfg.List? || cfg.Str? ==> r == Some(1)
  {
    match cfg
    case Dict(es) =>
      if HasKey(es, "governance_level") then Some(PyInt(Get(es, "governance_level").value).GetOr(1))
      else if HasKey(es, "level") then Some(PyInt(Get(es, "level").value).GetOr(1))
      else Some(1)
    case List(_) => Some(1)
    case Str(_) => Some(1)
    case _ => None
  }

  /** A "governance_level" key that is present settles the level, even when it is not a number and "level" is. */
  lemma GovernanceLevelFirstKeyWins(es: seq<(string, Value)>, v: Value, w: Value)
    requires Get(es, "governance_level") == Some(v) && Get(es, "level") == Some(w)
    ensures GovernanceLevel(Dict(es)) == Some(if PyInt(v).Some? then PyInt(v).value else 1)
  {
  }

  /** An integer level written as decimal text reads back as that integer. */
  lemma GovernanceLevelOfText(es: seq<(string, Value)>, n: int)
    requires Get(es, "governance_level") == Some(Str(IntToDec(n)))
    ensures GovernanceLevel(Dict(es)) == Some(n)
  {
    PyIntOfDecimal(n);
  }
}
