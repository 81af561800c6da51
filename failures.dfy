/**
 * `TyrValidatorError`: the errors that stop a run, their messages, and the
 * handler in `validate` that turns a message into an exit code by the
 * words it contains.
 */
module Failures {
  import opened Wrappers
  import opened Strs
  import opened Verdict
  import Yaml
  import Diff

  const GovernancePath: string := ".id-sdlc/governance-config.yml"
  const ZonesPath: string := ".id-sdlc/zones.yml"
  const RedOpsPath: string := ".id-sdlc/red_operations.yml"
  const ArtifactContractInvalid: string := "Artifact contract invalid"
  const RenameMissingNewPath: string := "Rename diff entry missing new path"

  /** Why a configuration file could not be read. */
  datatype ConfigFailure = Missing(path: string) | Malformed(error: Yaml.YamlError)

  function MissingYamlMessage(path: string): string {
    "Missing required YAML file: " + path
  }

  function InvalidJsonMessage(folder: string): string {
    "Invalid JSON in .id-sdlc/intent/" + folder + "/change-manifest.json"
  }

  function YamlMessage(e: Yaml.YamlError): string {
    match e
    case TabIndent => "Tabs are not supported in YAML"
    case BadIndentation => "Invalid YAML indentation"
    case NotKeyValue(None) => "Expected key: value"
    case NotKeyValue(Some(line)) => "Expected key: value, got: " + line
  }

  function FailureMessage(f: ConfigFailure): string {
    match f
    case Missing(path) => MissingYamlMessage(path)
    case Malformed(e) => YamlMessage(e)
  }

  function DiffMessage(e: Diff.DiffError): string {
    match e
    case BadFormat => "Unexpected git diff -z format"
    case BadRename => "Unexpected rename format"
  }

  /** Python's `phrase in msg` on strings. */
  predicate Mentions(msg: string, phrase: string) {
    exists j: nat | j <= |msg| :: OccursAt(msg, phrase, j)
  }

  /** The handler's exit code for a `TyrValidatorError`, chosen by the words in its message. */
  function ExceptionExit(msg: string): (code: int)
    ensures code in {ExitRoutingInvalid, ExitArtifactInvalid, ExitUnknown}
  {
    if Mentions(msg, "current-intent") || Mentions(msg, "Active intent folder") then ExitRoutingInvalid
    else if Mentions(msg, "Artifact contract") || Mentions(msg, "Missing required") then ExitArtifactInvalid
    else ExitUnknown
  }

  // ------------------------------------------------------------- phrases

  /** A string that lacks a character of `t` does not contain `t`. */
  lemma AbsentChar(s: string, t: string, c: char)
    requires c in t && c !in s
    ensures !Mentions(s, t)
  {
    forall j: nat | j <= |s|
      ensures !OccursAt(s, t, j)
    {
      if j + |t| <= |s| {
        var i :| 0 <= i < |t| && t[i] == c;
        assert s[j..j + |t|][i] == s[j + i];
      }
    }
  }

  /**
   * `t` occurs in `p + q` neither inside `p` (which lacks `cp`), nor inside
   * `q` (which lacks `cq`), nor across the seam (`q` starts with a
   * character `t` lacks).
   */
  lemma AbsentAcross(p: string, q: string, t: string, cp: char, cq: char)
    requires cp in t && cp !in p && cq in t && cq !in q && q != [] && q[0] !in t
    ensures !Mentions(p + q, t)
  {
    forall j: nat | j <= |p + q|
      ensures !OccursAt(p + q, t, j)
    {
      NotAt(p, q, t, cp, cq, j);
    }
  }

  /** The mismatch that rules out an occurrence of `t` at offset `j` of `p + q`. */
  lemma NotAt(p: string, q: string, t: string, cp: char, cq: char, j: nat)
    requires cp in t && cp !in p && cq in t && cq !in q && q != [] && q[0] !in t
    ensures !OccursAt(p + q, t, j)
  {
    var s := p + q;
    if j + |t| <= |s| {
      if j + |t| <= |p| {
        var i :| 0 <= i < |t| && t[i] == cp;
        assert s[j..j + |t|][i] == p[j + i];
      } else if j >= |p| {
        var i :| 0 <= i < |t| && t[i] == cq;
        assert s[j..j + |t|][i] == q[j + i - |p|];
      } else {
        assert s[j..j + |t|][|p| - j] == q[0];
      }
    }
  }

  lemma MentionedInSuffix(p: string, q: string, t: string)
    requires Mentions(q, t)
    ensures Mentions(p + q, t)
  {
    var j: nat :| j <= |q| && OccursAt(q, t, j);
    assert (p + q)[|p| + j..|p| + j + |t|] == q[j..j + |t|];
    assert OccursAt(p + q, t, |p| + j);
  }

  /** A message without the routing words that starts with an artifact phrase gives exit code 20. */
  lemma ArtifactExitBy(msg: string, cRouting: char, cActive: char)
    requires cRouting in "current-intent" && cRouting !in msg
    requires cActive in "Active intent folder" && cActive !in msg
    requires OccursAt(msg, "Artifact contract", 0) || OccursAt(msg, "Missing required", 0)
    ensures ExceptionExit(msg) == ExitArtifactInvalid
  {
    AbsentChar(msg, "current-intent", cRouting);
    AbsentChar(msg, "Active intent folder", cActive);
  }

  // ---------------------------------------------------------- exit codes
  // Each message is told apart from the four phrases by a character it
  // lacks; the character facts are stated on their own, one message at a time.

  lemma PhraseChars()
    ensures 'u' in "current-intent" && 't' in "current-intent"
    ensures 'e' in "Active intent folder" && 'v' in "Active intent folder" && 't' in "Active intent folder"
  {
  }

  lemma ArtifactMessageChars()
    ensures 'u' !in ArtifactContractInvalid && 'e' !in ArtifactContractInvalid
    ensures OccursAt(ArtifactContractInvalid, "Artifact contract", 0)
  {
  }

  /** "Artifact contract invalid" ends the run with exit code 20. */
  lemma ArtifactContractExit()
    ensures ExceptionExit(ArtifactContractInvalid) == ExitArtifactInvalid
  {
    PhraseChars();
    ArtifactMessageChars();
    ArtifactExitBy(ArtifactContractInvalid, 'u', 'e');
  }

  lemma MissingPrefixChars()
    ensures 't' !in "Missing required YAML file: " && 'v' !in "Missing required YAML file: "
    ensures OccursAt("Missing required YAML file: ", "Missing required", 0)
  {
  }

  lemma GovernancePathChars()
    ensures 'u' !in GovernancePath && 't' !in GovernancePath && GovernancePath[0] == '.'
  {
  }

  lemma ZonesPathChars()
    ensures 'u' !in ZonesPath && 'v' !in ZonesPath && ZonesPath[0] == '.'
  {
  }

  lemma RedOpsPathChars()
    ensures 'u' !in RedOpsPath && 'v' !in RedOpsPath && RedOpsPath[0] == '.'
  {
  }

  lemma PrefixOccurs(p: string, q: string, t: string)
    requires OccursAt(p, t, 0)
    ensures OccursAt(p + q, t, 0)
  {
    assert (p + q)[..|t|] == p[..|t|];
  }

  /**
   * A message made of a prefix that starts with "Missing required" and
   * lacks 't' and 'v', followed by a path that starts with '.' and lacks
   * 'u' and one more character of "Active intent folder", gives exit code 20.
   */
  lemma MissingExitBy(p: string, path: string, cActive: char)
    requires 't' !in p && 'v' !in p && OccursAt(p, "Missing required", 0)
    requires 'u' !in path && cActive in "Active intent folder" && cActive !in path
    requires path != [] && path[0] == '.'
    ensures ExceptionExit(p + path) == ExitArtifactInvalid
  {
    PhraseChars();
    AbsentAcross(p, path, "current-intent", 't', 'u');
    AbsentAcross(p, path, "Active intent folder", 'v', cActive);
    PrefixOccurs(p, path, "Missing required");
    MentionedAt(p + path, "Missing required", 0);
  }

  /** A missing configuration file ends the run with exit code 20. */
  lemma MissingConfigExit(path: string)
    requires path in {GovernancePath, ZonesPath, RedOpsPath}
    ensures ExceptionExit(FailureMessage(Missing(path))) == ExitArtifactInvalid
  {
    MissingPrefixChars();
    PhraseChars();
    if path == GovernancePath {
      GovernancePathChars();
      MissingExitBy("Missing required YAML file: ", path, 't');
    } else if path == ZonesPath {
      ZonesPathChars();
      MissingExitBy("Missing required YAML file: ", path, 'v');
    } else {
      RedOpsPathChars();
      MissingExitBy("Missing required YAML file: ", path, 'v');
    }
  }

  lemma MentionedAt(msg: string, t: string, j: nat)
    requires j <= |msg| && OccursAt(msg, t, j)
    ensures Mentions(msg, t)
  {
  }

  /**
   * The handler matches the whole message, so a YAML line quoted by
   * "Expected key: value, got: " that names "current-intent" turns a
   * malformed configuration file into a routing failure (exit code 10).
   */
  lemma QuotedLineExit(line: string)
    requires Mentions(line, "current-intent")
    ensures ExceptionExit(FailureMessage(Malformed(Yaml.NotKeyValue(Some(line))))) == ExitRoutingInvalid
  {
    MentionedInSuffix("Expected key: value, got: ", line, "current-intent");
  }
}
