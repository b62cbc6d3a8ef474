/** The validated configuration of one bubble, its vocabularies and its defaults. */
module BubbleConfig {
  import opened Text

  datatype ReviewPolicy = ReviewPolicy(
    loopMode: string, blockingSeverity: string, reworkSeverity: string, cleanRuns: Option<nat>)

  datatype Executor = Executor(kind: string, remote: string)

  datatype ValidationTarget = ValidationTarget(id: string, cwd: Option<string>, paths: Option<seq<string>>)

  datatype Agents = Agents(
    implementer: string, implementerModel: Option<string>,
    reviewer: string, reviewerModel: Option<string>,
    metaReviewer: string, metaReviewerModel: Option<string>)

  datatype RoleMcp = RoleMcp(implementer: string, reviewer: string, metaReviewer: string)

  datatype Commands = Commands(
    bootstrap: Option<string>, lint: Option<string>, test: string, typecheck: string,
    custom: map<string, string>,
    approveRequired: Option<seq<string>>, validationRequired: Option<seq<string>>,
    requiredExplicit: bool)

  datatype Notifications = Notifications(
    enabled: bool, waitingHumanSound: Option<string>, convergedSound: Option<string>)

  datatype LocalOverlay = LocalOverlay(enabled: bool, mode: string, entries: seq<string>)

  datatype DocContractGates = DocContractGates(roundGateAppliesAfter: nat, parseWarning: Option<string>)

  datatype Ideation = Ideation(
    mode: bool, taskPending: bool,
    startedAt: Option<string>, kickedOffAt: Option<string>, parseWarning: Option<string>)

  datatype Config = Config(
    id: string, bubbleInstanceId: Option<string>,
    repoPath: string, baseBranch: string, bubbleBranch: string,
    workMode: string, qualityMode: string, reviewArtifactType: string,
    pairflowCommandProfile: string, reviewerContextMode: string,
    watchdogMinutes: nat, watchdogByAgent: Option<map<string, nat>>,
    maxRounds: nat, severityGateRound: nat,
    commitRequiresApproval: bool, accuracyCritical: bool,
    attachLauncher: Option<string>, openCommand: Option<string>, openRemoteCommand: Option<string>,
    reviewPolicy: Option<ReviewPolicy>, executor: Option<Executor>,
    validationTarget: Option<ValidationTarget>,
    agents: Agents, roleMcp: RoleMcp, commands: Commands, notifications: Notifications,
    localOverlay: LocalOverlay, docContractGates: DocContractGates, ideation: Option<Ideation>)

  // ---- Vocabularies

  const WORK_MODES: set<string> := {"worktree", "clone"}
  const QUALITY_MODES: set<string> := {"strict"}
  const ARTIFACT_TYPES: set<string> := {"code", "document"}
  const COMMAND_PROFILES: set<string> := {"external", "self_host"}
  const CONTEXT_MODES: set<string> := {"fresh", "persistent"}
  const ATTACH_LAUNCHERS: set<string> := {"auto", "warp", "iterm2", "terminal", "ghostty", "copy"}
  const AGENT_NAMES: set<string> := {"opencode", "reasonix"}
  const MCP_POLICIES: set<string> := {"disabled", "enabled"}
  const LOOP_MODES: set<string> := {"full", "meta_only"}
  const SEVERITIES: set<string> := {"P1", "P2", "P3"}
  const OVERLAY_MODES: set<string> := {"symlink", "copy"}
  const EXECUTOR_TYPES: set<string> := {"ssh"}

  /** Keys of the commands section that name no validation command of the user's own. */
  const FIXED_COMMAND_KEYS: set<string> := {
    "bootstrap", "lint", "test", "typecheck",
    "meta_review_approve_required", "validation_required", "validation_required_explicit"
  }

  const REVIEW_POLICY_KEYS: set<string> := {
    "review_loop_mode", "reviewer_blocking_min_severity",
    "meta_review_auto_rework_min_severity", "meta_review_consecutive_clean_runs_required"
  }

  const ROLE_KEYS: set<string> := {"implementer", "reviewer", "meta_reviewer"}
  const EXECUTOR_KEYS: set<string> := {"type", "remote"}

  const RESERVED_COMMAND_IDS: set<string> := {
    "meta_review_approve_required", "validation_required", "validation_required_explicit"
  }

  const RESERVED_TARGET_IDS: set<string> := {
    "id", "commands", "required", "default", "cwd", "paths", "targets", "validation",
    "lint", "test", "typecheck", "bootstrap"
  }

  const DEFAULT_OVERLAY_ENTRIES: seq<string> :=
    [".opencode", ".reasonix", ".mcp.json", ".env.local", ".env.production"]

  // ---- Grammar of identifiers, paths and times

  predicate Lower(c: char) { 'a' <= c <= 'z' }

  predicate Digit(c: char) { '0' <= c <= '9' }

  predicate Letter(c: char) { Lower(c) || 'A' <= c <= 'Z' }

  predicate IsCommandId(id: string) {
    && 1 <= |id| <= 64 && Lower(id[0])
    && (forall i :: 0 <= i < |id| ==> Lower(id[i]) || Digit(id[i]) || id[i] == '_' || id[i] == '-')
    && id !in RESERVED_COMMAND_IDS
  }

  predicate IsTargetId(id: string) { IsCommandId(id) && id !in RESERVED_TARGET_IDS }

  predicate IsInstanceId(id: string) {
    && 10 <= |id| <= 128 && (Letter(id[0]) || Digit(id[0]))
    && forall i :: 0 <= i < |id| ==> Letter(id[i]) || Digit(id[i]) || id[i] == '_' || id[i] == '-'
  }

  /** A relative path without empty, `.` or `..` segments and without backslashes, trimmed. */
  function NormalizeRelativePath(input: string): Option<string> {
    var normalized := Trim(Js, input);
    if normalized == "" || '\\' in normalized then None
    else
      var segments := SplitOn(normalized, '/');
      if exists i :: 0 <= i < |segments| && segments[i] in {"", ".", ".."} then None
      else Some(Join(segments, "/"))
  }

  predicate HasGlob(s: string) {
    exists i :: 0 <= i < |s| && s[i] in {'*', '?', '[', '{', '}', ']'}
  }

  function NormalizeCwd(input: string): Option<string> {
    var path := NormalizeRelativePath(input);
    if path.Some? && HasGlob(path.value) then None else path
  }

  function Slashed(s: string): string {
    seq(|s|, i requires 0 <= i < |s| => if s[i] == '\\' then '/' else s[i])
  }

  predicate IsSafeOverlayEntry(entry: string) {
    var segments := SplitOn(Slashed(entry), '/');
    forall i :: 0 <= i < |segments| ==> segments[i] !in {"", ".", ".."}
  }

  function StripSlashes(s: string): string {
    if s != "" && s[|s| - 1] == '/' then StripSlashes(s[..|s| - 1]) else s
  }

  /** Trims, then strips trailing slashes; white space before a slash then stays. */
  function TrimAndStrip(s: string): string { StripSlashes(Trim(Js, s)) }

  predicate DigitsAt(s: string, lo: nat, hi: nat) {
    lo <= hi <= |s| && forall i :: lo <= i < hi ==> Digit(s[i])
  }

  function NumberAt(s: string, lo: nat, hi: nat): nat
    requires DigitsAt(s, lo, hi)
    decreases hi
  {
    if lo == hi then 0
    else
      assert Digit(s[hi - 1]);
      NumberAt(s, lo, hi - 1) * 10 + (s[hi - 1] as int - '0' as int)
  }

  function DaysIn(year: nat, month: nat): nat {
    if month == 2 then (if year % 4 == 0 && (year % 100 != 0 || year % 400 == 0) then 29 else 28)
    else if month in {4, 6, 9, 11} then 30
    else 31
  }

  /** `YYYY-MM-DDTHH:MM:SS[.f{1,6}]Z` naming a real instant; years below 100 are refused because
      the date constructor reads them as 19xx. */
  predicate IsIsoTimestamp(s: string) {
    && |s| >= 20 && s[|s| - 1] == 'Z'
    && DigitsAt(s, 0, 4) && DigitsAt(s, 5, 7) && DigitsAt(s, 8, 10)
    && DigitsAt(s, 11, 13) && DigitsAt(s, 14, 16) && DigitsAt(s, 17, 19)
    && s[4] == '-' && s[7] == '-' && s[10] == 'T' && s[13] == ':' && s[16] == ':'
    && (|s| == 20 || (s[19] == '.' && 22 <= |s| <= 27 && DigitsAt(s, 20, |s| - 1)))
    && NumberAt(s, 0, 4) >= 100
    && 1 <= NumberAt(s, 5, 7) <= 12
    && 1 <= NumberAt(s, 8, 10) <= DaysIn(NumberAt(s, 0, 4), NumberAt(s, 5, 7))
    && NumberAt(s, 11, 13) <= 23 && NumberAt(s, 14, 16) <= 59 && NumberAt(s, 17, 19) <= 59
  }
}
