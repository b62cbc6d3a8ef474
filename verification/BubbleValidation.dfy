/** What validation makes of a nested record: the configuration, or the set of complaints.
    Defaults, fallbacks and normalisations are applied here. */
module BubbleValidation {
  import opened Text
  import opened TomlParser
  import opened TomlPrinter
  import opened BubbleConfig

  datatype Problem =
    | NotARecord | MissingField | MissingSection | NotASection
    | NotText | NotFlag | NotTextList | NotInVocabulary | NotPositive | TooSmall
    | MalformedId | DuplicateId | NotTextForApproval | UnknownField | UnsafePath

  datatype Complaint = Complaint(path: string, problem: Problem)

  type Complaints = set<Complaint>

  /** A value read, and the log after the complaints pushed while reading it. */
  datatype Checked<+T> = Checked(value: T, log: Complaints)

  datatype Outcome = Accepted(config: Config) | Refused(complaints: Complaints)

  function Unless(ok: bool, path: string, problem: Problem, log: Complaints): (more: Complaints)
    ensures log <= more
  {
    if ok then log else log + {Complaint(path, problem)}
  }

  // ---- Readers

  function Get(r: Record, key: string): Option<Value> {
    if key in r then Some(r[key]) else None
  }

  predicate NonEmptyText(v: Value) { v.Str? && Trim(Js, v.text) != "" }

  predicate OneOf(v: Value, vocabulary: set<string>) { v.Str? && v.text in vocabulary }

  predicate IsWhole(v: Value) { v.Num? && v.number.Floor as real == v.number }

  function ReadString(r: Record, key: string, path: string, required: bool, log: Complaints): (c: Checked<Option<string>>)
    ensures log <= c.log
  {
    match Get(r, key)
    case None => Checked(None, Unless(!required, path, MissingField, log))
    case Some(v) =>
      if NonEmptyText(v) then Checked(Some(v.text), log) else Checked(None, log + {Complaint(path, NotText)})
  }

  function ReadBoolean(r: Record, key: string, path: string, required: bool, log: Complaints): (c: Checked<Option<bool>>)
    ensures log <= c.log
  {
    match Get(r, key)
    case None => Checked(None, Unless(!required, path, MissingField, log))
    case Some(v) => if v.Bool? then Checked(Some(v.flag), log) else Checked(None, log + {Complaint(path, NotFlag)})
  }

  function ReadObject(r: Record, key: string, required: bool, log: Complaints): (c: Checked<Option<Record>>)
    ensures log <= c.log
    ensures required && c.log == {} ==> c.value.Some?
  {
    match Get(r, key)
    case None => Checked(None, Unless(!required, key, MissingSection, log))
    case Some(v) => if v.Rec? then Checked(Some(v.fields), log) else Checked(None, log + {Complaint(key, NotASection)})
  }

  function Indexed(path: string, i: nat): string { path + "[" + Decimal(i) + "]" }

  function TrimmedTexts(items: seq<Value>): seq<string> {
    if items == [] then []
    else (if NonEmptyText(items[0]) then [Trim(Js, items[0].text)] else []) + TrimmedTexts(items[1..])
  }

  function BadItems(items: seq<Value>, path: string): Complaints {
    set i | 0 <= i < |items| && !NonEmptyText(items[i]) :: Complaint(Indexed(path, i), NotText)
  }

  function ReadStringArray(r: Record, key: string, path: string, log: Complaints): (c: Checked<Option<seq<string>>>)
    ensures log <= c.log
  {
    match Get(r, key)
    case None => Checked(None, log)
    case Some(v) =>
      if v.List? then Checked(Some(TrimmedTexts(v.items)), log + BadItems(v.items, path))
      else Checked(None, log + {Complaint(path, NotTextList)})
  }

  /** `input.key ?? default`. */
  function Defaulted(r: Record, key: string, default: Value): Value {
    match Get(r, key)
    case None => default
    case Some(v) => if v.Null? then default else v
  }

  function ReadChoice(r: Record, key: string, path: string, vocabulary: set<string>, default: string,
                      log: Complaints): (c: Checked<string>)
    ensures log <= c.log
  {
    var v := Defaulted(r, key, Str(default));
    if OneOf(v, vocabulary) then Checked(v.text, log) else Checked(default, log + {Complaint(path, NotInVocabulary)})
  }

  function ReadWhole(r: Record, key: string, default: nat, least: nat, problem: Problem, log: Complaints): (c: Checked<nat>)
    ensures log <= c.log
  {
    var v := Defaulted(r, key, Num(default as real));
    if IsWhole(v) && v.number.Floor >= least then Checked(v.number.Floor, log)
    else Checked(default, log + {Complaint(key, problem)})
  }

  function ReadFlag(r: Record, key: string, default: bool, log: Complaints): (c: Checked<bool>)
    ensures log <= c.log
  {
    var v := Defaulted(r, key, Bool(default));
    if v.Bool? then Checked(v.flag, log) else Checked(default, log + {Complaint(key, NotFlag)})
  }

  function OrEmpty(s: Option<string>): string { if s.Some? then s.value else "" }

  // ---- Agents

  function ReadModel(r: Record, key: string, path: string, log: Complaints): (c: Checked<Option<string>>)
    ensures log <= c.log
  {
    var text := ReadString(r, key, path, false, log);
    Checked(if text.value.Some? then Some(TrimAndStrip(text.value.value)) else None, text.log)
  }

  /** An agent's name with its complaints. */
  function ReadAgent(r: Record, key: string, required: bool, log: Complaints): (c: Checked<Option<string>>)
    ensures log <= c.log
  {
    var name := ReadString(r, key, "agents." + key, required, log);
    Checked(name.value, Unless(name.value.Some? ==> name.value.value in AGENT_NAMES, "agents." + key, NotInVocabulary, name.log))
  }

  /** The reviewer, when it names an agent, stands in for a missing meta-reviewer. */
  function MetaReviewer(candidate: Option<string>, reviewer: Option<string>): string {
    if candidate.Some? then candidate.value
    else if reviewer.Some? && reviewer.value in AGENT_NAMES then reviewer.value
    else "opencode"
  }

  function CheckAgents(section: Option<Record>, log: Complaints): (c: Checked<Agents>)
    ensures log <= c.log
  {
    if section == None then Checked(Agents("", None, "", None, "opencode", None), log)
    else
      var r := section.value;
      var implementer := ReadAgent(r, "implementer", true, log);
      var reviewer := ReadAgent(r, "reviewer", true, implementer.log);
      var meta := ReadAgent(r, "meta_reviewer", false, reviewer.log);
      var implementerModel := ReadModel(r, "implementer_model", "agents.implementer_model", meta.log);
      var reviewerModel := ReadModel(r, "reviewer_model", "agents.reviewer_model", implementerModel.log);
      var metaModel := ReadModel(r, "meta_reviewer_model", "agents.meta_reviewer_model", reviewerModel.log);
      Checked(
        Agents(OrEmpty(implementer.value), implementerModel.value, OrEmpty(reviewer.value), reviewerModel.value,
               MetaReviewer(meta.value, reviewer.value), metaModel.value),
        metaModel.log)
  }

  // ---- Role policies

  function UnknownFields(r: Record, known: set<string>, path: string): Complaints {
    set k | k in r && k !in known :: Complaint(path + k, UnknownField)
  }

  function ReadPolicy(r: Record, key: string, log: Complaints): (c: Checked<string>)
    ensures log <= c.log
  {
    match Get(r, key)
    case None => Checked("disabled", log)
    case Some(v) =>
      if OneOf(v, MCP_POLICIES) then Checked(v.text, log)
      else Checked("disabled", log + {Complaint("role_mcp." + key, NotInVocabulary)})
  }

  function CheckRoleMcp(section: Option<Record>, log: Complaints): (c: Checked<RoleMcp>)
    ensures log <= c.log
  {
    if section == None then Checked(RoleMcp("disabled", "disabled", "disabled"), log)
    else
      var r := section.value;
      var implementer := ReadPolicy(r, "implementer", log + UnknownFields(r, ROLE_KEYS, "role_mcp."));
      var reviewer := ReadPolicy(r, "reviewer", implementer.log);
      var meta := ReadPolicy(r, "meta_reviewer", reviewer.log);
      Checked(RoleMcp(implementer.value, reviewer.value, meta.value), meta.log)
  }

  // ---- Commands

  predicate IsCustom(r: Record, key: string) {
    key in r && key !in FIXED_COMMAND_KEYS && IsCommandId(key) && NonEmptyText(r[key])
  }

  function CustomCommands(r: Record): map<string, string> {
    map k | k in r && IsCustom(r, k) :: Trim(Js, r[k].text)
  }

  function BadCustoms(r: Record): Complaints {
    set k | k in r && k !in FIXED_COMMAND_KEYS && !IsCustom(r, k) ::
      Complaint("commands." + k, if IsCommandId(k) then NotText else MalformedId)
  }

  function BadIds(ids: seq<string>, path: string): Complaints {
    set i | 0 <= i < |ids| && (!IsCommandId(ids[i]) || ids[i] in ids[..i]) ::
      Complaint(Indexed(path, i), if IsCommandId(ids[i]) then DuplicateId else MalformedId)
  }

  function CommandText(r: Record, custom: map<string, string>, id: string): Option<Value> {
    if id in custom then Some(Str(custom[id])) else Get(r, id)
  }

  predicate IsRunnable(r: Record, custom: map<string, string>, id: string) {
    var v := CommandText(r, custom, id);
    v.Some? && NonEmptyText(v.value)
  }

  function NotRunnable(r: Record, custom: map<string, string>, ids: seq<string>): Complaints {
    set i | 0 <= i < |ids| && IsCommandId(ids[i]) && ids[i] !in ids[..i] && !IsRunnable(r, custom, ids[i]) ::
      Complaint("commands." + ids[i], NotTextForApproval)
  }

  function CheckIds(ids: Option<seq<string>>, path: string, log: Complaints): (more: Complaints)
    ensures log <= more
  {
    if ids.Some? then log + BadIds(ids.value, path) else log
  }

  function CheckApproval(r: Record, custom: map<string, string>, ids: Option<seq<string>>, path: string,
                         log: Complaints): (more: Complaints)
    ensures log <= more
  {
    if ids.Some? then log + (BadIds(ids.value, path) + NotRunnable(r, custom, ids.value)) else log
  }

  function CheckCommands(section: Option<Record>, log: Complaints): (c: Checked<Option<Commands>>)
    ensures log <= c.log
    ensures c.value.Some? <==> section.Some?
  {
    if section == None then Checked(None, log)
    else
      var r := section.value;
      var test := ReadString(r, "test", "commands.test", true, log);
      var typecheck := ReadString(r, "typecheck", "commands.typecheck", true, test.log);
      var lint := ReadString(r, "lint", "commands.lint", false, typecheck.log);
      var bootstrap := ReadString(r, "bootstrap", "commands.bootstrap", false, lint.log);
      var required := ReadStringArray(r, "validation_required", "commands.validation_required", bootstrap.log);
      var approve := ReadStringArray(r, "meta_review_approve_required",
                                     "commands.meta_review_approve_required", required.log);
      var explicit := ReadBoolean(r, "validation_required_explicit",
                                  "commands.validation_required_explicit", false, approve.log);
      var custom := CustomCommands(r);
      var afterIds := CheckIds(required.value, "commands.validation_required", explicit.log + BadCustoms(r));
      Checked(
        Some(Commands(bootstrap.value, lint.value, OrEmpty(test.value), OrEmpty(typecheck.value), custom,
                      approve.value, required.value, explicit.value == Some(true))),
        CheckApproval(r, custom, approve.value, "commands.meta_review_approve_required", afterIds))
  }

  // ---- Validation target

  function NormalizedPaths(paths: seq<string>): seq<string> {
    if paths == [] then []
    else
      var p := NormalizeRelativePath(paths[0]);
      (if p.Some? then [p.value] else []) + NormalizedPaths(paths[1..])
  }

  function BadPaths(paths: seq<string>): Complaints {
    set i | 0 <= i < |paths| && NormalizeRelativePath(paths[i]) == None ::
      Complaint(Indexed("validation_target.paths", i), UnsafePath)
  }

  function CheckTarget(section: Option<Record>, log: Complaints): (c: Checked<Option<ValidationTarget>>)
    ensures log <= c.log
  {
    if section == None then Checked(None, log)
    else
      var r := section.value;
      var id := ReadString(r, "id", "validation_target.id", true, log);
      var cwd := ReadString(r, "cwd", "validation_target.cwd", false, id.log);
      var paths := ReadStringArray(r, "paths", "validation_target.paths", cwd.log);
      var normalizedCwd := if cwd.value.Some? then NormalizeCwd(cwd.value.value) else None;
      var afterId := Unless(id.value.Some? ==> IsTargetId(id.value.value), "validation_target.id", MalformedId, paths.log);
      var afterCwd := Unless(cwd.value.Some? ==> normalizedCwd.Some?, "validation_target.cwd", UnsafePath, afterId);
      Checked(
        if id.value.Some?
        then Some(ValidationTarget(id.value.value, normalizedCwd,
                                   if paths.value.Some? then Some(NormalizedPaths(paths.value.value)) else None))
        else None,
        if paths.value.Some? then afterCwd + BadPaths(paths.value.value) else afterCwd)
  }

  // ---- Notifications and overlay

  function CheckNotifications(section: Option<Record>, log: Complaints): (c: Checked<Notifications>)
    ensures log <= c.log
  {
    if section == None then Checked(Notifications(true, None, None), log)
    else
      var r := section.value;
      var enabled := ReadBoolean(r, "enabled", "notifications.enabled", false, log);
      var waiting := ReadString(r, "waiting_human_sound", "notifications.waiting_human_sound", false, enabled.log);
      var converged := ReadString(r, "converged_sound", "notifications.converged_sound", false, waiting.log);
      Checked(Notifications(enabled.value != Some(false), waiting.value, converged.value), converged.log)
  }

  predicate AllSafe(entries: seq<string>) {
    forall i :: 0 <= i < |entries| ==> IsSafeOverlayEntry(entries[i])
  }

  function CheckOverlay(section: Option<Record>, log: Complaints): (c: Checked<LocalOverlay>)
    ensures log <= c.log
  {
    if section == None then Checked(LocalOverlay(true, "symlink", DEFAULT_OVERLAY_ENTRIES), log)
    else
      var r := section.value;
      var enabled := ReadBoolean(r, "enabled", "local_overlay.enabled", false, log);
      var mode := ReadChoice(r, "mode", "local_overlay.mode", OVERLAY_MODES, "symlink", enabled.log);
      var entries := ReadStringArray(r, "entries", "local_overlay.entries", mode.log);
      var kept := if entries.value.Some? then entries.value.value else DEFAULT_OVERLAY_ENTRIES;
      Checked(LocalOverlay(enabled.value != Some(false), mode.value, kept),
              Unless(AllSafe(kept), "local_overlay.entries", UnsafePath, entries.log))
  }

  // ---- Warnings that are kept instead of refusing

  function IntText(n: int): string { if n < 0 then "-" + Decimal(-n) else Decimal(n) }

  /** How JavaScript prints a number that is not whole. */
  const FRACTION_TEXT: real -> string

  /** How a received value is named in a warning. */
  function Describe(v: Value): string {
    match v
    case Str(s) => s
    case Bool(b) => if b then "true" else "false"
    case Null => "null"
    case Num(x) => if IsWhole(v) then IntText(x.Floor) else FRACTION_TEXT(x)
    case List(_) => "[array]"
    case Rec(_) => "[object]"
  }

  function JoinWarnings(existing: Option<string>, warnings: seq<string>): Option<string> {
    if existing == None && warnings == [] then None
    else if warnings == [] then existing
    else if existing == None then Some(Join(warnings, " "))
    else Some(existing.value + " " + Join(warnings, " "))
  }

  function ExistingWarning(section: Option<Record>, path: string, log: Complaints): (c: Checked<Option<string>>)
    ensures log <= c.log
  {
    if section == None then Checked(None, log) else ReadString(section.value, "parse_warning", path, false, log)
  }

  function Field(section: Option<Record>, key: string): Option<Value> {
    if section == None then None else Get(section.value, key)
  }

  function GateWarning(v: Value): string {
    "doc_contract_gates." + ("round_gate_applies_after must be a non-negative integer. Received " + Describe(v) + ".")
  }

  function CheckGates(section: Option<Record>, log: Complaints): (c: Checked<DocContractGates>)
    ensures log <= c.log
  {
    var existing := ExistingWarning(section, "doc_contract_gates.parse_warning", log);
    var candidate := Field(section, "round_gate_applies_after");
    var good := candidate.Some? && IsWhole(candidate.value) && candidate.value.number.Floor >= 0;
    var warnings :=
      if candidate.Some? && !good
      then [GateWarning(candidate.value)] else [];
    Checked(DocContractGates(if good then candidate.value.number.Floor else 2, JoinWarnings(existing.value, warnings)),
            existing.log)
  }

  const IDEATION_WARNING := "IDEATION_METADATA_PARSE_WARNING: ideation."

  function IdeationWarning(text: string): string { IDEATION_WARNING + text }

  /** A flag of the ideation section, false with a warning when it is no boolean. */
  function IdeationFlag(section: Option<Record>, key: string): (bool, seq<string>) {
    match Field(section, key)
    case None => (false, [])
    case Some(v) =>
      if v.Bool? then (v.flag, [])
      else (false, [IdeationWarning(key + " must be boolean. Received " + Describe(v) + ".")])
  }

  /** A time of the ideation section, dropped with a warning when it is no timestamp. */
  function IdeationTime(section: Option<Record>, key: string): (Option<string>, seq<string>) {
    match Field(section, key)
    case None => (None, [])
    case Some(v) =>
      if v.Str? && IsIsoTimestamp(v.text) then (Some(v.text), [])
      else (None, [IdeationWarning(key + " must be an ISO timestamp. Received " + Describe(v) + ".")])
  }

  const PENDING_WITHOUT_MODE := "task_pending=true is invalid when ideation.mode=false; normalized to false."

  function CheckIdeation(section: Option<Record>, log: Complaints): (c: Checked<Option<Ideation>>)
    ensures log <= c.log
  {
    var existing := ExistingWarning(section, "ideation.parse_warning", log);
    var (mode, modeWarnings) := IdeationFlag(section, "mode");
    var (pending, pendingWarnings) := IdeationFlag(section, "task_pending");
    var (startedAt, startedWarnings) := IdeationTime(section, "started_at");
    var (kickedOffAt, kickedOffWarnings) := IdeationTime(section, "kicked_off_at");
    var normalized := !mode && pending;
    var warnings := modeWarnings + pendingWarnings + startedWarnings + kickedOffWarnings
                    + (if normalized then [IdeationWarning(PENDING_WITHOUT_MODE)] else []);
    var warning := JoinWarnings(existing.value, warnings);
    Checked(
      if mode || startedAt.Some? || kickedOffAt.Some? || warning.Some?
      then Some(Ideation(mode, pending && !normalized, startedAt, kickedOffAt, warning))
      else None,
      existing.log)
  }

  // ---- Review policy and executor

  function ReadCleanRuns(r: Record, log: Complaints): (c: Checked<Option<nat>>)
    ensures log <= c.log
  {
    var path := "review_policy.meta_review_consecutive_clean_runs_required";
    match Get(r, "meta_review_consecutive_clean_runs_required")
    case None => Checked<Option<nat>>.Checked(None, log)
    case Some(v) =>
      if IsWhole(v) && v.number.Floor >= 1 then Checked<Option<nat>>.Checked(Some(v.number.Floor), log)
      else Checked<Option<nat>>.Checked(None, log + {Complaint(path, TooSmall)})
  }

  function CheckReviewPolicy(section: Option<Record>, log: Complaints): (c: Checked<Option<ReviewPolicy>>)
    ensures log <= c.log
  {
    if section == None then Checked(None, log)
    else
      var r := section.value;
      var loop := ReadChoice(r, "review_loop_mode", "review_policy.review_loop_mode", LOOP_MODES, "full",
                             log + UnknownFields(r, REVIEW_POLICY_KEYS, "review_policy."));
      var blocking := ReadChoice(r, "reviewer_blocking_min_severity",
                                 "review_policy.reviewer_blocking_min_severity", SEVERITIES, "P3", loop.log);
      var rework := ReadChoice(r, "meta_review_auto_rework_min_severity",
                               "review_policy.meta_review_auto_rework_min_severity", SEVERITIES, "P3", blocking.log);
      var runs := ReadCleanRuns(r, rework.log);
      Checked(
        if r.Keys !! REVIEW_POLICY_KEYS then None
        else Some(ReviewPolicy(loop.value, blocking.value, rework.value, runs.value)),
        runs.log)
  }

  function CheckExecutor(section: Option<Record>, log: Complaints): (c: Checked<Option<Executor>>)
    ensures log <= c.log
  {
    if section == None then Checked(None, log)
    else
      var r := section.value;
      var kind := ReadString(r, "type", "executor.type", true, log + UnknownFields(r, EXECUTOR_KEYS, "executor."));
      var remote := ReadString(r, "remote", "executor.remote", true, kind.log);
      Checked(
        if kind.value.Some? && remote.value.Some? && kind.value.value in EXECUTOR_TYPES
        then Some(Executor(kind.value.value, remote.value.value)) else None,
        Unless(kind.value.Some? ==> kind.value.value in EXECUTOR_TYPES, "executor.type", NotInVocabulary, remote.log))
  }

  // ---- Per-agent timeouts

  predicate IsTimeout(r: Record, key: string) {
    key in r && key in AGENT_NAMES && IsWhole(r[key]) && r[key].number.Floor > 0
  }

  function Timeouts(r: Record): map<string, nat> {
    map k | k in r && IsTimeout(r, k) :: r[k].number.Floor
  }

  function BadTimeouts(r: Record): Complaints {
    set k | k in r && !IsTimeout(r, k) ::
      Complaint("watchdog_timeout_minutes_by_agent." + k, if k in AGENT_NAMES then NotPositive else NotInVocabulary)
  }

  function CheckTimeouts(input: Option<Value>, log: Complaints): (c: Checked<Option<map<string, nat>>>)
    ensures log <= c.log
  {
    if input == None then Checked(None, log)
    else if !input.value.Rec? then Checked(None, log + {Complaint("watchdog_timeout_minutes_by_agent", NotASection)})
    else
      var r := input.value.fields;
      Checked(if Timeouts(r) == map[] then None else Some(Timeouts(r)), log + BadTimeouts(r))
  }

  // ---- The whole configuration

  function ReadLauncher(r: Record, log: Complaints): (c: Checked<Option<string>>)
    ensures log <= c.log
  {
    match Get(r, "attach_launcher")
    case None => Checked(None, log)
    case Some(v) =>
      if OneOf(v, ATTACH_LAUNCHERS) then Checked(Some(v.text), log)
      else Checked(None, log + {Complaint("attach_launcher", NotInVocabulary)})
  }

  function ReadInstanceId(r: Record, log: Complaints): (c: Checked<Option<string>>)
    ensures log <= c.log
  {
    var id := ReadString(r, "bubble_instance_id", "bubble_instance_id", false, log);
    Checked(id.value, Unless(id.value.Some? ==> IsInstanceId(id.value.value), "bubble_instance_id", MalformedId, id.log))
  }

  datatype Names = Names(id: string, bubbleInstanceId: Option<string>, repoPath: string, baseBranch: string,
                         bubbleBranch: string)

  function CheckNames(r: Record, log: Complaints): (c: Checked<Names>)
    ensures log <= c.log
  {
    var id := ReadString(r, "id", "id", true, log);
    var instance := ReadInstanceId(r, id.log);
    var repo := ReadString(r, "repo_path", "repo_path", true, instance.log);
    var base := ReadString(r, "base_branch", "base_branch", true, repo.log);
    var branch := ReadString(r, "bubble_branch", "bubble_branch", true, base.log);
    Checked(Names(OrEmpty(id.value), instance.value, OrEmpty(repo.value), OrEmpty(base.value), OrEmpty(branch.value)),
            branch.log)
  }

  datatype Modes = Modes(workMode: string, qualityMode: string, reviewArtifactType: string,
                         pairflowCommandProfile: string, reviewerContextMode: string)

  function CheckModes(r: Record, log: Complaints): (c: Checked<Modes>)
    ensures log <= c.log
  {
    var work := ReadChoice(r, "work_mode", "work_mode", WORK_MODES, "worktree", log);
    var quality := ReadChoice(r, "quality_mode", "quality_mode", QUALITY_MODES, "strict", work.log);
    var artifact := ReadChoice(r, "review_artifact_type", "review_artifact_type", ARTIFACT_TYPES, "code", quality.log);
    var profile := ReadChoice(r, "pairflow_command_profile", "pairflow_command_profile", COMMAND_PROFILES,
                              "external", artifact.log);
    var context := ReadChoice(r, "reviewer_context_mode", "reviewer_context_mode", CONTEXT_MODES, "fresh", profile.log);
    Checked(Modes(work.value, quality.value, artifact.value, profile.value, context.value), context.log)
  }

  datatype Limits = Limits(watchdogMinutes: nat, watchdogByAgent: Option<map<string, nat>>, maxRounds: nat,
                           severityGateRound: nat, commitRequiresApproval: bool, accuracyCritical: bool)

  function CheckLimits(r: Record, log: Complaints): (c: Checked<Limits>)
    ensures log <= c.log
  {
    var watchdog := ReadWhole(r, "watchdog_timeout_minutes", 30, 1, NotPositive, log);
    var timeouts := CheckTimeouts(Get(r, "watchdog_timeout_minutes_by_agent"), watchdog.log);
    var rounds := ReadWhole(r, "max_rounds", 8, 1, NotPositive, timeouts.log);
    var severity := ReadWhole(r, "severity_gate_round", 4, 4, TooSmall, rounds.log);
    var approval := ReadFlag(r, "commit_requires_approval", true, severity.log);
    var accuracy := ReadFlag(r, "accuracy_critical", false, approval.log);
    Checked(Limits(watchdog.value, timeouts.value, rounds.value, severity.value, approval.value, accuracy.value),
            accuracy.log)
  }

  datatype Openers = Openers(attachLauncher: Option<string>, openCommand: Option<string>, openRemoteCommand: Option<string>)

  function CheckOpeners(r: Record, log: Complaints): (c: Checked<Openers>)
    ensures log <= c.log
  {
    var launcher := ReadLauncher(r, log);
    var open := ReadString(r, "open_command", "open_command", false, launcher.log);
    var openRemote := ReadString(r, "open_remote_command", "open_remote_command", false, open.log);
    Checked(Openers(launcher.value, open.value, openRemote.value), openRemote.log)
  }

  /** The sections found in the record, before their contents are checked. */
  datatype Sections = Sections(
    agents: Option<Record>, roleMcp: Option<Record>, commands: Option<Record>, notifications: Option<Record>,
    overlay: Option<Record>, gates: Option<Record>, ideation: Option<Record>, executor: Option<Record>,
    policy: Option<Record>, target: Option<Record>)

  function CheckSections(r: Record, log: Complaints): (c: Checked<Sections>)
    ensures log <= c.log
    ensures c.log == {} ==> c.value.commands.Some? && c.value.agents.Some?
  {
    hide ReadObject;
    var agents := ReadObject(r, "agents", true, log);
    var roleMcp := ReadObject(r, "role_mcp", false, agents.log);
    var commands := ReadObject(r, "commands", true, roleMcp.log);
    var notifications := ReadObject(r, "notifications", false, commands.log);
    var overlay := ReadObject(r, "local_overlay", false, notifications.log);
    var gates := ReadObject(r, "doc_contract_gates", false, overlay.log);
    var ideation := ReadObject(r, "ideation", false, gates.log);
    var executor := ReadObject(r, "executor", false, ideation.log);
    var policy := ReadObject(r, "review_policy", false, executor.log);
    var target := ReadObject(r, "validation_target", false, policy.log);
    Checked(Sections(agents.value, roleMcp.value, commands.value, notifications.value, overlay.value, gates.value,
                     ideation.value, executor.value, policy.value, target.value), target.log)
  }

  datatype Contents = Contents(
    agents: Agents, roleMcp: RoleMcp, commands: Option<Commands>, target: Option<ValidationTarget>,
    notifications: Notifications, overlay: LocalOverlay, gates: DocContractGates, ideation: Option<Ideation>,
    policy: Option<ReviewPolicy>, executor: Option<Executor>)

  function CheckContents(s: Sections, log: Complaints): (c: Checked<Contents>)
    ensures log <= c.log
    ensures c.value.commands.Some? <==> s.commands.Some?
  {
    hide CheckAgents, CheckRoleMcp, CheckCommands, CheckTarget, CheckNotifications, CheckOverlay, CheckGates,
      CheckIdeation, CheckReviewPolicy, CheckExecutor;
    var agents := CheckAgents(s.agents, log);
    var roleMcp := CheckRoleMcp(s.roleMcp, agents.log);
    var commands := CheckCommands(s.commands, roleMcp.log);
    var target := CheckTarget(s.target, commands.log);
    var notifications := CheckNotifications(s.notifications, target.log);
    var overlay := CheckOverlay(s.overlay, notifications.log);
    var gates := CheckGates(s.gates, overlay.log);
    var ideation := CheckIdeation(s.ideation, gates.log);
    var policy := CheckReviewPolicy(s.policy, ideation.log);
    var executor := CheckExecutor(s.executor, policy.log);
    Checked(Contents(agents.value, roleMcp.value, commands.value, target.value, notifications.value, overlay.value,
                     gates.value, ideation.value, policy.value, executor.value), executor.log)
  }

  function Assemble(n: Names, m: Modes, l: Limits, o: Openers, c: Contents): Config
    requires c.commands.Some?
  {
    Config(n.id, n.bubbleInstanceId, n.repoPath, n.baseBranch, n.bubbleBranch,
           m.workMode, m.qualityMode, m.reviewArtifactType, m.pairflowCommandProfile, m.reviewerContextMode,
           l.watchdogMinutes, l.watchdogByAgent, l.maxRounds, l.severityGateRound, l.commitRequiresApproval,
           l.accuracyCritical, o.attachLauncher, o.openCommand, o.openRemoteCommand,
           c.policy, c.executor, c.target, c.agents, c.roleMcp, c.commands.value, c.notifications, c.overlay,
           c.gates, c.ideation)
  }

  function Validate(input: Value): Outcome {
    if !input.Rec? then Refused({Complaint("$", NotARecord)})
    else
      hide CheckNames, CheckModes, CheckLimits, CheckOpeners, CheckSections, CheckContents;
      var r := input.fields;
      var names := CheckNames(r, {});
      var modes := CheckModes(r, names.log);
      var limits := CheckLimits(r, modes.log);
      var openers := CheckOpeners(r, limits.log);
      var sections := CheckSections(r, openers.log);
      var contents := CheckContents(sections.value, sections.log);
      if contents.log != {} then Refused(contents.log)
      else
        Accepted(Assemble(names.value, modes.value, limits.value, openers.value, contents.value))
  }
}
