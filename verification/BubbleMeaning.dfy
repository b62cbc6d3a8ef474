/** What an accepted configuration says about the record it was made from: every key present keeps its own
    value, every key absent gets its stated default, and nothing else is accepted. */
module BubbleMeaning {
  import opened Text
  import opened TomlParser
  import opened BubbleConfig
  import opened BubbleValidation

  // ---- Single keys

  /** Some character shows. */
  ghost predicate Visible(s: string) { exists i :: 0 <= i < |s| && !IsSpace(Js, s[i]) }

  ghost predicate IsText(v: Value) { v.Str? && Visible(v.text) }

  ghost predicate NeededText(r: Record, key: string, t: string) {
    key in r && IsText(r[key]) && r[key].text == t
  }

  ghost predicate TextKey(r: Record, key: string, t: Option<string>) {
    if key in r then t.Some? && NeededText(r, key, t.value) else t == None
  }

  /** A flag with a default; a null is no flag. */
  ghost predicate FlagKey(r: Record, key: string, default: bool, b: bool) {
    if key in r then r[key] == Bool(b) else b == default
  }

  ghost predicate Given(r: Record, key: string) { key in r && r[key] != Null }

  ghost predicate LooseFlag(r: Record, key: string, default: bool, b: bool) {
    if Given(r, key) then r[key] == Bool(b) else b == default
  }

  ghost predicate ChoiceKey(r: Record, key: string, vocabulary: set<string>, default: string, t: string) {
    if Given(r, key) then r[key] == Str(t) && t in vocabulary else t == default
  }

  ghost predicate WholeKey(r: Record, key: string, default: nat, least: nat, n: nat) {
    if Given(r, key) then r[key] == Num(n as real) && n >= least else n == default
  }

  ghost predicate TextsAre(items: seq<Value>, ts: seq<string>) {
    |ts| == |items| && forall i :: 0 <= i < |items| ==> IsText(items[i]) && ts[i] == Trim(Js, items[i].text)
  }

  ghost predicate TextsKey(r: Record, key: string, ts: Option<seq<string>>) {
    if key in r then r[key].List? && ts.Some? && TextsAre(r[key].items, ts.value) else ts == None
  }

  /** A section that must be a section when it is there. */
  ghost predicate SectionKey(r: Record, key: string, s: Option<Record>) {
    if key in r then s.Some? && r[key] == Rec(s.value) else s == None
  }

  // ---- Sections

  /** The text trimmed, its trailing slashes dropped. */
  ghost predicate ModelText(text: string, m: string) {
    exists slashes :: Trim(Js, text) == m + slashes && (forall i :: 0 <= i < |slashes| ==> slashes[i] == '/')
      && (m != "" ==> m[|m| - 1] != '/')
  }

  ghost predicate ModelKey(r: Record, key: string, m: Option<string>) {
    if key in r then m.Some? && IsText(r[key]) && ModelText(r[key].text, m.value) else m == None
  }

  ghost predicate AgentKey(r: Record, key: string, name: string) { NeededText(r, key, name) && name in AGENT_NAMES }

  /** A missing meta-reviewer is the reviewer. */
  ghost predicate AgentsMean(r: Record, a: Agents) {
    && AgentKey(r, "implementer", a.implementer) && AgentKey(r, "reviewer", a.reviewer)
    && (if "meta_reviewer" in r then AgentKey(r, "meta_reviewer", a.metaReviewer) else a.metaReviewer == a.reviewer)
    && ModelKey(r, "implementer_model", a.implementerModel) && ModelKey(r, "reviewer_model", a.reviewerModel)
    && ModelKey(r, "meta_reviewer_model", a.metaReviewerModel)
  }

  ghost predicate PolicyKey(r: Record, key: string, p: string) {
    if key in r then r[key] == Str(p) && p in MCP_POLICIES else p == "disabled"
  }

  ghost predicate RolesMean(s: Option<Record>, p: RoleMcp) {
    if s == None then p == RoleMcp("disabled", "disabled", "disabled")
    else
      && s.value.Keys <= ROLE_KEYS && PolicyKey(s.value, "implementer", p.implementer)
      && PolicyKey(s.value, "reviewer", p.reviewer) && PolicyKey(s.value, "meta_reviewer", p.metaReviewer)
  }

  /** The commands under names of the user's own, trimmed. */
  ghost predicate CustomsMean(r: Record, custom: map<string, string>) {
    && (forall k :: k in custom <==> k in r && k !in FIXED_COMMAND_KEYS)
    && forall k :: k in custom ==> IsCommandId(k) && IsText(r[k]) && custom[k] == Trim(Js, r[k].text)
  }

  ghost predicate IdsMean(ids: Option<seq<string>>) {
    ids.Some? ==>
      && (forall i :: 0 <= i < |ids.value| ==> IsCommandId(ids.value[i]))
      && forall i, j :: 0 <= i < j < |ids.value| ==> ids.value[i] != ids.value[j]
  }

  /** Commands to be approved have a text. */
  ghost predicate ApprovedHaveText(r: Record, ids: Option<seq<string>>) {
    ids.Some? ==> forall i :: 0 <= i < |ids.value| ==> ids.value[i] in r && IsText(r[ids.value[i]])
  }

  ghost predicate CommandsMean(r: Record, c: Commands) {
    && NeededText(r, "test", c.test) && NeededText(r, "typecheck", c.typecheck)
    && TextKey(r, "lint", c.lint) && TextKey(r, "bootstrap", c.bootstrap)
    && TextsKey(r, "validation_required", c.validationRequired) && IdsMean(c.validationRequired)
    && TextsKey(r, "meta_review_approve_required", c.approveRequired) && IdsMean(c.approveRequired)
    && ApprovedHaveText(r, c.approveRequired)
    && FlagKey(r, "validation_required_explicit", false, c.requiredExplicit)
    && CustomsMean(r, c.custom)
  }

  /** A relative path, trimmed, whose segments name no place but below. */
  ghost predicate PathMeans(input: string, p: string) {
    p == Trim(Js, input) && p != "" && '\\' !in p
    && forall i :: 0 <= i < |SplitOn(p, '/')| ==> SplitOn(p, '/')[i] !in {"", ".", ".."}
  }

  ghost predicate CwdKey(r: Record, cwd: Option<string>) {
    if "cwd" in r then cwd.Some? && IsText(r["cwd"]) && PathMeans(r["cwd"].text, cwd.value) && !HasGlob(cwd.value)
    else cwd == None
  }

  ghost predicate PathsAre(items: seq<Value>, ps: seq<string>) {
    |ps| == |items| && forall i :: 0 <= i < |items| ==> IsText(items[i]) && PathMeans(items[i].text, ps[i])
  }

  ghost predicate PathsKey(r: Record, paths: Option<seq<string>>) {
    if "paths" in r then r["paths"].List? && paths.Some? && PathsAre(r["paths"].items, paths.value) else paths == None
  }

  ghost predicate TargetMeans(s: Option<Record>, t: Option<ValidationTarget>) {
    if s == None then t == None
    else
      && t.Some? && NeededText(s.value, "id", t.value.id) && IsTargetId(t.value.id)
      && CwdKey(s.value, t.value.cwd) && PathsKey(s.value, t.value.paths)
  }

  ghost predicate NotificationsMean(s: Option<Record>, n: Notifications) {
    if s == None then n == Notifications(true, None, None)
    else
      && FlagKey(s.value, "enabled", true, n.enabled)
      && TextKey(s.value, "waiting_human_sound", n.waitingHumanSound)
      && TextKey(s.value, "converged_sound", n.convergedSound)
  }

  ghost predicate EntriesKey(r: Record, entries: seq<string>) {
    && (if "entries" in r then r["entries"].List? && TextsAre(r["entries"].items, entries) else entries == DEFAULT_OVERLAY_ENTRIES)
    && forall i :: 0 <= i < |entries| ==> IsSafeOverlayEntry(entries[i])
  }

  ghost predicate OverlayMeans(s: Option<Record>, o: LocalOverlay) {
    if s == None then o == LocalOverlay(true, "symlink", DEFAULT_OVERLAY_ENTRIES)
    else
      && FlagKey(s.value, "enabled", true, o.enabled)
      && ChoiceKey(s.value, "mode", OVERLAY_MODES, "symlink", o.mode)
      && EntriesKey(s.value, o.entries)
  }

  /** An absent section reads like an empty one. */
  ghost function OrNone(s: Option<Record>): Record { if s == None then map[] else s.value }

  /** The warning kept before, then the new ones, a blank between any two. */
  ghost predicate WarningIs(r: Record, added: seq<string>, w: Option<string>) {
    && ("parse_warning" in r ==> IsText(r["parse_warning"]))
    && var all := (if "parse_warning" in r && r["parse_warning"].Str? then [r["parse_warning"].text] else []) + added;
       if all == [] then w == None else w == Some(Join(all, " "))
  }

  const GATE_KEY := "round_gate_applies_after"

  /** A gate round that is no natural number is kept out with a warning. */
  ghost predicate GatesMean(s: Option<Record>, g: DocContractGates) {
    var r := OrNone(s);
    if GATE_KEY !in r then g.roundGateAppliesAfter == 2 && WarningIs(r, [], g.parseWarning)
    else if Natural(r[GATE_KEY]) then Is(r[GATE_KEY], g.roundGateAppliesAfter) && WarningIs(r, [], g.parseWarning)
    else
      && g.roundGateAppliesAfter == 2
      && WarningIs(r, ["doc_contract_gates." + ("round_gate_applies_after must be a non-negative integer. Received "
                                                 + Describe(r[GATE_KEY]) + ".")], g.parseWarning)
  }

  ghost predicate Is(v: Value, n: nat) { v == Num(n as real) }

  ghost predicate Natural(v: Value) { exists n: nat :: Is(v, n) }

  ghost predicate Set(r: Record, key: string) { key in r && r[key] == Bool(true) }

  ghost function FlagWarning(r: Record, key: string): seq<string> {
    if key in r && !r[key].Bool?
    then ["IDEATION_METADATA_PARSE_WARNING: ideation." + key + " must be boolean. Received " + Describe(r[key]) + "."]
    else []
  }

  ghost predicate TimeAt(r: Record, key: string) { key in r && r[key].Str? && IsIsoTimestamp(r[key].text) }

  ghost function TimeWarning(r: Record, key: string): seq<string> {
    if key in r && !TimeAt(r, key)
    then ["IDEATION_METADATA_PARSE_WARNING: ideation." + key + " must be an ISO timestamp. Received " + Describe(r[key]) + "."]
    else []
  }

  ghost predicate TimeIs(r: Record, key: string, t: Option<string>) {
    if TimeAt(r, key) then t == Some(r[key].text) else t == None
  }

  ghost function PendingWarning(r: Record): seq<string> {
    if Set(r, "task_pending") && !Set(r, "mode")
    then ["IDEATION_METADATA_PARSE_WARNING: ideation." +
          "task_pending=true is invalid when ideation.mode=false; normalized to false."]
    else []
  }

  ghost function Warnings(r: Record): seq<string> {
    FlagWarning(r, "mode") + FlagWarning(r, "task_pending") + TimeWarning(r, "started_at") + TimeWarning(r, "kicked_off_at")
    + PendingWarning(r)
  }

  /** The ideation fields of a section, wrong ones dropped with a warning; none when nothing is left to keep. */
  ghost predicate IdeationFields(r: Record, i: Ideation) {
    && (i.mode <==> Set(r, "mode")) && (i.taskPending <==> Set(r, "mode") && Set(r, "task_pending"))
    && TimeIs(r, "started_at", i.startedAt) && TimeIs(r, "kicked_off_at", i.kickedOffAt)
    && WarningIs(r, Warnings(r), i.parseWarning)
  }

  ghost predicate NothingKept(i: Ideation) { i == Ideation(false, false, None, None, None) }

  ghost predicate IdeationMeans(s: Option<Record>, i: Option<Ideation>) {
    if i == None then IdeationFields(OrNone(s), Ideation(false, false, None, None, None))
    else IdeationFields(OrNone(s), i.value) && !NothingKept(i.value)
  }

  ghost predicate CleanRunsKey(r: Record, n: Option<nat>) {
    var key := "meta_review_consecutive_clean_runs_required";
    if key in r then n.Some? && n.value >= 1 && r[key] == Num(n.value as real) else n == None
  }

  ghost predicate PolicyFields(r: Record, p: ReviewPolicy) {
    && r.Keys <= REVIEW_POLICY_KEYS
    && ChoiceKey(r, "review_loop_mode", LOOP_MODES, "full", p.loopMode)
    && ChoiceKey(r, "reviewer_blocking_min_severity", SEVERITIES, "P3", p.blockingSeverity)
    && ChoiceKey(r, "meta_review_auto_rework_min_severity", SEVERITIES, "P3", p.reworkSeverity)
    && CleanRunsKey(r, p.cleanRuns)
  }

  /** An empty section is no policy. */
  ghost predicate PolicyMeans(s: Option<Record>, p: Option<ReviewPolicy>) {
    if s == None || s.value == map[] then p == None else p.Some? && PolicyFields(s.value, p.value)
  }

  ghost predicate ExecutorMeans(s: Option<Record>, e: Option<Executor>) {
    if s == None then e == None
    else
      && e.Some? && s.value.Keys <= EXECUTOR_KEYS
      && NeededText(s.value, "type", e.value.kind) && e.value.kind in EXECUTOR_TYPES
      && NeededText(s.value, "remote", e.value.remote)
  }

  const TIMEOUTS := "watchdog_timeout_minutes_by_agent"

  ghost predicate TimeoutsMean(r: Record, t: map<string, nat>) {
    t.Keys == r.Keys && forall k :: k in r ==> k in AGENT_NAMES && k in t && t[k] > 0 && r[k] == Num(t[k] as real)
  }

  ghost predicate TimeoutsKey(r: Record, t: Option<map<string, nat>>) {
    if TIMEOUTS !in r then t == None
    else
      && r[TIMEOUTS].Rec?
      && if t == None then r[TIMEOUTS].fields == map[] else t.value != map[] && TimeoutsMean(r[TIMEOUTS].fields, t.value)
  }

  ghost predicate LauncherKey(r: Record, t: Option<string>) {
    if "attach_launcher" in r then t.Some? && r["attach_launcher"] == Str(t.value) && t.value in ATTACH_LAUNCHERS else t == None
  }

  // ---- The whole configuration

  ghost predicate NamesMean(r: Record, n: Names) {
    && NeededText(r, "id", n.id) && NeededText(r, "repo_path", n.repoPath)
    && NeededText(r, "base_branch", n.baseBranch) && NeededText(r, "bubble_branch", n.bubbleBranch)
    && TextKey(r, "bubble_instance_id", n.bubbleInstanceId)
    && (n.bubbleInstanceId.Some? ==> IsInstanceId(n.bubbleInstanceId.value))
  }

  ghost predicate ModesMean(r: Record, m: Modes) {
    && ChoiceKey(r, "work_mode", WORK_MODES, "worktree", m.workMode)
    && ChoiceKey(r, "quality_mode", QUALITY_MODES, "strict", m.qualityMode)
    && ChoiceKey(r, "review_artifact_type", ARTIFACT_TYPES, "code", m.reviewArtifactType)
    && ChoiceKey(r, "pairflow_command_profile", COMMAND_PROFILES, "external", m.pairflowCommandProfile)
    && ChoiceKey(r, "reviewer_context_mode", CONTEXT_MODES, "fresh", m.reviewerContextMode)
  }

  ghost predicate LimitsMean(r: Record, l: Limits) {
    && WholeKey(r, "watchdog_timeout_minutes", 30, 1, l.watchdogMinutes) && TimeoutsKey(r, l.watchdogByAgent)
    && WholeKey(r, "max_rounds", 8, 1, l.maxRounds) && WholeKey(r, "severity_gate_round", 4, 4, l.severityGateRound)
    && LooseFlag(r, "commit_requires_approval", true, l.commitRequiresApproval)
    && LooseFlag(r, "accuracy_critical", false, l.accuracyCritical)
  }

  ghost predicate OpenersMean(r: Record, o: Openers) {
    LauncherKey(r, o.attachLauncher) && TextKey(r, "open_command", o.openCommand)
    && TextKey(r, "open_remote_command", o.openRemoteCommand)
  }

  ghost predicate SectionsMean(r: Record, s: Sections) {
    && SectionKey(r, "agents", s.agents) && s.agents.Some? && SectionKey(r, "commands", s.commands) && s.commands.Some?
    && SectionKey(r, "role_mcp", s.roleMcp) && SectionKey(r, "notifications", s.notifications)
    && SectionKey(r, "local_overlay", s.overlay) && SectionKey(r, "doc_contract_gates", s.gates)
    && SectionKey(r, "ideation", s.ideation) && SectionKey(r, "executor", s.executor)
    && SectionKey(r, "review_policy", s.policy) && SectionKey(r, "validation_target", s.target)
  }

  ghost predicate ContentsMean(s: Sections, c: Contents)
    requires s.agents.Some? && s.commands.Some?
  {
    && AgentsMean(s.agents.value, c.agents) && c.commands.Some? && CommandsMean(s.commands.value, c.commands.value)
    && RolesMean(s.roleMcp, c.roleMcp) && NotificationsMean(s.notifications, c.notifications)
    && OverlayMeans(s.overlay, c.overlay) && GatesMean(s.gates, c.gates) && IdeationMeans(s.ideation, c.ideation)
    && ExecutorMeans(s.executor, c.executor) && PolicyMeans(s.policy, c.policy) && TargetMeans(s.target, c.target)
  }

  ghost predicate Means(r: Record, c: Config) {
    && NamesMean(r, Names(c.id, c.bubbleInstanceId, c.repoPath, c.baseBranch, c.bubbleBranch))
    && ModesMean(r, Modes(c.workMode, c.qualityMode, c.reviewArtifactType, c.pairflowCommandProfile, c.reviewerContextMode))
    && LimitsMean(r, Limits(c.watchdogMinutes, c.watchdogByAgent, c.maxRounds, c.severityGateRound,
                            c.commitRequiresApproval, c.accuracyCritical))
    && OpenersMean(r, Openers(c.attachLauncher, c.openCommand, c.openRemoteCommand))
    && exists s :: SectionsMean(r, s) && ContentsMean(s, ContentsOf(c))
  }

  ghost function ContentsOf(c: Config): Contents {
    Contents(c.agents, c.roleMcp, Some(c.commands), c.validationTarget, c.notifications, c.localOverlay,
             c.docContractGates, c.ideation, c.reviewPolicy, c.executor)
  }
}
