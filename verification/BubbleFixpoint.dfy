/** Each part of the validation leaves a canonical part as it finds it. */
module BubbleFixpoint {
  import opened Text
  import opened TomlParser
  import opened TomlPrinter
  import opened BubbleConfig
  import opened BubbleValidation
  import opened BubbleCanonical

  function TextValue(text: Option<string>): Option<Value> {
    if text.Some? then Some(Str(text.value)) else None
  }

  function ListValue(texts: Option<seq<string>>): Option<Value> {
    if texts.Some? then Some(List(TextValues(texts.value))) else None
  }

  // ---- Top-level fields

  lemma NamesAgain(r: Record, n: Names)
    requires GoodNames(n)
    requires Get(r, "id") == Some(Str(n.id)) && Get(r, "bubble_instance_id") == TextValue(n.bubbleInstanceId)
    requires Get(r, "repo_path") == Some(Str(n.repoPath)) && Get(r, "base_branch") == Some(Str(n.baseBranch))
    requires Get(r, "bubble_branch") == Some(Str(n.bubbleBranch))
    ensures CheckNames(r, {}) == Checked(n, {})
  {
    hide Get, IsInstanceId, Trim;
  }

  lemma ModesAgain(r: Record, m: Modes)
    requires GoodModes(m)
    requires Get(r, "work_mode") == Some(Str(m.workMode)) && Get(r, "quality_mode") == Some(Str(m.qualityMode))
    requires Get(r, "review_artifact_type") == Some(Str(m.reviewArtifactType))
    requires Get(r, "pairflow_command_profile") == Some(Str(m.pairflowCommandProfile))
    requires Get(r, "reviewer_context_mode") == Some(Str(m.reviewerContextMode))
    ensures CheckModes(r, {}) == Checked(m, {})
  {
    hide Get;
  }

  /** The per-agent timeouts as a nested record. */
  function TimeoutFields(t: map<string, nat>): Record {
    map k | k in t :: Num(t[k] as real)
  }

  function TimeoutValue(t: Option<map<string, nat>>): Option<Value> {
    if t.Some? then Some(Rec(TimeoutFields(t.value))) else None
  }

  lemma TimeoutsAgain(t: Option<map<string, nat>>)
    requires GoodTimeouts(t)
    ensures CheckTimeouts(TimeoutValue(t), {}) == Checked(t, {})
  {
    if t.Some? {
      var r := TimeoutFields(t.value);
      forall k | k in t.value ensures IsTimeout(r, k) && r[k].number.Floor == t.value[k] {}
      assert Timeouts(r) == t.value;
      assert BadTimeouts(r) == {};
    }
  }

  lemma LimitsAgain(r: Record, l: Limits)
    requires GoodLimits(l)
    requires Get(r, "watchdog_timeout_minutes") == Some(Num(l.watchdogMinutes as real))
    requires Get(r, "watchdog_timeout_minutes_by_agent") == TimeoutValue(l.watchdogByAgent)
    requires Get(r, "max_rounds") == Some(Num(l.maxRounds as real))
    requires Get(r, "severity_gate_round") == Some(Num(l.severityGateRound as real))
    requires Get(r, "commit_requires_approval") == Some(Bool(l.commitRequiresApproval))
    requires Get(r, "accuracy_critical") == Some(Bool(l.accuracyCritical))
    ensures CheckLimits(r, {}) == Checked(l, {})
  {
    hide Get, CheckTimeouts;
    TimeoutsAgain(l.watchdogByAgent);
  }

  lemma OpenersAgain(r: Record, o: Openers)
    requires GoodOpeners(o)
    requires Get(r, "attach_launcher") == TextValue(o.attachLauncher)
    requires Get(r, "open_command") == TextValue(o.openCommand)
    requires Get(r, "open_remote_command") == TextValue(o.openRemoteCommand)
    ensures CheckOpeners(r, {}) == Checked(o, {})
  {
    hide Get, Trim;
  }

  // ---- Agents

  /** A stored model that reading again does not change: not empty and without a blank end. */
  predicate ModelStable(model: Option<string>) {
    model.Some? ==> model.value != "" && !IsSpace(Js, model.value[|model.value| - 1])
  }

  predicate ModelsStable(a: Agents) {
    ModelStable(a.implementerModel) && ModelStable(a.reviewerModel) && ModelStable(a.metaReviewerModel)
  }

  lemma ModelAgain(r: Record, key: string, path: string, model: Option<string>)
    requires Stripped(model) && Get(r, key) == TextValue(model)
    ensures ReadModel(r, key, path, {}) == Checked(model, {}) <==> ModelStable(model)
  {
    if model.Some? && model.value != "" {
      var m := model.value;
      TrimOfVisibleStart(Js, m);
      var t := Trim(Js, m);
      StripKeepsStart(t);
      if ModelStable(model) {
        TightIsFixed(Js, m);
      }
    }
  }

  lemma AgentAgain(r: Record, key: string, name: string, required: bool)
    requires name in AGENT_NAMES && Get(r, key) == Some(Str(name))
    ensures ReadAgent(r, key, required, {}) == Checked(Some(name), {})
  {
    KeptIsNonBlank(name);
  }

  lemma AgentsAgain(r: Record, a: Agents)
    requires GoodAgents(a)
    requires Get(r, "implementer") == Some(Str(a.implementer)) && Get(r, "reviewer") == Some(Str(a.reviewer))
    requires Get(r, "meta_reviewer") == Some(Str(a.metaReviewer))
    requires Get(r, "implementer_model") == TextValue(a.implementerModel)
    requires Get(r, "reviewer_model") == TextValue(a.reviewerModel)
    requires Get(r, "meta_reviewer_model") == TextValue(a.metaReviewerModel)
    ensures CheckAgents(Some(r), {}) == Checked(a, {}) <==> ModelsStable(a)
  {
    hide Get, ReadModel, ReadAgent, ModelStable, Stripped;
    AgentAgain(r, "implementer", a.implementer, true);
    AgentAgain(r, "reviewer", a.reviewer, true);
    AgentAgain(r, "meta_reviewer", a.metaReviewer, false);
    ModelAgain(r, "implementer_model", "agents.implementer_model", a.implementerModel);
    ModelAgain(r, "reviewer_model", "agents.reviewer_model", a.reviewerModel);
    ModelAgain(r, "meta_reviewer_model", "agents.meta_reviewer_model", a.metaReviewerModel);
  }

  // ---- Lists

  lemma {:induction false} TextsAgain(texts: seq<string>, path: string)
    requires AllKept(texts)
    ensures TrimmedTexts(TextValues(texts)) == texts && BadItems(TextValues(texts), path) == {}
    decreases texts
  {
    TextValuesAt(texts);
    if texts != [] {
      assert AllKept(texts[1..]);
      TextsAgain(texts[1..], path);
      KeptIsNonBlank(texts[0]);
      assert TextValues(texts)[1..] == TextValues(texts[1..]);
    }
    forall i | 0 <= i < |texts| ensures NonEmptyText(TextValues(texts)[i]) {
      KeptIsNonBlank(texts[i]);
    }
  }

  lemma {:induction false} TextValuesAt(texts: seq<string>)
    ensures |TextValues(texts)| == |texts|
    ensures forall i :: 0 <= i < |texts| ==> TextValues(texts)[i] == Str(texts[i])
    decreases texts
  {
    if texts != [] {
      TextValuesAt(texts[1..]);
    }
  }

  lemma ListAgain(r: Record, key: string, path: string, texts: Option<seq<string>>)
    requires (texts.Some? ==> AllKept(texts.value)) && Get(r, key) == ListValue(texts)
    ensures ReadStringArray(r, key, path, {}) == Checked(texts, {})
  {
    hide TrimmedTexts, BadItems, TextValues;
    if texts.Some? {
      TextsAgain(texts.value, path);
    }
  }

  // ---- Sections

  lemma RolesAgain(r: Record, p: RoleMcp)
    requires GoodRoles(p) && r.Keys <= ROLE_KEYS
    requires Get(r, "implementer") == Some(Str(p.implementer)) && Get(r, "reviewer") == Some(Str(p.reviewer))
    requires Get(r, "meta_reviewer") == Some(Str(p.metaReviewer))
    ensures CheckRoleMcp(Some(r), {}) == Checked(p, {})
  {
    assert UnknownFields(r, ROLE_KEYS, "role_mcp.") == {};
    hide Get, UnknownFields;
  }

  lemma NotificationsAgain(r: Record, n: Notifications)
    requires GoodNotifications(n)
    requires Get(r, "enabled") == Some(Bool(n.enabled))
    requires Get(r, "waiting_human_sound") == TextValue(n.waitingHumanSound)
    requires Get(r, "converged_sound") == TextValue(n.convergedSound)
    ensures CheckNotifications(Some(r), {}) == Checked(n, {})
  {
    hide Get, Trim;
  }

  lemma OverlayAgain(r: Record, o: LocalOverlay)
    requires GoodOverlay(o)
    requires Get(r, "enabled") == Some(Bool(o.enabled)) && Get(r, "mode") == Some(Str(o.mode))
    requires Get(r, "entries") == ListValue(Some(o.entries))
    ensures CheckOverlay(Some(r), {}) == Checked(o, {})
  {
    hide Get, AllSafe, AllKept, ReadStringArray, TextValues;
    ListAgain(r, "entries", "local_overlay.entries", Some(o.entries));
  }

  lemma GatesAgain(r: Record, g: DocContractGates)
    requires OptNonBlank(g.parseWarning)
    requires Get(r, "round_gate_applies_after") == Some(Num(g.roundGateAppliesAfter as real))
    requires Get(r, "parse_warning") == TextValue(g.parseWarning)
    ensures CheckGates(Some(r), {}) == Checked(g, {})
  {
    hide Get, Trim, GateWarning;
  }

  lemma IdeationAgain(r: Record, i: Ideation)
    requires GoodIdeation(i)
    requires Get(r, "mode") == Some(Bool(i.mode)) && Get(r, "task_pending") == Some(Bool(i.taskPending))
    requires Get(r, "started_at") == TextValue(i.startedAt) && Get(r, "kicked_off_at") == TextValue(i.kickedOffAt)
    requires Get(r, "parse_warning") == TextValue(i.parseWarning)
    ensures CheckIdeation(Some(r), {}) == Checked(Some(i), {})
  {
    hide Get, Trim, IdeationWarning, IsIsoTimestamp;
  }

  lemma PolicyAgain(r: Record, p: ReviewPolicy)
    requires GoodPolicy(p) && r.Keys <= REVIEW_POLICY_KEYS
    requires Get(r, "review_loop_mode") == Some(Str(p.loopMode))
    requires Get(r, "reviewer_blocking_min_severity") == Some(Str(p.blockingSeverity))
    requires Get(r, "meta_review_auto_rework_min_severity") == Some(Str(p.reworkSeverity))
    requires Get(r, "meta_review_consecutive_clean_runs_required") ==
             if p.cleanRuns.Some? then Some(Num(p.cleanRuns.value as real)) else None
    ensures CheckReviewPolicy(Some(r), {}) == Checked(Some(p), {})
  {
    assert UnknownFields(r, REVIEW_POLICY_KEYS, "review_policy.") == {};
    assert "review_loop_mode" in r.Keys && "review_loop_mode" in REVIEW_POLICY_KEYS;
    hide Get, UnknownFields;
  }

  lemma ExecutorAgain(r: Record, e: Executor)
    requires GoodExecutor(e) && r.Keys <= EXECUTOR_KEYS
    requires Get(r, "type") == Some(Str(e.kind)) && Get(r, "remote") == Some(Str(e.remote))
    ensures CheckExecutor(Some(r), {}) == Checked(Some(e), {})
  {
    assert UnknownFields(r, EXECUTOR_KEYS, "executor.") == {};
    hide Get, UnknownFields, Trim;
  }

  lemma {:induction false} PathsAgain(paths: seq<string>)
    requires forall i :: 0 <= i < |paths| ==> NormalizeRelativePath(paths[i]) == Some(paths[i])
    ensures NormalizedPaths(paths) == paths && BadPaths(paths) == {}
    decreases paths
  {
    hide NormalizeRelativePath;
    if paths != [] {
      PathsAgain(paths[1..]);
    }
  }

  lemma TargetAgain(r: Record, t: ValidationTarget)
    requires GoodTarget(t)
    requires Get(r, "id") == Some(Str(t.id)) && Get(r, "cwd") == TextValue(t.cwd)
    requires Get(r, "paths") == ListValue(t.paths)
    ensures CheckTarget(Some(r), {}) == Checked(Some(t), {})
  {
    hide Get, Trim, ReadStringArray, NormalizedPaths, BadPaths, NormalizeCwd, NormalizeRelativePath, IsTargetId, AllKept,
      TextValues;
    ListAgain(r, "paths", "validation_target.paths", t.paths);
    if t.paths.Some? {
      PathsAgain(t.paths.value);
    }
  }

  // ---- Commands

  /** The fields of a commands section that prints `c`. */
  predicate HoldsCommands(r: Record, c: Commands) {
    && Get(r, "bootstrap") == TextValue(c.bootstrap) && Get(r, "lint") == TextValue(c.lint)
    && Get(r, "test") == Some(Str(c.test)) && Get(r, "typecheck") == Some(Str(c.typecheck))
    && Get(r, "meta_review_approve_required") == ListValue(c.approveRequired)
    && Get(r, "validation_required") == ListValue(c.validationRequired)
    && Get(r, "validation_required_explicit") == (if c.requiredExplicit then Some(Bool(true)) else None)
  }

  predicate HoldsCustom(r: Record, custom: map<string, string>) {
    && (forall k :: k in custom ==> Get(r, k) == Some(Str(custom[k])))
    && forall k :: k in r ==> k in FIXED_COMMAND_KEYS || k in custom
  }

  lemma CustomAgain(r: Record, custom: map<string, string>)
    requires GoodCustom(custom) && HoldsCustom(r, custom)
    ensures CustomCommands(r) == custom && BadCustoms(r) == {}
  {
    hide IsCommandId, Trim;
    forall k | k in custom ensures IsCustom(r, k) && r[k] == Str(custom[k]) && Trim(Js, custom[k]) == custom[k] {
      assert Get(r, k) == Some(Str(custom[k]));
      KeptIsNonBlank(custom[k]);
    }
  }

  lemma IdsAgain(ids: seq<string>, path: string)
    requires GoodIds(ids)
    ensures BadIds(ids, path) == {}
  {
    hide IsCommandId, Kept;
  }

  lemma DefinedIsRunnable(r: Record, c: Commands, id: string)
    requires GoodCommands(c) && HoldsCommands(r, c) && HoldsCustom(r, c.custom) && Defines(c, id)
    ensures IsRunnable(r, c.custom, id)
  {
    hide GoodIds, IsCommandId, Trim;
    if id in c.custom {
      KeptIsNonBlank(c.custom[id]);
    }
  }

  lemma ApprovedAgain(r: Record, c: Commands, ids: seq<string>)
    requires GoodCommands(c) && HoldsCommands(r, c) && HoldsCustom(r, c.custom)
    requires forall i :: 0 <= i < |ids| ==> Defines(c, ids[i])
    ensures NotRunnable(r, c.custom, ids) == {}
  {
    hide GoodCommands, HoldsCommands, HoldsCustom, Defines, IsRunnable, IsCommandId;
    forall i | 0 <= i < |ids| ensures IsRunnable(r, c.custom, ids[i]) {
      DefinedIsRunnable(r, c, ids[i]);
    }
  }

  lemma CommandsAgain(r: Record, c: Commands)
    requires GoodCommands(c) && HoldsCommands(r, c) && HoldsCustom(r, c.custom)
    ensures CheckCommands(Some(r), {}) == Checked(Some(c), {})
  {
    hide Get, Trim, ReadStringArray, CustomCommands, BadCustoms, BadIds, NotRunnable, HoldsCustom, GoodIds, GoodCustom,
      Defines, TextValues;
    CustomAgain(r, c.custom);
    GoodIdsAreKept(c.validationRequired);
    GoodIdsAreKept(c.approveRequired);
    ListAgain(r, "validation_required", "commands.validation_required", c.validationRequired);
    ListAgain(r, "meta_review_approve_required", "commands.meta_review_approve_required", c.approveRequired);
    if c.validationRequired.Some? {
      IdsAgain(c.validationRequired.value, "commands.validation_required");
    }
    if c.approveRequired.Some? {
      IdsAgain(c.approveRequired.value, "commands.meta_review_approve_required");
      ApprovedAgain(r, c, c.approveRequired.value);
    }
  }

  lemma GoodIdsAreKept(ids: Option<seq<string>>)
    requires ids.Some? ==> GoodIds(ids.value)
    ensures ids.Some? ==> AllKept(ids.value)
  {
  }
}
