/** What every accepted configuration satisfies. */
module BubbleCanonical {
  import opened Text
  import opened TomlParser
  import opened BubbleConfig
  import opened BubbleValidation

  predicate NonBlank(s: string) { Trim(Js, s) != "" }

  predicate OptNonBlank(s: Option<string>) { s.Some? ==> NonBlank(s.value) }

  predicate GoodNames(n: Names) {
    && NonBlank(n.id) && NonBlank(n.repoPath) && NonBlank(n.baseBranch) && NonBlank(n.bubbleBranch)
    && OptNonBlank(n.bubbleInstanceId) && (n.bubbleInstanceId.Some? ==> IsInstanceId(n.bubbleInstanceId.value))
  }

  predicate GoodModes(m: Modes) {
    && m.workMode in WORK_MODES && m.qualityMode in QUALITY_MODES && m.reviewArtifactType in ARTIFACT_TYPES
    && m.pairflowCommandProfile in COMMAND_PROFILES && m.reviewerContextMode in CONTEXT_MODES
  }

  predicate GoodTimeouts(t: Option<map<string, nat>>) {
    t.Some? ==> t.value != map[] && forall k :: k in t.value ==> k in AGENT_NAMES && t.value[k] > 0
  }

  predicate GoodLimits(l: Limits) {
    && l.watchdogMinutes >= 1 && l.maxRounds >= 1 && l.severityGateRound >= 4 && GoodTimeouts(l.watchdogByAgent)
  }

  predicate GoodOpeners(o: Openers) {
    && (o.attachLauncher.Some? ==> o.attachLauncher.value in ATTACH_LAUNCHERS)
    && OptNonBlank(o.openCommand) && OptNonBlank(o.openRemoteCommand)
  }

  /** What trimming and then stripping slashes leaves: nothing, or a text that starts visibly and
      does not end with a slash. It may still end with white space. */
  predicate Stripped(model: Option<string>) {
    model.Some? && model.value != "" ==> !IsSpace(Js, model.value[0]) && model.value[|model.value| - 1] != '/'
  }

  predicate GoodAgents(a: Agents) {
    && a.implementer in AGENT_NAMES && a.reviewer in AGENT_NAMES && a.metaReviewer in AGENT_NAMES
    && Stripped(a.implementerModel) && Stripped(a.reviewerModel) && Stripped(a.metaReviewerModel)
  }

  predicate GoodRoles(r: RoleMcp) {
    r.implementer in MCP_POLICIES && r.reviewer in MCP_POLICIES && r.metaReviewer in MCP_POLICIES
  }

  /** Trimmed and not empty. */
  predicate Kept(s: string) { s != "" && Tight(Js, s) }

  predicate AllKept(texts: seq<string>) { forall i :: 0 <= i < |texts| ==> Kept(texts[i]) }

  predicate GoodIds(ids: seq<string>) {
    && AllKept(ids)
    && (forall i :: 0 <= i < |ids| ==> IsCommandId(ids[i]))
    && forall i, j :: 0 <= i < j < |ids| ==> ids[i] != ids[j]
  }

  /** A command that the configuration itself defines. */
  predicate Defines(c: Commands, id: string) {
    || id in c.custom || id == "test" || id == "typecheck"
    || (id == "lint" && c.lint.Some?) || (id == "bootstrap" && c.bootstrap.Some?)
  }

  predicate GoodCustom(custom: map<string, string>) {
    forall k :: k in custom ==> IsCommandId(k) && k !in FIXED_COMMAND_KEYS && Kept(custom[k])
  }

  predicate GoodCommands(c: Commands) {
    && NonBlank(c.test) && NonBlank(c.typecheck) && OptNonBlank(c.lint) && OptNonBlank(c.bootstrap)
    && GoodCustom(c.custom)
    && (c.validationRequired.Some? ==> GoodIds(c.validationRequired.value))
    && (c.approveRequired.Some? ==>
          && GoodIds(c.approveRequired.value)
          && forall i :: 0 <= i < |c.approveRequired.value| ==> Defines(c, c.approveRequired.value[i]))
  }

  predicate GoodTarget(t: ValidationTarget) {
    && NonBlank(t.id) && IsTargetId(t.id)
    && (t.cwd.Some? ==> NormalizeCwd(t.cwd.value) == t.cwd && NonBlank(t.cwd.value))
    && (t.paths.Some? ==>
          AllKept(t.paths.value)
          && forall i :: 0 <= i < |t.paths.value| ==> NormalizeRelativePath(t.paths.value[i]) == Some(t.paths.value[i]))
  }

  predicate GoodNotifications(n: Notifications) { OptNonBlank(n.waitingHumanSound) && OptNonBlank(n.convergedSound) }

  predicate GoodOverlay(o: LocalOverlay) {
    o.mode in OVERLAY_MODES && AllKept(o.entries) && AllSafe(o.entries)
  }

  predicate GoodIdeation(i: Ideation) {
    && (i.taskPending ==> i.mode)
    && (i.startedAt.Some? ==> IsIsoTimestamp(i.startedAt.value))
    && (i.kickedOffAt.Some? ==> IsIsoTimestamp(i.kickedOffAt.value))
    && OptNonBlank(i.parseWarning)
    && (i.mode || i.startedAt.Some? || i.kickedOffAt.Some? || i.parseWarning.Some?)
  }

  predicate GoodPolicy(p: ReviewPolicy) {
    && p.loopMode in LOOP_MODES && p.blockingSeverity in SEVERITIES && p.reworkSeverity in SEVERITIES
    && (p.cleanRuns.Some? ==> p.cleanRuns.value >= 1)
  }

  predicate GoodExecutor(e: Executor) { e.kind in EXECUTOR_TYPES && NonBlank(e.kind) && NonBlank(e.remote) }

  predicate GoodContents(c: Contents) {
    && GoodAgents(c.agents) && GoodRoles(c.roleMcp)
    && (c.commands.Some? ==> GoodCommands(c.commands.value))
    && (c.target.Some? ==> GoodTarget(c.target.value))
    && GoodNotifications(c.notifications) && GoodOverlay(c.overlay)
    && OptNonBlank(c.gates.parseWarning)
    && (c.ideation.Some? ==> GoodIdeation(c.ideation.value))
    && (c.policy.Some? ==> GoodPolicy(c.policy.value))
    && (c.executor.Some? ==> GoodExecutor(c.executor.value))
  }

  function NamesOf(c: Config): Names {
    Names(c.id, c.bubbleInstanceId, c.repoPath, c.baseBranch, c.bubbleBranch)
  }

  function ModesOf(c: Config): Modes {
    Modes(c.workMode, c.qualityMode, c.reviewArtifactType, c.pairflowCommandProfile, c.reviewerContextMode)
  }

  function LimitsOf(c: Config): Limits {
    Limits(c.watchdogMinutes, c.watchdogByAgent, c.maxRounds, c.severityGateRound, c.commitRequiresApproval,
           c.accuracyCritical)
  }

  function OpenersOf(c: Config): Openers { Openers(c.attachLauncher, c.openCommand, c.openRemoteCommand) }

  function ContentsOf(c: Config): Contents {
    Contents(c.agents, c.roleMcp, Some(c.commands), c.validationTarget, c.notifications, c.localOverlay,
             c.docContractGates, c.ideation, c.reviewPolicy, c.executor)
  }

  predicate Canonical(c: Config) {
    GoodNames(NamesOf(c)) && GoodModes(ModesOf(c)) && GoodLimits(LimitsOf(c)) && GoodOpeners(OpenersOf(c))
    && GoodContents(ContentsOf(c))
  }

  // ---- Blank and visible text

  lemma {:induction false} NonBlankHasVisible(s: string)
    ensures NonBlank(s) <==> exists i :: 0 <= i < |s| && !IsSpace(Js, s[i])
  {
    var t := TrimStart(Js, s);
    TrimStartSuffix(Js, s);
    TrimEndPrefix(Js, t);
    if NonBlank(s) {
      assert t != "" && !IsSpace(Js, s[|s| - |t|]);
    } else {
      forall i | 0 <= i < |s| ensures IsSpace(Js, s[i]) {
        assert t == "";
        TrimStartSpaces(s, i);
      }
    }
  }

  lemma {:induction false} TrimStartSpaces(s: string, i: nat)
    requires i < |s| - |TrimStart(Js, s)|
    ensures IsSpace(Js, s[i])
  {
    if i > 0 {
      TrimStartSpaces(s[1..], i - 1);
    }
  }

  lemma NonBlankConcat(a: string, b: string)
    requires NonBlank(a) || NonBlank(b)
    ensures NonBlank(a + b)
  {
    NonBlankHasVisible(a);
    NonBlankHasVisible(b);
    NonBlankHasVisible(a + b);
    if NonBlank(a) {
      var i :| 0 <= i < |a| && !IsSpace(Js, a[i]);
      assert (a + b)[i] == a[i];
    } else {
      var i :| 0 <= i < |b| && !IsSpace(Js, b[i]);
      assert (a + b)[|a| + i] == b[i];
    }
  }

  lemma TrimmedIsKept(s: string)
    requires NonBlank(s)
    ensures Kept(Trim(Js, s))
  {
    TrimIsTight(Js, s);
  }

  lemma KeptIsNonBlank(s: string)
    requires Kept(s)
    ensures NonBlank(s) && Trim(Js, s) == s
  {
    TightIsFixed(Js, s);
  }

  lemma {:induction false} TrimmedTextsAreKept(items: seq<Value>)
    ensures AllKept(TrimmedTexts(items))
    decreases items
  {
    if items != [] {
      TrimmedTextsAreKept(items[1..]);
      if NonEmptyText(items[0]) {
        TrimmedIsKept(items[0].text);
      }
    }
  }

  // ---- Plain checks

  lemma NamesAreGood(r: Record, log: Complaints)
    requires CheckNames(r, log).log == {}
    ensures GoodNames(CheckNames(r, log).value)
  {
    hide IsInstanceId, Trim;
  }

  lemma ModesAreGood(r: Record, log: Complaints)
    requires CheckModes(r, log).log == {}
    ensures GoodModes(CheckModes(r, log).value)
  {
  }

  lemma LimitsAreGood(r: Record, log: Complaints)
    requires CheckLimits(r, log).log == {}
    ensures GoodLimits(CheckLimits(r, log).value)
  {
    var input := Get(r, "watchdog_timeout_minutes_by_agent");
    if input.Some? && input.value.Rec? {
      TimeoutsAreGood(input.value.fields);
    }
  }

  lemma TimeoutsAreGood(r: Record)
    ensures GoodTimeouts(if Timeouts(r) == map[] then None else Some(Timeouts(r)))
  {
  }

  lemma OpenersAreGood(r: Record, log: Complaints)
    requires CheckOpeners(r, log).log == {}
    ensures GoodOpeners(CheckOpeners(r, log).value)
  {
    hide Trim;
  }

  lemma {:induction false} StripKeepsStart(s: string)
    ensures StripSlashes(s) <= s
    ensures StripSlashes(s) != "" ==> StripSlashes(s)[|StripSlashes(s)| - 1] != '/'
    ensures s != "" && s[|s| - 1] != '/' ==> StripSlashes(s) == s
  {
    if s != "" && s[|s| - 1] == '/' {
      StripKeepsStart(s[..|s| - 1]);
    }
  }

  lemma ModelIsStripped(r: Record, key: string, path: string, log: Complaints)
    ensures Stripped(ReadModel(r, key, path, log).value)
  {
    if key in r && r[key].Str? {
      TrimIsTight(Js, r[key].text);
      StripKeepsStart(Trim(Js, r[key].text));
    }
  }

  lemma AgentsAreGood(section: Record, log: Complaints)
    requires CheckAgents(Some(section), log).log == {}
    ensures GoodAgents(CheckAgents(Some(section), log).value)
  {
    hide ReadModel, Trim, Stripped;
    forall key: string, path: string, log: Complaints
      ensures Stripped(ReadModel(section, key, path, log).value)
    {
      ModelIsStripped(section, key, path, log);
    }
  }

  lemma RolesAreGood(section: Option<Record>, log: Complaints)
    requires CheckRoleMcp(section, log).log == {}
    ensures GoodRoles(CheckRoleMcp(section, log).value)
  {
  }

  lemma NotificationsAreGood(section: Option<Record>, log: Complaints)
    requires CheckNotifications(section, log).log == {}
    ensures GoodNotifications(CheckNotifications(section, log).value)
  {
    hide Trim;
  }

  lemma PolicyIsGood(section: Option<Record>, log: Complaints)
    requires CheckReviewPolicy(section, log).log == {}
    ensures var p := CheckReviewPolicy(section, log).value; p.Some? ==> GoodPolicy(p.value)
  {
  }

  lemma ExecutorIsGood(section: Option<Record>, log: Complaints)
    requires CheckExecutor(section, log).log == {}
    ensures var e := CheckExecutor(section, log).value; e.Some? ==> GoodExecutor(e.value)
  {
    hide Trim;
  }

  lemma OverlayIsGood(section: Option<Record>, log: Complaints)
    requires CheckOverlay(section, log).log == {}
    ensures GoodOverlay(CheckOverlay(section, log).value)
  {
    hide Trim, AllSafe, TrimmedTexts, BadItems;
    DefaultEntriesAreKept();
    if section.Some? {
      var entries := Get(section.value, "entries");
      if entries.Some? && entries.value.List? {
        TrimmedTextsAreKept(entries.value.items);
      }
    }
    DefaultEntriesAreSafe();
  }

  lemma DefaultEntriesAreKept()
    ensures AllKept(DEFAULT_OVERLAY_ENTRIES)
  {
  }

  /** Holds no slash, so it is one segment. */
  lemma PlainEntryIsSafe(entry: string)
    requires entry !in {"", ".", ".."} && '/' !in entry && '\\' !in entry
    ensures IsSafeOverlayEntry(entry)
  {
    assert Slashed(entry) == entry;
    SplitNone(entry, '/');
  }

  lemma DefaultEntriesAreSafe()
    ensures AllSafe(DEFAULT_OVERLAY_ENTRIES)
  {
    hide IsSafeOverlayEntry;
    PlainEntryIsSafe(".opencode");
    PlainEntryIsSafe(".reasonix");
    PlainEntryIsSafe(".mcp.json");
    PlainEntryIsSafe(".env.local");
    PlainEntryIsSafe(".env.production");
  }

  // ---- Commands

  lemma BadIdIsListed(ids: seq<string>, path: string, i: nat)
    requires i < |ids| && (!IsCommandId(ids[i]) || ids[i] in ids[..i])
    ensures BadIds(ids, path) != {}
  {
    hide IsCommandId;
    assert Complaint(Indexed(path, i), if IsCommandId(ids[i]) then DuplicateId else MalformedId) in BadIds(ids, path);
  }

  lemma IdsAreGood(ids: seq<string>, path: string)
    requires AllKept(ids) && BadIds(ids, path) == {}
    ensures GoodIds(ids)
  {
    hide IsCommandId, BadIds;
    forall i | 0 <= i < |ids| ensures IsCommandId(ids[i]) && ids[i] !in ids[..i] {
      if !IsCommandId(ids[i]) || ids[i] in ids[..i] {
        BadIdIsListed(ids, path, i);
      }
    }
    forall i, j | 0 <= i < j < |ids| ensures ids[i] != ids[j] {
      assert ids[i] == ids[..j][i];
    }
  }

  /** An approved id that nothing complains about is a command the configuration defines. */
  lemma RunnableIsDefined(r: Record, c: Commands, id: string)
    requires c.custom == CustomCommands(r) && IsCommandId(id) && IsRunnable(r, c.custom, id)
    requires "lint" in r ==> c.lint.Some?
    requires "bootstrap" in r ==> c.bootstrap.Some?
    ensures Defines(c, id)
  {
    if id !in c.custom {
      assert id in r && NonEmptyText(r[id]);
      assert id in FIXED_COMMAND_KEYS;
      assert id !in RESERVED_COMMAND_IDS;
    }
  }

  lemma NotRunnableIsListed(r: Record, custom: map<string, string>, ids: seq<string>, i: nat)
    requires i < |ids| && IsCommandId(ids[i]) && ids[i] !in ids[..i] && !IsRunnable(r, custom, ids[i])
    ensures NotRunnable(r, custom, ids) != {}
  {
    hide IsCommandId, IsRunnable;
    assert Complaint("commands." + ids[i], NotTextForApproval) in NotRunnable(r, custom, ids);
  }

  lemma ApprovedAreDefined(r: Record, c: Commands, ids: seq<string>)
    requires GoodIds(ids) && NotRunnable(r, c.custom, ids) == {} && c.custom == CustomCommands(r)
    requires "lint" in r ==> c.lint.Some?
    requires "bootstrap" in r ==> c.bootstrap.Some?
    ensures forall i :: 0 <= i < |ids| ==> Defines(c, ids[i])
  {
    hide IsCommandId, IsRunnable, CustomCommands, Defines, NotRunnable;
    forall i | 0 <= i < |ids| ensures Defines(c, ids[i]) {
      assert ids[i] !in ids[..i];
      if !IsRunnable(r, c.custom, ids[i]) {
        NotRunnableIsListed(r, c.custom, ids, i);
      }
      RunnableIsDefined(r, c, ids[i]);
    }
  }

  lemma CustomsAreGood(r: Record)
    ensures GoodCustom(CustomCommands(r))
  {
    hide IsCommandId;
    forall k | k in CustomCommands(r) ensures Kept(CustomCommands(r)[k]) {
      TrimmedIsKept(r[k].text);
    }
  }

  /** The list read under a key, with its complaints seen separately. */
  lemma ListRead(r: Record, key: string, path: string, log: Complaints)
    requires ReadStringArray(r, key, path, log).log == {}
    ensures ReadStringArray(r, key, path, log).value.Some? ==> AllKept(ReadStringArray(r, key, path, log).value.value)
  {
    if key in r && r[key].List? {
      TrimmedTextsAreKept(r[key].items);
    }
  }

  lemma CommandsAreGood(r: Record, log: Complaints)
    requires CheckCommands(Some(r), log).log == {}
    ensures GoodCommands(CheckCommands(Some(r), log).value.value)
  {
    hide Trim, BadIds, NotRunnable, BadCustoms, CustomCommands, ReadStringArray, ReadBoolean, GoodIds, GoodCustom, Defines;
    var test := ReadString(r, "test", "commands.test", true, log);
    var typecheck := ReadString(r, "typecheck", "commands.typecheck", true, test.log);
    var lint := ReadString(r, "lint", "commands.lint", false, typecheck.log);
    var bootstrap := ReadString(r, "bootstrap", "commands.bootstrap", false, lint.log);
    var requiredPath, approvePath := "commands.validation_required", "commands.meta_review_approve_required";
    var required := ReadStringArray(r, "validation_required", requiredPath, bootstrap.log);
    var approve := ReadStringArray(r, "meta_review_approve_required", approvePath, required.log);
    ListRead(r, "validation_required", requiredPath, bootstrap.log);
    ListRead(r, "meta_review_approve_required", approvePath, required.log);
    CustomsAreGood(r);
    var c := CheckCommands(Some(r), log).value.value;
    if required.value.Some? {
      IdsAreGood(required.value.value, requiredPath);
    }
    if approve.value.Some? {
      IdsAreGood(approve.value.value, approvePath);
      ApprovedAreDefined(r, c, approve.value.value);
    }
  }

  // ---- Validation target

  lemma NormalizedIsStable(input: string)
    requires NormalizeRelativePath(input).Some?
    ensures var p := NormalizeRelativePath(input).value;
            Kept(p) && p == Trim(Js, input) && NormalizeRelativePath(p) == Some(p)
  {
    var p := Trim(Js, input);
    TrimIsTight(Js, input);
    TightIsFixed(Js, p);
    SplitParts(p, '/');
  }

  lemma {:induction false} PathsAreStable(paths: seq<string>)
    ensures var ps := NormalizedPaths(paths);
            AllKept(ps) && forall i :: 0 <= i < |ps| ==> NormalizeRelativePath(ps[i]) == Some(ps[i])
    decreases paths
  {
    hide NormalizeRelativePath;
    if paths != [] {
      PathsAreStable(paths[1..]);
      if NormalizeRelativePath(paths[0]).Some? {
        NormalizedIsStable(paths[0]);
      }
    }
  }

  lemma CwdIsStable(input: string)
    requires NormalizeCwd(input).Some?
    ensures NormalizeCwd(NormalizeCwd(input).value) == NormalizeCwd(input) && NonBlank(NormalizeCwd(input).value)
  {
    hide NormalizeRelativePath;
    NormalizedIsStable(input);
    KeptIsNonBlank(NormalizeCwd(input).value);
  }

  lemma TargetIsGood(section: Option<Record>, log: Complaints)
    requires CheckTarget(section, log).log == {}
    ensures var t := CheckTarget(section, log).value; t.Some? ==> GoodTarget(t.value)
  {
    hide Trim, NormalizeCwd, NormalizeRelativePath, NormalizedPaths, BadPaths, ReadStringArray, IsTargetId, AllKept;
    if section.Some? {
      var r := section.value;
      var id := ReadString(r, "id", "validation_target.id", true, log);
      var cwd := ReadString(r, "cwd", "validation_target.cwd", false, id.log);
      var paths := ReadStringArray(r, "paths", "validation_target.paths", cwd.log);
      if cwd.value.Some? && NormalizeCwd(cwd.value.value).Some? {
        CwdIsStable(cwd.value.value);
      }
      if paths.value.Some? {
        PathsAreStable(paths.value.value);
      }
    }
  }

  // ---- Warnings

  lemma VisibleStart(prefix: string, rest: string)
    requires prefix != "" && !IsSpace(Js, prefix[0])
    ensures NonBlank(prefix + rest)
  {
    NonBlankHasVisible(prefix);
    NonBlankConcat(prefix, rest);
  }

  lemma IdeationWarningIsVisible(text: string)
    ensures NonBlank(IdeationWarning(text))
  {
    hide NonBlank;
    VisibleStart(IDEATION_WARNING, text);
  }

  lemma GateWarningIsVisible(v: Value)
    ensures NonBlank(GateWarning(v))
  {
    hide NonBlank, Describe;
    VisibleStart("doc_contract_gates.",
                 "round_gate_applies_after must be a non-negative integer. Received " + Describe(v) + ".");
  }

  lemma {:induction false} JoinIsVisible(warnings: seq<string>)
    requires warnings != [] && NonBlank(warnings[0])
    ensures NonBlank(Join(warnings, " "))
  {
    if |warnings| > 1 {
      NonBlankConcat(warnings[0], " ");
      NonBlankConcat(warnings[0] + " ", Join(warnings[1..], " "));
    }
  }

  lemma JoinedWarningIsVisible(existing: Option<string>, warnings: seq<string>)
    requires OptNonBlank(existing) && (warnings != [] ==> NonBlank(warnings[0]))
    ensures OptNonBlank(JoinWarnings(existing, warnings))
    ensures JoinWarnings(existing, warnings).Some? <==> existing.Some? || warnings != []
  {
    hide NonBlank;
    if warnings != [] {
      JoinIsVisible(warnings);
      if existing.Some? {
        NonBlankConcat(existing.value, " ");
        NonBlankConcat(existing.value + " ", Join(warnings, " "));
      }
    }
  }

  lemma GatesAreGood(section: Option<Record>, log: Complaints)
    requires CheckGates(section, log).log == {}
    ensures OptNonBlank(CheckGates(section, log).value.parseWarning)
  {
    hide Trim, GateWarning, JoinWarnings;
    var existing := ExistingWarning(section, "doc_contract_gates.parse_warning", log);
    assert OptNonBlank(existing.value);
    var candidate := Field(section, "round_gate_applies_after");
    if candidate.Some? {
      GateWarningIsVisible(candidate.value);
      JoinedWarningIsVisible(existing.value, [GateWarning(candidate.value)]);
    }
    JoinedWarningIsVisible(existing.value, []);
  }

  predicate Visible(warnings: seq<string>) { warnings != [] ==> NonBlank(warnings[0]) }

  lemma FlagWarning(section: Option<Record>, key: string)
    ensures Visible(IdeationFlag(section, key).1)
  {
    hide NonBlank, IdeationWarning;
    var v := Field(section, key);
    if v.Some? {
      IdeationWarningIsVisible(key + " must be boolean. Received " + Describe(v.value) + ".");
    }
  }

  lemma TimeWarning(section: Option<Record>, key: string)
    ensures Visible(IdeationTime(section, key).1)
    ensures IdeationTime(section, key).0.Some? ==> IsIsoTimestamp(IdeationTime(section, key).0.value)
  {
    hide NonBlank, IdeationWarning, IsIsoTimestamp;
    var v := Field(section, key);
    if v.Some? {
      IdeationWarningIsVisible(key + " must be an ISO timestamp. Received " + Describe(v.value) + ".");
    }
  }

  lemma IdeationIsGood(section: Option<Record>, log: Complaints)
    requires CheckIdeation(section, log).log == {}
    ensures var i := CheckIdeation(section, log).value; i.Some? ==> GoodIdeation(i.value)
  {
    hide Trim, IdeationFlag, IdeationTime, IdeationWarning, JoinWarnings, IsIsoTimestamp;
    var existing := ExistingWarning(section, "ideation.parse_warning", log);
    assert OptNonBlank(existing.value);
    FlagWarning(section, "mode");
    FlagWarning(section, "task_pending");
    TimeWarning(section, "started_at");
    TimeWarning(section, "kicked_off_at");
    IdeationWarningIsVisible(PENDING_WITHOUT_MODE);
    var (mode, modeWarnings) := IdeationFlag(section, "mode");
    var (pending, pendingWarnings) := IdeationFlag(section, "task_pending");
    var (startedAt, startedWarnings) := IdeationTime(section, "started_at");
    var (kickedOffAt, kickedOffWarnings) := IdeationTime(section, "kicked_off_at");
    var last := if !mode && pending then [IdeationWarning(PENDING_WITHOUT_MODE)] else [];
    JoinedWarningIsVisible(existing.value, modeWarnings + pendingWarnings + startedWarnings + kickedOffWarnings + last);
  }

  // ---- The whole configuration

  lemma ContentsAreGood(s: Sections, log: Complaints)
    requires CheckContents(s, log).log == {} && s.agents.Some? && s.commands.Some?
    ensures GoodContents(CheckContents(s, log).value)
  {
    hide CheckAgents, CheckRoleMcp, CheckCommands, CheckTarget, CheckNotifications, CheckOverlay, CheckGates,
      CheckIdeation, CheckReviewPolicy, CheckExecutor, GoodAgents, GoodRoles, GoodCommands, GoodTarget,
      GoodNotifications, GoodOverlay, OptNonBlank, GoodIdeation, GoodPolicy, GoodExecutor;
    AgentsAreGood(s.agents.value, log);
    var agents := CheckAgents(s.agents, log);
    RolesAreGood(s.roleMcp, agents.log);
    var roleMcp := CheckRoleMcp(s.roleMcp, agents.log);
    CommandsAreGood(s.commands.value, roleMcp.log);
    var commands := CheckCommands(s.commands, roleMcp.log);
    TargetIsGood(s.target, commands.log);
    var target := CheckTarget(s.target, commands.log);
    NotificationsAreGood(s.notifications, target.log);
    var notifications := CheckNotifications(s.notifications, target.log);
    OverlayIsGood(s.overlay, notifications.log);
    var overlay := CheckOverlay(s.overlay, notifications.log);
    GatesAreGood(s.gates, overlay.log);
    var gates := CheckGates(s.gates, overlay.log);
    IdeationIsGood(s.ideation, gates.log);
    var ideation := CheckIdeation(s.ideation, gates.log);
    PolicyIsGood(s.policy, ideation.log);
    var policy := CheckReviewPolicy(s.policy, ideation.log);
    ExecutorIsGood(s.executor, policy.log);
  }

  /** Every accepted configuration is canonical. */
  lemma AcceptedIsCanonical(input: Value)
    requires Validate(input).Accepted?
    ensures Canonical(Validate(input).config)
  {
    hide CheckNames, CheckModes, CheckLimits, CheckOpeners, CheckSections, CheckContents,
      GoodNames, GoodModes, GoodLimits, GoodOpeners, GoodContents;
    var r := input.fields;
    var names := CheckNames(r, {});
    NamesAreGood(r, {});
    var modes := CheckModes(r, names.log);
    ModesAreGood(r, names.log);
    var limits := CheckLimits(r, modes.log);
    LimitsAreGood(r, modes.log);
    var openers := CheckOpeners(r, limits.log);
    OpenersAreGood(r, limits.log);
    var sections := CheckSections(r, openers.log);
    ContentsAreGood(sections.value, sections.log);
    var c := Validate(input).config;
    var contents := CheckContents(sections.value, sections.log).value;
    assert ContentsOf(c) == contents;
  }
}
