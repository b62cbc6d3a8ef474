/** The printed form of a configuration: its sections in the printer's order, unset fields as
    unset slots. Keys of maps are printed in any given enumeration of them. */
module BubbleRender {
  import opened Text
  import opened TomlParser
  import opened TomlPrinter
  import opened TomlDocuments
  import opened BubbleConfig
  import opened BubbleValidation

  // ---- Slots

  function TextSlot(key: string, text: string): Slot { Set(key, Item.Text(text)) }

  function WhenDefined(key: string, text: Option<string>): Slot {
    if text.Some? then TextSlot(key, text.value) else Unset
  }

  /** Printed only when the text is there and not empty. */
  function WhenTruthy(key: string, text: Option<string>): Slot {
    if text.Some? && text.value != "" then TextSlot(key, text.value) else Unset
  }

  function WhenListed(key: string, texts: Option<seq<string>>): Slot {
    if texts.Some? then Set(key, Texts(texts.value)) else Unset
  }

  const UNSET_LAUNCHER_HEAD := "attach_launcher unset; attach uses "
  const UNSET_LAUNCHER_TAIL := "~/.pairflow/config.toml, then \"auto\""
  const UNSET_LAUNCHER := UNSET_LAUNCHER_HEAD + UNSET_LAUNCHER_TAIL

  const NAME_KEYS: seq<string> := ["id", "bubble_instance_id", "repo_path", "base_branch", "bubble_branch"]

  function NameSlots(c: Config): seq<Slot> {
    [TextSlot("id", c.id),
     WhenTruthy("bubble_instance_id", c.bubbleInstanceId),
     TextSlot("repo_path", c.repoPath),
     TextSlot("base_branch", c.baseBranch),
     TextSlot("bubble_branch", c.bubbleBranch)]
  }

  const MODE_KEYS: seq<string> := [
    "work_mode", "quality_mode", "review_artifact_type", "pairflow_command_profile", "reviewer_context_mode"
  ]

  function ModeSlots(c: Config): seq<Slot> {
    [TextSlot("work_mode", c.workMode),
     TextSlot("quality_mode", c.qualityMode),
     TextSlot("review_artifact_type", c.reviewArtifactType),
     TextSlot("pairflow_command_profile", c.pairflowCommandProfile),
     TextSlot("reviewer_context_mode", c.reviewerContextMode)]
  }

  const LIMIT_KEYS: seq<string> := [
    "watchdog_timeout_minutes", "max_rounds", "severity_gate_round", "commit_requires_approval", "accuracy_critical"
  ]

  function LimitSlots(c: Config): seq<Slot> {
    [Set("watchdog_timeout_minutes", Count(c.watchdogMinutes)),
     Set("max_rounds", Count(c.maxRounds)),
     Set("severity_gate_round", Count(c.severityGateRound)),
     Set("commit_requires_approval", Item.Flag(c.commitRequiresApproval)),
     Set("accuracy_critical", Item.Flag(c.accuracyCritical))]
  }

  const OPENER_KEYS: seq<string> := ["attach_launcher", "open_command", "open_remote_command"]

  /** An unset launcher leaves a comment in its place. */
  function OpenerSlots(c: Config): seq<Slot> {
    [if c.attachLauncher.Some? then TextSlot("attach_launcher", c.attachLauncher.value) else Note(UNSET_LAUNCHER),
     WhenTruthy("open_command", c.openCommand),
     WhenTruthy("open_remote_command", c.openRemoteCommand)]
  }

  const TOP_KEYS := NAME_KEYS + MODE_KEYS + LIMIT_KEYS + OPENER_KEYS

  function TopSlots(c: Config): seq<Slot> {
    NameSlots(c) + ModeSlots(c) + LimitSlots(c) + OpenerSlots(c)
  }

  const POLICY_KEYS: seq<string> := [
    "review_loop_mode", "reviewer_blocking_min_severity", "meta_review_auto_rework_min_severity",
    "meta_review_consecutive_clean_runs_required"
  ]

  function PolicySlots(p: ReviewPolicy): seq<Slot> {
    [TextSlot("review_loop_mode", p.loopMode),
     TextSlot("reviewer_blocking_min_severity", p.blockingSeverity),
     TextSlot("meta_review_auto_rework_min_severity", p.reworkSeverity),
     if p.cleanRuns.Some? then Set("meta_review_consecutive_clean_runs_required", Count(p.cleanRuns.value)) else Unset]
  }

  const EXECUTOR_SLOT_KEYS: seq<string> := ["type", "remote"]

  function ExecutorSlots(e: Executor): seq<Slot> {
    [TextSlot("type", e.kind), TextSlot("remote", e.remote)]
  }

  const TARGET_KEYS: seq<string> := ["id", "cwd", "paths"]

  function TargetSlots(t: ValidationTarget): seq<Slot> {
    [TextSlot("id", t.id), WhenDefined("cwd", t.cwd), WhenListed("paths", t.paths)]
  }

  const AGENT_KEYS: seq<string> := [
    "implementer", "implementer_model", "reviewer", "reviewer_model", "meta_reviewer", "meta_reviewer_model"
  ]

  function AgentSlots(a: Agents): seq<Slot> {
    [TextSlot("implementer", a.implementer),
     WhenDefined("implementer_model", a.implementerModel),
     TextSlot("reviewer", a.reviewer),
     WhenDefined("reviewer_model", a.reviewerModel),
     TextSlot("meta_reviewer", a.metaReviewer),
     WhenDefined("meta_reviewer_model", a.metaReviewerModel)]
  }

  /** One entry per agent, in the given order. */
  function TimeoutSlots(order: seq<string>, timeouts: map<string, nat>): seq<Slot>
    requires forall i :: 0 <= i < |order| ==> order[i] in timeouts
  {
    seq(|order|, i requires 0 <= i < |order| => Set(order[i], Count(timeouts[order[i]])))
  }

  const ROLE_SLOT_KEYS: seq<string> := ["implementer", "reviewer", "meta_reviewer"]

  function RoleSlots(r: RoleMcp): seq<Slot> {
    [TextSlot("implementer", r.implementer), TextSlot("reviewer", r.reviewer), TextSlot("meta_reviewer", r.metaReviewer)]
  }

  const HEAD_COMMAND_KEYS: seq<string> := ["bootstrap", "lint", "test", "typecheck"]

  const TAIL_COMMAND_KEYS: seq<string> := [
    "meta_review_approve_required", "validation_required", "validation_required_explicit"
  ]

  /** The user's own commands in the given order; blank ones are not printed. */
  function CustomSlots(order: seq<string>, custom: map<string, string>): seq<Slot>
    requires forall i :: 0 <= i < |order| ==> order[i] in custom
  {
    seq(|order|, i requires 0 <= i < |order| =>
      if Trim(Js, custom[order[i]]) != "" then TextSlot(order[i], custom[order[i]]) else Unset)
  }

  function HeadCommandSlots(c: Commands): seq<Slot> {
    [WhenTruthy("bootstrap", c.bootstrap),
     WhenTruthy("lint", c.lint),
     TextSlot("test", c.test),
     TextSlot("typecheck", c.typecheck)]
  }

  function TailCommandSlots(c: Commands): seq<Slot> {
    [WhenListed("meta_review_approve_required", c.approveRequired),
     WhenListed("validation_required", c.validationRequired),
     if c.requiredExplicit then Set("validation_required_explicit", Item.Flag(true)) else Unset]
  }

  function CommandSlots(c: Commands, order: seq<string>): seq<Slot>
    requires forall i :: 0 <= i < |order| ==> order[i] in c.custom
  {
    HeadCommandSlots(c) + CustomSlots(order, c.custom) + TailCommandSlots(c)
  }

  const NOTIFICATION_KEYS: seq<string> := ["enabled", "waiting_human_sound", "converged_sound"]

  function NotificationSlots(n: Notifications): seq<Slot> {
    [Set("enabled", Item.Flag(n.enabled)),
     WhenTruthy("waiting_human_sound", n.waitingHumanSound),
     WhenTruthy("converged_sound", n.convergedSound)]
  }

  const OVERLAY_KEYS: seq<string> := ["enabled", "mode", "entries"]

  function OverlaySlots(o: LocalOverlay): seq<Slot> {
    [Set("enabled", Item.Flag(o.enabled)), TextSlot("mode", o.mode), Set("entries", Texts(o.entries))]
  }

  const GATE_KEYS: seq<string> := ["round_gate_applies_after", "parse_warning"]

  function GateSlots(g: DocContractGates): seq<Slot> {
    [Set("round_gate_applies_after", Count(g.roundGateAppliesAfter)), WhenDefined("parse_warning", g.parseWarning)]
  }

  const IDEATION_KEYS: seq<string> := ["mode", "task_pending", "started_at", "kicked_off_at", "parse_warning"]

  function IdeationSlots(i: Ideation): seq<Slot> {
    [Set("mode", Item.Flag(i.mode)),
     Set("task_pending", Item.Flag(i.taskPending)),
     WhenDefined("started_at", i.startedAt),
     WhenDefined("kicked_off_at", i.kickedOffAt),
     WhenDefined("parse_warning", i.parseWarning)]
  }

  // ---- The document

  /** The orders in which the keys of the two maps are printed. */
  datatype Orders = Orders(custom: seq<string>, timeouts: seq<string>)

  predicate Distinct(keys: seq<string>) {
    forall i, j :: 0 <= i < j < |keys| ==> keys[i] != keys[j]
  }

  predicate Enumerates(order: seq<string>, keys: set<string>) {
    Distinct(order) && (forall k :: k in order ==> k in keys) && (forall k :: k in keys ==> k in order)
  }

  function TimeoutsOf(c: Config): map<string, nat> {
    if c.watchdogByAgent.Some? then c.watchdogByAgent.value else map[]
  }

  predicate Fits(o: Orders, c: Config) {
    Enumerates(o.custom, c.commands.custom.Keys) && Enumerates(o.timeouts, TimeoutsOf(c).Keys)
  }

  const SECTION_NAMES: seq<string> := [
    "review_policy", "executor", "validation_target", "agents", "watchdog_timeout_minutes_by_agent",
    "role_mcp", "commands", "notifications", "local_overlay", "doc_contract_gates", "ideation"
  ]

  /** The slots of each section, in printing order; none for a section that is not printed. */
  function SectionSlots(c: Config, o: Orders): seq<Option<seq<Slot>>>
    requires Fits(o, c)
  {
    [if c.reviewPolicy.Some? then Some(PolicySlots(c.reviewPolicy.value)) else None,
     if c.executor.Some? then Some(ExecutorSlots(c.executor.value)) else None,
     if c.validationTarget.Some? then Some(TargetSlots(c.validationTarget.value)) else None,
     Some(AgentSlots(c.agents)),
     if c.watchdogByAgent.Some? then Some(TimeoutSlots(o.timeouts, c.watchdogByAgent.value)) else None,
     Some(RoleSlots(c.roleMcp)),
     Some(CommandSlots(c.commands, o.custom)),
     Some(NotificationSlots(c.notifications)),
     Some(OverlaySlots(c.localOverlay)),
     Some(GateSlots(c.docContractGates)),
     if c.ideation.Some? then Some(IdeationSlots(c.ideation.value)) else None]
  }

  function Blocks(names: seq<string>, slots: seq<Option<seq<Slot>>>): seq<Block>
    requires |names| == |slots|
  {
    if names == [] then []
    else (if slots[0].Some? then [Block(names[0], slots[0].value)] else []) + Blocks(names[1..], slots[1..])
  }

  function ConfigDoc(c: Config, o: Orders): Doc
    requires Fits(o, c)
  {
    Doc(TopSlots(c), Blocks(SECTION_NAMES, SectionSlots(c, o)))
  }

  /** `renderBubbleConfigToml`. */
  function RenderConfig(c: Config, o: Orders): string
    requires Fits(o, c)
  {
    Render(Lines(ConfigDoc(c, o)))
  }

  /** The configuration as the nested record the program itself holds. */
  function AsRecord(c: Config, o: Orders): Record
    requires Fits(o, c)
  {
    DocRecord(ConfigDoc(c, o))
  }

  /** `parseBubbleConfigToml` without a global configuration; none when the text is refused. */
  function ParseConfig(text: string): Option<Outcome> {
    match Document(text)
    case None => None
    case Some(record) => Some(Validate(Rec(record)))
  }
}
