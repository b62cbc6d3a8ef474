/** The fields of the record that a configuration prints as, section by section, and what
    validation makes of each of them. */
module BubbleFields {
  import opened Text
  import opened TomlParser
  import opened TomlPrinter
  import opened TomlDocuments
  import opened BubbleConfig
  import opened BubbleValidation
  import opened BubbleRender
  import opened BubbleLookup
  import opened BubbleCanonical
  import opened BubbleFixpoint
  import opened BubbleDocument

  /** Every key holds what its slot printed. */
  predicate Answers(r: Record, slots: seq<Slot>, keys: seq<string>) {
    |slots| == |keys| && forall i :: 0 <= i < |keys| ==> Get(r, keys[i]) == SlotValue(slots[i])
  }

  /** The same, and there are no other keys. */
  predicate Holds(r: Record, slots: seq<Slot>, keys: seq<string>) {
    Answers(r, slots, keys) && forall k :: k in r ==> k in keys
  }

  lemma AnswersParts(r: Record, a: seq<Slot>, b: seq<Slot>, ka: seq<string>, kb: seq<string>)
    requires |a| == |ka| && Answers(r, a + b, ka + kb)
    ensures Answers(r, a, ka) && Answers(r, b, kb)
  {
    hide Get, SlotValue;
    var s, keys := a + b, ka + kb;
    forall i | 0 <= i < |ka| ensures Get(r, ka[i]) == SlotValue(a[i]) {
      assert keys[i] == ka[i] && s[i] == a[i];
    }
    forall i | 0 <= i < |kb| ensures Get(r, kb[i]) == SlotValue(b[i]) {
      assert keys[|a| + i] == kb[i] && s[|a| + i] == b[i];
    }
  }

  lemma SlotsHold(slots: seq<Slot>, keys: seq<string>)
    requires Keyed(slots, keys) && GoodKeys(keys)
    ensures Holds(SlotFields(slots), slots, keys)
  {
    hide SlotFields, SlotValue, Get, BareKey;
    SlotKeysWithin(slots, keys);
    forall i | 0 <= i < |keys| ensures Get(SlotFields(slots), keys[i]) == SlotValue(slots[i]) {
      SlotLookup(slots, keys, i);
    }
  }

  // ---- Sections

  lemma AgentsReread(r: Record, a: Agents)
    requires GoodAgents(a) && Holds(r, AgentSlots(a), AGENT_KEYS)
    ensures CheckAgents(Some(r), {}) == Checked(a, {}) <==> ModelsStable(a)
  {
    hide CheckAgents, ModelsStable, GoodAgents, Get;
    assert AGENT_KEYS[0] == "implementer" && AGENT_KEYS[1] == "implementer_model" && AGENT_KEYS[2] == "reviewer";
    assert AGENT_KEYS[3] == "reviewer_model" && AGENT_KEYS[4] == "meta_reviewer" && AGENT_KEYS[5] == "meta_reviewer_model";
    AgentsAgain(r, a);
  }

  lemma RolesReread(r: Record, p: RoleMcp)
    requires GoodRoles(p) && Holds(r, RoleSlots(p), ROLE_SLOT_KEYS)
    ensures CheckRoleMcp(Some(r), {}) == Checked(p, {})
  {
    hide CheckRoleMcp, GoodRoles, Get;
    var k := ROLE_SLOT_KEYS;
    assert k[0] == "implementer" && k[1] == "reviewer" && k[2] == "meta_reviewer";
    RolesAgain(r, p);
  }

  lemma NotificationsReread(r: Record, n: Notifications)
    requires GoodNotifications(n) && Holds(r, NotificationSlots(n), NOTIFICATION_KEYS)
    ensures CheckNotifications(Some(r), {}) == Checked(n, {})
  {
    hide CheckNotifications, Get, Trim;
    var k := NOTIFICATION_KEYS;
    assert k[0] == "enabled" && k[1] == "waiting_human_sound" && k[2] == "converged_sound";
    TruthyIsDefined(k[1], n.waitingHumanSound);
    TruthyIsDefined(k[2], n.convergedSound);
    NotificationsAgain(r, n);
  }

  /** Texts that are not blank are printed whenever they are defined. */
  lemma TruthyIsDefined(key: string, text: Option<string>)
    requires OptNonBlank(text)
    ensures SlotValue(WhenTruthy(key, text)) == TextValue(text)
  {
  }

  lemma OverlayReread(r: Record, o: LocalOverlay)
    requires GoodOverlay(o) && Holds(r, OverlaySlots(o), OVERLAY_KEYS)
    ensures CheckOverlay(Some(r), {}) == Checked(o, {})
  {
    hide CheckOverlay, GoodOverlay, Get;
    var k := OVERLAY_KEYS;
    assert k[0] == "enabled" && k[1] == "mode" && k[2] == "entries";
    OverlayAgain(r, o);
  }

  lemma GatesReread(r: Record, g: DocContractGates)
    requires OptNonBlank(g.parseWarning) && Holds(r, GateSlots(g), GATE_KEYS)
    ensures CheckGates(Some(r), {}) == Checked(g, {})
  {
    hide CheckGates, OptNonBlank, Get;
    var k := GATE_KEYS;
    assert k[0] == "round_gate_applies_after" && k[1] == "parse_warning";
    GatesAgain(r, g);
  }

  lemma IdeationReread(r: Record, i: Ideation)
    requires GoodIdeation(i) && Holds(r, IdeationSlots(i), IDEATION_KEYS)
    ensures CheckIdeation(Some(r), {}) == Checked(Some(i), {})
  {
    hide CheckIdeation, GoodIdeation, Get;
    var k := IDEATION_KEYS;
    assert k[0] == "mode" && k[1] == "task_pending" && k[2] == "started_at" && k[3] == "kicked_off_at";
    assert k[4] == "parse_warning";
    IdeationAgain(r, i);
  }

  lemma PolicyReread(r: Record, p: ReviewPolicy)
    requires GoodPolicy(p) && Holds(r, PolicySlots(p), POLICY_KEYS)
    ensures CheckReviewPolicy(Some(r), {}) == Checked(Some(p), {})
  {
    hide CheckReviewPolicy, GoodPolicy, Get;
    var k := POLICY_KEYS;
    assert k[0] == "review_loop_mode" && k[1] == "reviewer_blocking_min_severity";
    assert k[2] == "meta_review_auto_rework_min_severity" && k[3] == "meta_review_consecutive_clean_runs_required";
    PolicyAgain(r, p);
  }

  lemma ExecutorReread(r: Record, e: Executor)
    requires GoodExecutor(e) && Holds(r, ExecutorSlots(e), EXECUTOR_SLOT_KEYS)
    ensures CheckExecutor(Some(r), {}) == Checked(Some(e), {})
  {
    hide CheckExecutor, GoodExecutor, Get;
    var k := EXECUTOR_SLOT_KEYS;
    assert k[0] == "type" && k[1] == "remote";
    ExecutorAgain(r, e);
  }

  lemma TargetReread(r: Record, t: ValidationTarget)
    requires GoodTarget(t) && Holds(r, TargetSlots(t), TARGET_KEYS)
    ensures CheckTarget(Some(r), {}) == Checked(Some(t), {})
  {
    hide CheckTarget, GoodTarget, Get;
    var k := TARGET_KEYS;
    assert k[0] == "id" && k[1] == "cwd" && k[2] == "paths";
    TargetAgain(r, t);
  }

  lemma TimeoutsReread(r: Record, t: map<string, nat>, order: seq<string>)
    requires Enumerates(order, t.Keys) && Holds(r, TimeoutSlots(order, t), order)
    ensures r == TimeoutFields(t)
  {
    forall k | k in t ensures k in r && r[k] == Num(t[k] as real) {
      var i :| 0 <= i < |order| && order[i] == k;
      assert Get(r, order[i]) == SlotValue(TimeoutSlots(order, t)[i]);
    }
    assert r.Keys == t.Keys;
  }

  // ---- Commands

  lemma CommandsReread(r: Record, c: Commands, order: seq<string>)
    requires GoodCommands(c) && Enumerates(order, c.custom.Keys)
    requires Holds(r, CommandSlots(c, order), CommandKeys(order))
    ensures CheckCommands(Some(r), {}) == Checked(Some(c), {})
  {
    CommandParts(c, order);
    hide CheckCommands, GoodCommands, HeadCommandSlots, TailCommandSlots, CustomSlots, HoldsCommands, HoldsCustom, Get,
      Answers, Enumerates;
    AnswersParts(r, HeadCommandSlots(c) + CustomSlots(order, c.custom), TailCommandSlots(c),
                 HEAD_COMMAND_KEYS + order, TAIL_COMMAND_KEYS);
    AnswersParts(r, HeadCommandSlots(c), CustomSlots(order, c.custom), HEAD_COMMAND_KEYS, order);
    CommandsHeld(r, c);
    CustomHeld(r, c, order);
    CommandsAgain(r, c);
  }

  lemma CommandParts(c: Commands, order: seq<string>)
    requires forall i :: 0 <= i < |order| ==> order[i] in c.custom
    ensures |HeadCommandSlots(c)| == |HEAD_COMMAND_KEYS| && |TailCommandSlots(c)| == |TAIL_COMMAND_KEYS|
    ensures |CustomSlots(order, c.custom)| == |order|
  {
  }

  lemma CommandsHeld(r: Record, c: Commands)
    requires GoodCommands(c)
    requires Answers(r, HeadCommandSlots(c), HEAD_COMMAND_KEYS) && Answers(r, TailCommandSlots(c), TAIL_COMMAND_KEYS)
    ensures HoldsCommands(r, c)
  {
    hide Get, OptNonBlank, GoodIds, GoodCustom, Defines, NonBlank;
    var h, t := HEAD_COMMAND_KEYS, TAIL_COMMAND_KEYS;
    assert h[0] == "bootstrap" && h[1] == "lint" && h[2] == "test" && h[3] == "typecheck";
    assert t[0] == "meta_review_approve_required" && t[1] == "validation_required";
    assert t[2] == "validation_required_explicit";
    TruthyIsDefined(h[0], c.bootstrap);
    TruthyIsDefined(h[1], c.lint);
  }

  lemma CustomHeld(r: Record, c: Commands, order: seq<string>)
    requires GoodCommands(c) && Enumerates(order, c.custom.Keys)
    requires Answers(r, CustomSlots(order, c.custom), order)
    requires forall k :: k in r ==> k in HEAD_COMMAND_KEYS || k in order || k in TAIL_COMMAND_KEYS
    ensures HoldsCustom(r, c.custom)
  {
    hide Get, GoodIds, Trim, IsCommandId;
    HeadIsFixed();
    forall k | k in c.custom ensures Get(r, k) == Some(Str(c.custom[k])) {
      var i :| 0 <= i < |order| && order[i] == k;
      assert Kept(c.custom[k]);
      KeptIsNonBlank(c.custom[k]);
      assert Get(r, order[i]) == SlotValue(CustomSlots(order, c.custom)[i]);
    }
  }

  // ---- Top-level fields

  lemma NamesReread(r: Record, c: Config)
    requires GoodNames(NamesOf(c)) && Answers(r, NameSlots(c), NAME_KEYS)
    ensures CheckNames(r, {}) == Checked(NamesOf(c), {})
  {
    hide CheckNames, Get, NonBlank, IsInstanceId;
    var k := NAME_KEYS;
    assert k[0] == "id" && k[1] == "bubble_instance_id" && k[2] == "repo_path" && k[3] == "base_branch";
    assert k[4] == "bubble_branch";
    TruthyIsDefined(k[1], c.bubbleInstanceId);
    NamesAgain(r, NamesOf(c));
  }

  lemma ModesReread(r: Record, c: Config)
    requires GoodModes(ModesOf(c)) && Answers(r, ModeSlots(c), MODE_KEYS)
    ensures CheckModes(r, {}) == Checked(ModesOf(c), {})
  {
    hide CheckModes, Get, GoodModes;
    var k := MODE_KEYS;
    assert k[0] == "work_mode" && k[1] == "quality_mode" && k[2] == "review_artifact_type";
    assert k[3] == "pairflow_command_profile" && k[4] == "reviewer_context_mode";
    ModesAgain(r, ModesOf(c));
  }

  lemma LimitsReread(r: Record, c: Config)
    requires GoodLimits(LimitsOf(c)) && Answers(r, LimitSlots(c), LIMIT_KEYS)
    requires Get(r, "watchdog_timeout_minutes_by_agent") == TimeoutValue(c.watchdogByAgent)
    ensures CheckLimits(r, {}) == Checked(LimitsOf(c), {})
  {
    hide CheckLimits, Get, GoodLimits, TimeoutValue;
    var k := LIMIT_KEYS;
    assert k[0] == "watchdog_timeout_minutes" && k[1] == "max_rounds" && k[2] == "severity_gate_round";
    assert k[3] == "commit_requires_approval" && k[4] == "accuracy_critical";
    LimitsAgain(r, LimitsOf(c));
  }

  lemma OpenersReread(r: Record, c: Config)
    requires GoodOpeners(OpenersOf(c)) && Answers(r, OpenerSlots(c), OPENER_KEYS)
    ensures CheckOpeners(r, {}) == Checked(OpenersOf(c), {})
  {
    hide CheckOpeners, Get, NonBlank;
    var k := OPENER_KEYS;
    assert k[0] == "attach_launcher" && k[1] == "open_command" && k[2] == "open_remote_command";
    TruthyIsDefined(k[1], c.openCommand);
    TruthyIsDefined(k[2], c.openRemoteCommand);
    OpenersAgain(r, OpenersOf(c));
  }
}
