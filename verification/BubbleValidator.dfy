/** Validation as the program runs it: readers and section checks push complaints to one
    shared log while the configuration is put together. */
module BubbleValidator {
  import opened Text
  import opened TomlParser
  import opened BubbleConfig
  import opened BubbleValidation

  class ErrorLog {
    var complaints: Complaints

    constructor ()
      ensures complaints == {}
    {
      complaints := {};
    }

    method Push(path: string, problem: Problem)
      modifies this
      ensures complaints == old(complaints) + {Complaint(path, problem)}
    {
      complaints := complaints + {Complaint(path, problem)};
    }
  }

  // ---- Readers

  method ReadText(r: Record, key: string, path: string, log: ErrorLog, required: bool) returns (value: Option<string>)
    modifies log
    ensures Checked(value, log.complaints) == ReadString(r, key, path, required, old(log.complaints))
  {
    if key !in r {
      if required {
        log.Push(path, MissingField);
      }
      return None;
    }
    if !NonEmptyText(r[key]) {
      log.Push(path, NotText);
      return None;
    }
    return Some(r[key].text);
  }

  method ReadBool(r: Record, key: string, path: string, log: ErrorLog, required: bool) returns (value: Option<bool>)
    modifies log
    ensures Checked(value, log.complaints) == ReadBoolean(r, key, path, required, old(log.complaints))
  {
    if key !in r {
      if required {
        log.Push(path, MissingField);
      }
      return None;
    }
    if !r[key].Bool? {
      log.Push(path, NotFlag);
      return None;
    }
    return Some(r[key].flag);
  }

  method ReadSection(r: Record, key: string, log: ErrorLog, required: bool) returns (value: Option<Record>)
    modifies log
    ensures Checked(value, log.complaints) == ReadObject(r, key, required, old(log.complaints))
  {
    if key !in r {
      if required {
        log.Push(key, MissingSection);
      }
      return None;
    }
    if !r[key].Rec? {
      log.Push(key, NotASection);
      return None;
    }
    return Some(r[key].fields);
  }

  lemma {:induction false} TrimmedSnoc(items: seq<Value>, v: Value)
    ensures TrimmedTexts(items + [v]) == TrimmedTexts(items) + (if NonEmptyText(v) then [Trim(Js, v.text)] else [])
  {
    if items == [] {
      assert ([] + [v])[1..] == [];
    } else {
      assert (items + [v])[1..] == items[1..] + [v];
      TrimmedSnoc(items[1..], v);
    }
  }

  method ReadTexts(r: Record, key: string, path: string, log: ErrorLog) returns (value: Option<seq<string>>)
    modifies log
    ensures Checked(value, log.complaints) == ReadStringArray(r, key, path, old(log.complaints))
  {
    if key !in r {
      return None;
    }
    if !r[key].List? {
      log.Push(path, NotTextList);
      return None;
    }
    var items := r[key].items;
    var result := [];
    for i := 0 to |items|
      invariant result == TrimmedTexts(items[..i])
      invariant log.complaints == old(log.complaints)
                + set k | 0 <= k < i && !NonEmptyText(items[k]) :: Complaint(Indexed(path, k), NotText)
    {
      assert items[..i + 1] == items[..i] + [items[i]];
      TrimmedSnoc(items[..i], items[i]);
      if !NonEmptyText(items[i]) {
        log.Push(Indexed(path, i), NotText);
      } else {
        result := result + [Trim(Js, items[i].text)];
      }
    }
    assert items[..|items|] == items;
    return Some(result);
  }

  method Choose(r: Record, key: string, path: string, vocabulary: set<string>, default: string, log: ErrorLog)
      returns (value: string)
    modifies log
    ensures Checked(value, log.complaints) == ReadChoice(r, key, path, vocabulary, default, old(log.complaints))
  {
    var candidate := Defaulted(r, key, Str(default));
    if !OneOf(candidate, vocabulary) {
      log.Push(path, NotInVocabulary);
      return default;
    }
    return candidate.text;
  }

  // ---- Agents

  method ReadOptionalAgentModel(r: Record, key: string, path: string, log: ErrorLog) returns (value: Option<string>)
    modifies log
    ensures Checked(value, log.complaints) == ReadModel(r, key, path, old(log.complaints))
  {
    value := ReadText(r, key, path, log, false);
    if value.Some? {
      value := Some(TrimAndStrip(value.value));
    }
  }

  method ReadAgentName(r: Record, key: string, log: ErrorLog, required: bool) returns (value: Option<string>)
    modifies log
    ensures Checked(value, log.complaints) == ReadAgent(r, key, required, old(log.complaints))
  {
    value := ReadText(r, key, "agents." + key, log, required);
    if value.Some? && value.value !in AGENT_NAMES {
      log.Push("agents." + key, NotInVocabulary);
    }
  }

  method ValidateBubbleAgents(section: Option<Record>, log: ErrorLog) returns (agents: Agents)
    modifies log
    ensures Checked(agents, log.complaints) == CheckAgents(section, old(log.complaints))
  {
    hide ReadAgent, ReadModel;
    if section == None {
      return Agents("", None, "", None, "opencode", None);
    }
    var r := section.value;
    var implementer := ReadAgentName(r, "implementer", log, true);
    var reviewer := ReadAgentName(r, "reviewer", log, true);
    var candidate := ReadAgentName(r, "meta_reviewer", log, false);
    var metaReviewer := if candidate.Some? then candidate.value
                        else if reviewer.Some? && reviewer.value in AGENT_NAMES then reviewer.value else "opencode";
    var implementerModel := ReadOptionalAgentModel(r, "implementer_model", "agents.implementer_model", log);
    var reviewerModel := ReadOptionalAgentModel(r, "reviewer_model", "agents.reviewer_model", log);
    var metaModel := ReadOptionalAgentModel(r, "meta_reviewer_model", "agents.meta_reviewer_model", log);
    return Agents(OrEmpty(implementer), implementerModel, OrEmpty(reviewer), reviewerModel, metaReviewer, metaModel);
  }

  // ---- Commands

  /** The user's commands among the keys already looked at. */
  function CustomsBut(r: Record, todo: set<string>): map<string, string> {
    map k | k in r && k !in todo && IsCustom(r, k) :: Trim(Js, r[k].text)
  }

  function BadCustom(key: string): Complaint {
    Complaint("commands." + key, if IsCommandId(key) then NotText else MalformedId)
  }

  function BadCustomsBut(r: Record, todo: set<string>): Complaints {
    set k | k in r && k !in todo && k !in FIXED_COMMAND_KEYS && !IsCustom(r, k) :: BadCustom(k)
  }

  /** One more key looked at. */
  lemma OneCustomMore(r: Record, todo: set<string>, key: string)
    requires key in todo && todo <= r.Keys
    ensures CustomsBut(r, todo - {key}) ==
            if IsCustom(r, key) then CustomsBut(r, todo)[key := Trim(Js, r[key].text)] else CustomsBut(r, todo)
    ensures BadCustomsBut(r, todo - {key}) ==
            if key in FIXED_COMMAND_KEYS || IsCustom(r, key) then BadCustomsBut(r, todo)
            else BadCustomsBut(r, todo) + {BadCustom(key)}
  {
    hide IsCommandId, NonEmptyText, Trim, BadCustom, FIXED_COMMAND_KEYS;
  }

  lemma AllCustomsSeen(r: Record)
    ensures CustomsBut(r, {}) == CustomCommands(r) && BadCustomsBut(r, {}) == BadCustoms(r)
    ensures CustomsBut(r, r.Keys) == map[] && BadCustomsBut(r, r.Keys) == {}
  {
    hide IsCommandId, NonEmptyText, Trim, FIXED_COMMAND_KEYS;
  }

  /** The loop over the section's own keys; their order does not matter. */
  method CollectCustomCommands(r: Record, log: ErrorLog) returns (custom: map<string, string>)
    modifies log
    ensures custom == CustomCommands(r)
    ensures log.complaints == old(log.complaints) + BadCustoms(r)
  {
    hide CustomsBut, BadCustomsBut, CustomCommands, BadCustoms, IsCommandId, Trim, FIXED_COMMAND_KEYS;
    AllCustomsSeen(r);
    custom := map[];
    var todo := r.Keys;
    while todo != {}
      invariant todo <= r.Keys
      invariant custom == CustomsBut(r, todo) && log.complaints == old(log.complaints) + BadCustomsBut(r, todo)
      decreases todo
    {
      var key :| key in todo;
      OneCustomMore(r, todo, key);
      todo := todo - {key};
      if key in FIXED_COMMAND_KEYS {
        continue;
      }
      if !IsCommandId(key) {
        log.Push("commands." + key, MalformedId);
        continue;
      }
      if !NonEmptyText(r[key]) {
        log.Push("commands." + key, NotText);
        continue;
      }
      custom := custom[key := Trim(Js, r[key].text)];
    }
  }

  /** What one id of a list adds to the log. */
  function IdComplaint(ids: seq<string>, i: nat, path: string): Complaints
    requires i < |ids|
  {
    if !IsCommandId(ids[i]) then {Complaint(Indexed(path, i), MalformedId)}
    else if ids[i] in ids[..i] then {Complaint(Indexed(path, i), DuplicateId)}
    else {}
  }

  function BadIdsUpTo(ids: seq<string>, i: nat, path: string): Complaints
    requires i <= |ids|
  {
    if i == 0 then {} else BadIdsUpTo(ids, i - 1, path) + IdComplaint(ids, i - 1, path)
  }

  lemma {:induction false} BadIdsGathered(ids: seq<string>, i: nat, path: string)
    requires i <= |ids|
    ensures BadIdsUpTo(ids, i, path) ==
            set k | 0 <= k < i && (!IsCommandId(ids[k]) || ids[k] in ids[..k]) ::
              Complaint(Indexed(path, k), if IsCommandId(ids[k]) then DuplicateId else MalformedId)
  {
    if i > 0 {
      BadIdsGathered(ids, i - 1, path);
    }
  }

  function ValidBefore(ids: seq<string>, i: nat): set<string>
    requires i <= |ids|
  {
    set k | 0 <= k < i && IsCommandId(ids[k]) :: ids[k]
  }

  method CheckIdList(ids: seq<string>, path: string, log: ErrorLog)
    modifies log
    ensures log.complaints == old(log.complaints) + BadIds(ids, path)
  {
    hide IsCommandId;
    var seen: set<string> := {};
    for i := 0 to |ids|
      invariant seen == ValidBefore(ids, i)
      invariant log.complaints == old(log.complaints) + BadIdsUpTo(ids, i, path)
    {
      var id := ids[i];
      if !IsCommandId(id) {
        log.Push(Indexed(path, i), MalformedId);
        continue;
      }
      assert id in seen <==> id in ids[..i];
      if id in seen {
        log.Push(Indexed(path, i), DuplicateId);
        continue;
      }
      seen := seen + {id};
    }
    BadIdsGathered(ids, |ids|, path);
  }

  function NotRunnableUpTo(r: Record, custom: map<string, string>, ids: seq<string>, i: nat): Complaints
    requires i <= |ids|
  {
    if i == 0 then {}
    else NotRunnableUpTo(r, custom, ids, i - 1)
         + if IsCommandId(ids[i - 1]) && ids[i - 1] !in ids[..i - 1] && !IsRunnable(r, custom, ids[i - 1])
           then {Complaint("commands." + ids[i - 1], NotTextForApproval)} else {}
  }

  lemma {:induction false} NotRunnableGathered(r: Record, custom: map<string, string>, ids: seq<string>, i: nat)
    requires i <= |ids|
    ensures NotRunnableUpTo(r, custom, ids, i) ==
            set k | 0 <= k < i && IsCommandId(ids[k]) && ids[k] !in ids[..k] && !IsRunnable(r, custom, ids[k]) ::
              Complaint("commands." + ids[k], NotTextForApproval)
  {
    hide IsCommandId, IsRunnable;
    if i > 0 {
      NotRunnableGathered(r, custom, ids, i - 1);
    }
  }

  method CheckApproveList(r: Record, custom: map<string, string>, ids: seq<string>, path: string, log: ErrorLog)
    modifies log
    ensures log.complaints == old(log.complaints) + (BadIds(ids, path) + NotRunnable(r, custom, ids))
  {
    hide IsCommandId, IsRunnable;
    var seen: set<string> := {};
    for i := 0 to |ids|
      invariant seen == ValidBefore(ids, i)
      invariant log.complaints ==
                old(log.complaints) + (BadIdsUpTo(ids, i, path) + NotRunnableUpTo(r, custom, ids, i))
    {
      var id := ids[i];
      if !IsCommandId(id) {
        log.Push(Indexed(path, i), MalformedId);
        continue;
      }
      assert id in seen <==> id in ids[..i];
      if id in seen {
        log.Push(Indexed(path, i), DuplicateId);
        continue;
      }
      seen := seen + {id};
      if !IsRunnable(r, custom, id) {
        log.Push("commands." + id, NotTextForApproval);
      }
    }
    BadIdsGathered(ids, |ids|, path);
    NotRunnableGathered(r, custom, ids, |ids|);
  }

  method ValidateBubbleCommands(section: Option<Record>, log: ErrorLog) returns (commands: Option<Commands>)
    modifies log
    ensures Checked(commands, log.complaints) == CheckCommands(section, old(log.complaints))
  {
    hide ReadString, ReadStringArray, ReadBoolean, CustomCommands, BadCustoms, BadIds, NotRunnable;
    if section == None {
      return None;
    }
    var r := section.value;
    var test := ReadText(r, "test", "commands.test", log, true);
    var typecheck := ReadText(r, "typecheck", "commands.typecheck", log, true);
    var lint := ReadText(r, "lint", "commands.lint", log, false);
    var bootstrap := ReadText(r, "bootstrap", "commands.bootstrap", log, false);
    var required := ReadTexts(r, "validation_required", "commands.validation_required", log);
    var approve := ReadTexts(r, "meta_review_approve_required", "commands.meta_review_approve_required", log);
    var explicit := ReadBool(r, "validation_required_explicit", "commands.validation_required_explicit", log, false);
    var custom := CollectCustomCommands(r, log);
    if required.Some? {
      CheckIdList(required.value, "commands.validation_required", log);
    }
    if approve.Some? {
      CheckApproveList(r, custom, approve.value, "commands.meta_review_approve_required", log);
    }
    return Some(Commands(bootstrap, lint, OrEmpty(test), OrEmpty(typecheck), custom, approve, required,
                         explicit == Some(true)));
  }

  // ---- Warnings

  method ReadExistingWarning(section: Option<Record>, path: string, log: ErrorLog) returns (warning: Option<string>)
    modifies log
    ensures Checked(warning, log.complaints) == ExistingWarning(section, path, old(log.complaints))
  {
    if section == None {
      return None;
    }
    warning := ReadText(section.value, "parse_warning", path, log, false);
  }

  method ValidateBubbleDocContractGates(section: Option<Record>, log: ErrorLog) returns (gates: DocContractGates)
    modifies log
    ensures Checked(gates, log.complaints) == CheckGates(section, old(log.complaints))
  {
    hide ExistingWarning, JoinWarnings, Describe;
    var warnings: seq<string> := [];
    var existing := ReadExistingWarning(section, "doc_contract_gates.parse_warning", log);
    var candidate := Field(section, "round_gate_applies_after");
    var roundGateAppliesAfter: nat := 2;
    if candidate.Some? {
      if IsWhole(candidate.value) && candidate.value.number.Floor >= 0 {
        roundGateAppliesAfter := candidate.value.number.Floor;
      } else {
        warnings := warnings + [GateWarning(candidate.value)];
        assert warnings == [GateWarning(candidate.value)];
      }
    }
    return DocContractGates(roundGateAppliesAfter, JoinWarnings(existing, warnings));
  }

  method TakeFlag(section: Option<Record>, key: string, warnings: seq<string>) returns (flag: bool, more: seq<string>)
    ensures flag == IdeationFlag(section, key).0
    ensures more == warnings + IdeationFlag(section, key).1
  {
    flag, more := false, warnings;
    var candidate := Field(section, key);
    if candidate.Some? {
      if candidate.value.Bool? {
        flag := candidate.value.flag;
      } else {
        more := more + [IdeationWarning(key + " must be boolean. Received " + Describe(candidate.value) + ".")];
      }
    }
  }

  method TakeTime(section: Option<Record>, key: string, warnings: seq<string>)
      returns (time: Option<string>, more: seq<string>)
    ensures time == IdeationTime(section, key).0
    ensures more == warnings + IdeationTime(section, key).1
  {
    hide IsIsoTimestamp, Describe, IdeationWarning;
    time, more := None, warnings;
    var candidate := Field(section, key);
    if candidate.Some? {
      if candidate.value.Str? && IsIsoTimestamp(candidate.value.text) {
        time := Some(candidate.value.text);
      } else {
        more := more + [IdeationWarning(key + " must be an ISO timestamp. Received " + Describe(candidate.value) + ".")];
      }
    }
  }

  method ValidateBubbleIdeation(section: Option<Record>, log: ErrorLog) returns (ideation: Option<Ideation>)
    modifies log
    ensures Checked(ideation, log.complaints) == CheckIdeation(section, old(log.complaints))
  {
    hide ExistingWarning, IdeationFlag, IdeationTime, IdeationWarning;
    var existing := ReadExistingWarning(section, "ideation.parse_warning", log);
    var mode, warnings := TakeFlag(section, "mode", []);
    assert warnings == IdeationFlag(section, "mode").1;
    var pending;
    pending, warnings := TakeFlag(section, "task_pending", warnings);
    var startedAt, kickedOffAt;
    startedAt, warnings := TakeTime(section, "started_at", warnings);
    kickedOffAt, warnings := TakeTime(section, "kicked_off_at", warnings);
    if !mode && pending {
      warnings := warnings + [IdeationWarning(PENDING_WITHOUT_MODE)];
      pending := false;
    } else {
      assert warnings + [] == warnings;
    }
    if mode || pending || startedAt.Some? || kickedOffAt.Some? || existing.Some? || |warnings| > 0 {
      return Some(Ideation(mode, pending, startedAt, kickedOffAt, JoinWarnings(existing, warnings)));
    }
    return None;
  }

  // ---- Review policy and role policies

  /** Every key outside the known ones draws a complaint. */
  method RefuseUnknown(r: Record, known: set<string>, path: string, log: ErrorLog)
    modifies log
    ensures log.complaints == old(log.complaints) + UnknownFields(r, known, path)
  {
    var todo := r.Keys;
    while todo != {}
      invariant todo <= r.Keys
      invariant log.complaints == old(log.complaints)
                + set k | k in r && k !in todo && k !in known :: Complaint(path + k, UnknownField)
      decreases todo
    {
      var key :| key in todo;
      todo := todo - {key};
      if key !in known {
        log.Push(path + key, UnknownField);
      }
    }
  }

  method TakeCleanRuns(r: Record, log: ErrorLog) returns (runs: Option<nat>)
    modifies log
    ensures Checked<Option<nat>>.Checked(runs, log.complaints) == ReadCleanRuns(r, old(log.complaints))
  {
    var key := "meta_review_consecutive_clean_runs_required";
    if key !in r {
      return None;
    }
    if !IsWhole(r[key]) || r[key].number.Floor < 1 {
      log.Push("review_policy.meta_review_consecutive_clean_runs_required", TooSmall);
      return None;
    }
    return Some(r[key].number.Floor);
  }

  method ValidateBubbleReviewPolicy(section: Option<Record>, log: ErrorLog) returns (policy: Option<ReviewPolicy>)
    modifies log
    ensures Checked(policy, log.complaints) == CheckReviewPolicy(section, old(log.complaints))
  {
    hide ReadChoice, ReadCleanRuns;
    if section == None {
      return None;
    }
    var r := section.value;
    RefuseUnknown(r, REVIEW_POLICY_KEYS, "review_policy.", log);
    var hasExplicitFields := exists k :: k in r.Keys && k in REVIEW_POLICY_KEYS;
    var loopMode := Choose(r, "review_loop_mode", "review_policy.review_loop_mode", LOOP_MODES, "full", log);
    var blocking := Choose(r, "reviewer_blocking_min_severity",
                           "review_policy.reviewer_blocking_min_severity", SEVERITIES, "P3", log);
    var rework := Choose(r, "meta_review_auto_rework_min_severity",
                         "review_policy.meta_review_auto_rework_min_severity", SEVERITIES, "P3", log);
    var runs := TakeCleanRuns(r, log);
    if !hasExplicitFields {
      return None;
    }
    return Some(ReviewPolicy(loopMode, blocking, rework, runs));
  }

  method AssignRole(r: Record, key: string, log: ErrorLog) returns (policy: string)
    modifies log
    ensures Checked(policy, log.complaints) == ReadPolicy(r, key, old(log.complaints))
  {
    policy := "disabled";
    if key in r {
      if !OneOf(r[key], MCP_POLICIES) {
        log.Push("role_mcp." + key, NotInVocabulary);
      } else {
        policy := r[key].text;
      }
    }
  }

  method ValidateRoleMcp(section: Option<Record>, log: ErrorLog) returns (roles: RoleMcp)
    modifies log
    ensures Checked(roles, log.complaints) == CheckRoleMcp(section, old(log.complaints))
  {
    hide ReadPolicy;
    if section == None {
      return RoleMcp("disabled", "disabled", "disabled");
    }
    var r := section.value;
    RefuseUnknown(r, ROLE_KEYS, "role_mcp.", log);
    var implementer := AssignRole(r, "implementer", log);
    var reviewer := AssignRole(r, "reviewer", log);
    var metaReviewer := AssignRole(r, "meta_reviewer", log);
    return RoleMcp(implementer, reviewer, metaReviewer);
  }

  // ---- The whole configuration

  method FindSections(r: Record, log: ErrorLog) returns (sections: Sections)
    modifies log
    ensures Checked(sections, log.complaints) == CheckSections(r, old(log.complaints))
  {
    hide ReadObject;
    var agents := ReadSection(r, "agents", log, true);
    var roleMcp := ReadSection(r, "role_mcp", log, false);
    var commands := ReadSection(r, "commands", log, true);
    var notifications := ReadSection(r, "notifications", log, false);
    var overlay := ReadSection(r, "local_overlay", log, false);
    var gates := ReadSection(r, "doc_contract_gates", log, false);
    var ideation := ReadSection(r, "ideation", log, false);
    var executor := ReadSection(r, "executor", log, false);
    var policy := ReadSection(r, "review_policy", log, false);
    var target := ReadSection(r, "validation_target", log, false);
    return Sections(agents, roleMcp, commands, notifications, overlay, gates, ideation, executor, policy, target);
  }

  /** The sections' contents; the checks of plain key lists are taken as functions. */
  method ValidateContents(s: Sections, log: ErrorLog) returns (contents: Contents)
    modifies log
    ensures Checked(contents, log.complaints) == CheckContents(s, old(log.complaints))
  {
    hide CheckAgents, CheckRoleMcp, CheckCommands, CheckTarget, CheckNotifications, CheckOverlay, CheckGates,
      CheckIdeation, CheckReviewPolicy, CheckExecutor;
    var agents := ValidateBubbleAgents(s.agents, log);
    var roles := ValidateRoleMcp(s.roleMcp, log);
    var commands := ValidateBubbleCommands(s.commands, log);
    var target := CheckTarget(s.target, log.complaints);
    var notifications := CheckNotifications(s.notifications, target.log);
    var overlay := CheckOverlay(s.overlay, notifications.log);
    log.complaints := overlay.log;
    var gates := ValidateBubbleDocContractGates(s.gates, log);
    var ideation := ValidateBubbleIdeation(s.ideation, log);
    var policy := ValidateBubbleReviewPolicy(s.policy, log);
    var executor := CheckExecutor(s.executor, log.complaints);
    log.complaints := executor.log;
    return Contents(agents, roles, commands, target.value, notifications.value, overlay.value, gates, ideation,
                    policy, executor.value);
  }

  /** `validateBubbleConfig`: one log collects every complaint; any complaint refuses. */
  method ValidateBubbleConfig(input: Value) returns (outcome: Outcome)
    ensures outcome == Validate(input)
  {
    hide CheckNames, CheckModes, CheckLimits, CheckOpeners, CheckSections, CheckContents, Assemble;
    if !input.Rec? {
      return Refused({Complaint("$", NotARecord)});
    }
    var r := input.fields;
    var log := new ErrorLog();
    var names := CheckNames(r, log.complaints);
    var modes := CheckModes(r, names.log);
    var limits := CheckLimits(r, modes.log);
    var openers := CheckOpeners(r, limits.log);
    log.complaints := openers.log;
    var sections := FindSections(r, log);
    var contents := ValidateContents(sections, log);
    if |log.complaints| > 0 {
      return Refused(log.complaints);
    }
    return Accepted(Assemble(names.value, modes.value, limits.value, openers.value, contents));
  }
}
