/** Printing an accepted configuration and reading it back, and validating it again. */
module BubbleRoundTrip {
  import opened Text
  import opened TomlLexer
  import opened TomlParser
  import opened TomlPrinter
  import opened TomlDocuments
  import opened BubbleConfig
  import opened BubbleValidation
  import opened BubbleRender
  import opened BubbleLookup
  import opened BubbleCanonical
  import opened BubbleFixpoint
  import opened BubbleDocument
  import opened BubbleFields

  // ---- Fields of the whole record

  lemma TopAnswers(c: Config, o: Orders)
    requires Fits(o, c)
    ensures Answers(AsRecord(c, o), TopSlots(c), TOP_KEYS)
  {
    hide TopSlots, SectionSlots, SlotFields, BlockFields, Blocks, Fits, Keyed, BareKeys, SlotValue;
    TopIsKeyed(c);
    TopKeysAreGood();
    SectionCount(c, o);
    SectionsApart();
    var slots := SectionSlots(c, o);
    BlockKeysWithin(SECTION_NAMES, slots);
    TopHolds(c);
    assert |TopSlots(c)| == |TOP_KEYS|;
    forall i | 0 <= i < |TOP_KEYS| ensures Get(AsRecord(c, o), TOP_KEYS[i]) == SlotValue(TopSlots(c)[i]) {
      assert TOP_KEYS[i] !in BlockFields(Blocks(SECTION_NAMES, slots));
    }
  }

  lemma TopHolds(c: Config)
    ensures Holds(SlotFields(TopSlots(c)), TopSlots(c), TOP_KEYS)
  {
    hide TopSlots, SlotFields, Keyed, BareKeys, Holds;
    TopIsKeyed(c);
    TopKeysAreGood();
    SlotsHold(TopSlots(c), TOP_KEYS);
  }

  function SectionValue(slots: Option<seq<Slot>>): Option<Value> {
    if slots.Some? then Some(Rec(SlotFields(slots.value))) else None
  }

  lemma SectionAnswer(c: Config, o: Orders, i: nat)
    requires Fits(o, c) && i < |SECTION_NAMES|
    ensures |SectionSlots(c, o)| == |SECTION_NAMES|
    ensures Get(AsRecord(c, o), SECTION_NAMES[i]) == SectionValue(SectionSlots(c, o)[i])
  {
    hide TopSlots, SectionSlots, SlotFields, BlockFields, Blocks, Fits, Keyed, BareKeys, SlotValue;
    SectionCount(c, o);
    SectionsApart();
    SectionNamesAreGood();
    assert GoodKeys(SECTION_NAMES);
    TopHolds(c);
    BlockLookup(SECTION_NAMES, SectionSlots(c, o), i);
    assert SECTION_NAMES[i] !in SlotFields(TopSlots(c));
  }

  lemma TopParts(c: Config, o: Orders)
    requires Fits(o, c)
    ensures var r := AsRecord(c, o);
            && Answers(r, NameSlots(c), NAME_KEYS) && Answers(r, ModeSlots(c), MODE_KEYS)
            && Answers(r, LimitSlots(c), LIMIT_KEYS) && Answers(r, OpenerSlots(c), OPENER_KEYS)
  {
    TopAnswers(c, o);
    assert |NameSlots(c)| == |NAME_KEYS| && |ModeSlots(c)| == |MODE_KEYS| && |LimitSlots(c)| == |LIMIT_KEYS|;
    hide AsRecord, Answers, NameSlots, ModeSlots, LimitSlots, OpenerSlots, Fits;
    var r := AsRecord(c, o);
    AnswersParts(r, NameSlots(c) + ModeSlots(c) + LimitSlots(c), OpenerSlots(c), NAME_KEYS + MODE_KEYS + LIMIT_KEYS, OPENER_KEYS);
    AnswersParts(r, NameSlots(c) + ModeSlots(c), LimitSlots(c), NAME_KEYS + MODE_KEYS, LIMIT_KEYS);
    AnswersParts(r, NameSlots(c), ModeSlots(c), NAME_KEYS, MODE_KEYS);
  }

  /** The sections found again in the printed record. */
  function SectionsOf(slots: seq<Option<seq<Slot>>>): Sections
    requires |slots| == 11
  {
    Sections(
      FieldsOf(slots[3]), FieldsOf(slots[5]), FieldsOf(slots[6]), FieldsOf(slots[7]), FieldsOf(slots[8]),
      FieldsOf(slots[9]), FieldsOf(slots[10]), FieldsOf(slots[1]), FieldsOf(slots[0]), FieldsOf(slots[2]))
  }

  function FieldsOf(slots: Option<seq<Slot>>): Option<Record> {
    if slots.Some? then Some(SlotFields(slots.value)) else None
  }

  lemma SectionRead(r: Record, key: string, required: bool, slots: Option<seq<Slot>>)
    requires Get(r, key) == SectionValue(slots) && (required ==> slots.Some?)
    ensures ReadObject(r, key, required, {}) == Checked(FieldsOf(slots), {})
  {
    hide SlotFields, Get;
  }

  lemma SectionsReread(c: Config, o: Orders)
    requires Fits(o, c)
    ensures |SectionSlots(c, o)| == 11
    ensures CheckSections(AsRecord(c, o), {}) == Checked(SectionsOf(SectionSlots(c, o)), {})
  {
    RequiredSections(c, o);
    hide AsRecord, SectionSlots, SlotFields, Fits, Get, SectionValue, ReadObject, FieldsOf;
    SectionCount(c, o);
    var r, slots, n := AsRecord(c, o), SectionSlots(c, o), SECTION_NAMES;
    forall i | 0 <= i < |n| ensures Get(r, n[i]) == SectionValue(slots[i]) {
      SectionAnswer(c, o, i);
    }
    SectionNamesListed();
    SectionRead(r, n[3], true, slots[3]);
    SectionRead(r, n[5], false, slots[5]);
    SectionRead(r, n[6], true, slots[6]);
    SectionRead(r, n[7], false, slots[7]);
    SectionRead(r, n[8], false, slots[8]);
    SectionRead(r, n[9], false, slots[9]);
    SectionRead(r, n[10], false, slots[10]);
    SectionRead(r, n[1], false, slots[1]);
    SectionRead(r, n[0], false, slots[0]);
    SectionRead(r, n[2], false, slots[2]);
  }

  lemma RequiredSections(c: Config, o: Orders)
    requires Fits(o, c)
    ensures |SectionSlots(c, o)| == 11 && SectionSlots(c, o)[3].Some? && SectionSlots(c, o)[6].Some?
  {
  }

  lemma SectionNamesListed()
    ensures |SECTION_NAMES| == 11
    ensures SECTION_NAMES[0] == "review_policy" && SECTION_NAMES[1] == "executor"
    ensures SECTION_NAMES[2] == "validation_target" && SECTION_NAMES[3] == "agents"
    ensures SECTION_NAMES[4] == "watchdog_timeout_minutes_by_agent" && SECTION_NAMES[5] == "role_mcp"
    ensures SECTION_NAMES[6] == "commands" && SECTION_NAMES[7] == "notifications"
    ensures SECTION_NAMES[8] == "local_overlay" && SECTION_NAMES[9] == "doc_contract_gates"
    ensures SECTION_NAMES[10] == "ideation"
  {
  }

  lemma SectionHolds(c: Config, o: Orders, i: nat)
    requires Canonical(c) && Fits(o, c) && i < |SECTION_NAMES|
    ensures i < |SectionSlots(c, o)| && i < |SectionKeys(o)|
    ensures SectionSlots(c, o)[i].Some? ==>
              Holds(SlotFields(SectionSlots(c, o)[i].value), SectionSlots(c, o)[i].value, SectionKeys(o)[i])
  {
    hide Keyed, GoodKeys, Canonical, Fits, SectionSlots, SectionKeys, SlotFields, Holds;
    SectionIsKeyed(c, o, i);
    if SectionSlots(c, o)[i].Some? {
      SlotsHold(SectionSlots(c, o)[i].value, SectionKeys(o)[i]);
    }
  }

  // ---- Contents of the sections

  lemma OptionalSectionsListed(c: Config, o: Orders)
    requires Fits(o, c)
    ensures var s, k := SectionSlots(c, o), SectionKeys(o);
            && |s| == |k| == 11
            && s[0] == (if c.reviewPolicy.Some? then Some(PolicySlots(c.reviewPolicy.value)) else None) && k[0] == POLICY_KEYS
            && s[1] == (if c.executor.Some? then Some(ExecutorSlots(c.executor.value)) else None) && k[1] == EXECUTOR_SLOT_KEYS
            && s[2] == (if c.validationTarget.Some? then Some(TargetSlots(c.validationTarget.value)) else None)
            && k[2] == TARGET_KEYS
            && s[10] == (if c.ideation.Some? then Some(IdeationSlots(c.ideation.value)) else None) && k[10] == IDEATION_KEYS
  {
    hide PolicySlots, ExecutorSlots, TargetSlots, IdeationSlots, AgentSlots, RoleSlots, CommandSlots, TimeoutSlots,
      NotificationSlots, OverlaySlots, GateSlots, CommandKeys, Enumerates;
  }

  lemma OptionalSectionsReread(c: Config, o: Orders)
    requires Canonical(c) && Fits(o, c) && |SectionSlots(c, o)| == 11
    ensures var s := SectionsOf(SectionSlots(c, o));
            && CheckReviewPolicy(s.policy, {}) == Checked(c.reviewPolicy, {})
            && CheckExecutor(s.executor, {}) == Checked(c.executor, {})
            && CheckTarget(s.target, {}) == Checked(c.validationTarget, {})
            && CheckIdeation(s.ideation, {}) == Checked(c.ideation, {})
  {
    NothingToRead();
    SectionHolds(c, o, 0);
    SectionHolds(c, o, 1);
    SectionHolds(c, o, 2);
    SectionHolds(c, o, 10);
    OptionalSectionsListed(c, o);
    hide SectionSlots, SectionKeys, Holds, SlotFields, Enumerates, PolicySlots, ExecutorSlots, TargetSlots, IdeationSlots, AgentSlots, RoleSlots, CommandSlots,
      TimeoutSlots, NotificationSlots, OverlaySlots, GateSlots, CommandKeys, CheckReviewPolicy, CheckExecutor, CheckTarget,
      CheckIdeation, GoodPolicy, GoodExecutor, GoodTarget, GoodIdeation, GoodCommands, GoodOverlay, GoodNotifications;
    var slots := SectionSlots(c, o);
    if c.reviewPolicy.Some? {
      PolicyReread(SlotFields(slots[0].value), c.reviewPolicy.value);
    }
    if c.executor.Some? {
      ExecutorReread(SlotFields(slots[1].value), c.executor.value);
    }
    if c.validationTarget.Some? {
      TargetReread(SlotFields(slots[2].value), c.validationTarget.value);
    }
    if c.ideation.Some? {
      IdeationReread(SlotFields(slots[10].value), c.ideation.value);
    }
  }

  lemma NothingToRead()
    ensures CheckReviewPolicy(None, {}) == Checked(None, {}) && CheckExecutor(None, {}) == Checked(None, {})
    ensures CheckTarget(None, {}) == Checked(None, {}) && CheckIdeation(None, {}) == Checked(None, {})
  {
  }

  lemma FixedSectionsListed(c: Config, o: Orders)
    requires Fits(o, c)
    ensures var s, k := SectionSlots(c, o), SectionKeys(o);
            && |s| == |k| == 11
            && s[3] == Some(AgentSlots(c.agents)) && k[3] == AGENT_KEYS
            && s[4] == (if c.watchdogByAgent.Some? then Some(TimeoutSlots(o.timeouts, c.watchdogByAgent.value)) else None)
            && k[4] == o.timeouts
            && s[5] == Some(RoleSlots(c.roleMcp)) && k[5] == ROLE_SLOT_KEYS
            && s[6] == Some(CommandSlots(c.commands, o.custom)) && k[6] == CommandKeys(o.custom)
            && s[7] == Some(NotificationSlots(c.notifications)) && k[7] == NOTIFICATION_KEYS
            && s[8] == Some(OverlaySlots(c.localOverlay)) && k[8] == OVERLAY_KEYS
            && s[9] == Some(GateSlots(c.docContractGates)) && k[9] == GATE_KEYS
  {
    hide PolicySlots, ExecutorSlots, TargetSlots, IdeationSlots, AgentSlots, RoleSlots, CommandSlots, TimeoutSlots,
      NotificationSlots, OverlaySlots, GateSlots, CommandKeys, Enumerates;
  }

  lemma FixedSectionsReread(c: Config, o: Orders)
    requires Canonical(c) && Fits(o, c) && |SectionSlots(c, o)| == 11
    ensures var s := SectionsOf(SectionSlots(c, o));
            && (CheckAgents(s.agents, {}) == Checked(c.agents, {}) <==> ModelsStable(c.agents))
            && CheckRoleMcp(s.roleMcp, {}) == Checked(c.roleMcp, {})
            && CheckCommands(s.commands, {}) == Checked(Some(c.commands), {})
            && CheckNotifications(s.notifications, {}) == Checked(c.notifications, {})
            && CheckOverlay(s.overlay, {}) == Checked(c.localOverlay, {})
            && CheckGates(s.gates, {}) == Checked(c.docContractGates, {})
  {
    SectionHolds(c, o, 3);
    SectionHolds(c, o, 5);
    SectionHolds(c, o, 6);
    SectionHolds(c, o, 7);
    SectionHolds(c, o, 8);
    SectionHolds(c, o, 9);
    FixedSectionsListed(c, o);
    hide SectionSlots, SectionKeys, Holds, SlotFields, Enumerates, PolicySlots, ExecutorSlots, TargetSlots, IdeationSlots, AgentSlots, RoleSlots, CommandSlots,
      TimeoutSlots, NotificationSlots, OverlaySlots, GateSlots, CommandKeys, CheckAgents, CheckRoleMcp, CheckCommands,
      CheckNotifications, CheckOverlay, CheckGates, ModelsStable, GoodAgents, GoodRoles, GoodCommands, GoodOverlay,
      GoodNotifications, GoodTarget, GoodIdeation, OptNonBlank;
    var slots := SectionSlots(c, o);
    AgentsReread(SlotFields(slots[3].value), c.agents);
    RolesReread(SlotFields(slots[5].value), c.roleMcp);
    CommandsReread(SlotFields(slots[6].value), c.commands, o.custom);
    NotificationsReread(SlotFields(slots[7].value), c.notifications);
    OverlayReread(SlotFields(slots[8].value), c.localOverlay);
    GatesReread(SlotFields(slots[9].value), c.docContractGates);
  }

  lemma ContentsReread(c: Config, o: Orders)
    requires Canonical(c) && Fits(o, c) && |SectionSlots(c, o)| == 11
    ensures CheckContents(SectionsOf(SectionSlots(c, o)), {}) == Checked(ContentsOf(c), {}) <==> ModelsStable(c.agents)
  {
    hide SectionSlots, SectionsOf, Canonical, Fits, CheckAgents, CheckRoleMcp, CheckCommands, CheckTarget, CheckNotifications,
      CheckOverlay, CheckGates, CheckIdeation, CheckReviewPolicy, CheckExecutor, ModelsStable;
    OptionalSectionsReread(c, o);
    FixedSectionsReread(c, o);
  }

  lemma TimeoutsAnswer(c: Config, o: Orders)
    requires Canonical(c) && Fits(o, c)
    ensures Get(AsRecord(c, o), "watchdog_timeout_minutes_by_agent") == TimeoutValue(c.watchdogByAgent)
  {
    SectionAnswer(c, o, 4);
    SectionHolds(c, o, 4);
    SectionNamesListed();
    FixedSectionsListed(c, o);
    hide SectionSlots, SectionKeys, Holds, SlotFields, Enumerates, TimeoutFields, PolicySlots, ExecutorSlots, TargetSlots, IdeationSlots, AgentSlots,
      RoleSlots, CommandSlots, TimeoutSlots, NotificationSlots, OverlaySlots, GateSlots, CommandKeys, AsRecord, Get, Canonical;
    if c.watchdogByAgent.Some? {
      TimeoutsReread(SlotFields(SectionSlots(c, o)[4].value), c.watchdogByAgent.value, o.timeouts);
    }
  }

  // ---- Main results

  /** Validating an accepted configuration again, as the record it stands for, accepts exactly that
      configuration if and only if every stored model name is non-empty and ends visibly. */
  lemma CanonicalAgain(c: Config, o: Orders)
    requires Canonical(c) && Fits(o, c)
    ensures Validate(Rec(AsRecord(c, o))) == Accepted(c) <==> ModelsStable(c.agents)
  {
    SectionsReread(c, o);
    ContentsReread(c, o);
    TimeoutsAnswer(c, o);
    TopParts(c, o);
    hide SectionSlots, SectionsOf, Fits, AsRecord, Get, CheckNames, CheckModes, CheckLimits, CheckOpeners, CheckSections,
      CheckContents, GoodNames, GoodModes, GoodLimits, GoodOpeners, GoodContents, Answers, ModelsStable;
    var r := AsRecord(c, o);
    NamesReread(r, c);
    ModesReread(r, c);
    LimitsReread(r, c);
    OpenersReread(r, c);
    var contents := CheckContents(SectionsOf(SectionSlots(c, o)), {});
    if Validate(Rec(r)) == Accepted(c) {
      assert contents.log == {} && contents.value == ContentsOf(c);
    }
  }

  lemma ValidatedAgain(input: Value, o: Orders)
    requires Validate(input).Accepted? && Fits(o, Validate(input).config)
    ensures var c := Validate(input).config;
            Validate(Rec(AsRecord(c, o))) == Accepted(c) <==> ModelsStable(c.agents)
  {
    hide Validate, AsRecord, Fits, Canonical, ModelsStable;
    AcceptedIsCanonical(input);
    CanonicalAgain(Validate(input).config, o);
  }

  /** Printing an accepted configuration and parsing the text: the parser refuses it exactly when some
      printed item hides a `#` or a comma badly, and otherwise gives back that configuration exactly
      when validating it again would. */
  lemma PrintedConfigReadsBack(input: Value, o: Orders)
    requires Validate(input).Accepted? && Fits(o, Validate(input).config)
    ensures var c := Validate(input).config;
            && (ParseConfig(RenderConfig(c, o)) == None <==> !DocSurvives(ConfigDoc(c, o)))
            && (ParseConfig(RenderConfig(c, o)) == Some(Accepted(c)) <==>
                DocSurvives(ConfigDoc(c, o)) && ModelsStable(c.agents))
  {
    hide Validate, AsRecord, Fits, Canonical, ModelsStable, DocSurvives, ConfigDoc, DocRecord, Render, Lines, Document, WellFormed;
    var c := Validate(input).config;
    AcceptedIsCanonical(input);
    ConfigDocIsWell(c, o);
    RecordOfDoc(c, o);
    DocumentRoundTrip(ConfigDoc(c, o));
    CanonicalAgain(c, o);
  }

  lemma RecordOfDoc(c: Config, o: Orders)
    requires Fits(o, c)
    ensures AsRecord(c, o) == DocRecord(ConfigDoc(c, o))
  {
  }

  // ---- A simple sufficient condition

  /** No double quote together with a `#` in a text, no double quote in a list element. */
  predicate EasyItem(item: Item) {
    match item
    case Text(s) => '"' !in s || '#' !in s
    case Texts(xs) => forall i :: 0 <= i < |xs| ==> '"' !in xs[i]
    case _ => true
  }

  predicate EasySlots(slots: seq<Slot>) {
    forall i :: 0 <= i < |slots| && slots[i].Set? ==> EasyItem(slots[i].item)
  }

  predicate EasyDoc(doc: Doc) {
    EasySlots(doc.top) && forall i :: 0 <= i < |doc.blocks| ==> EasySlots(doc.blocks[i].slots)
  }

  lemma {:induction false} UnquotedHides(s: string, mark: char)
    requires '"' !in s && (mark == '#' || mark == ',')
    ensures After(InDouble, s) == InDouble && Hides(s, mark)
    decreases s
  {
    if s != "" {
      assert Toggle(InDouble, s[0]) == InDouble;
      UnquotedHides(s[1..], mark);
    }
  }

  lemma {:induction false} AbsentHides(q: QuoteState, s: string, mark: char)
    requires mark !in s
    ensures Reach(q, s, mark) == |s|
    decreases s
  {
    if s != "" {
      AbsentHides(Toggle(q, s[0]), s[1..], mark);
    }
  }

  lemma {:induction false} UnquotedSplitsWell(xs: seq<string>)
    requires forall i :: 0 <= i < |xs| ==> '"' !in xs[i]
    ensures SplitsWell(xs) && forall i :: 0 <= i < |xs| ==> Hides(xs[i], '#')
    decreases xs
  {
    hide Hides;
    if xs != [] {
      UnquotedSplitsWell(xs[1..]);
      UnquotedHides(xs[0], ',');
      UnquotedHides(xs[0], '#');
      forall i | 0 <= i < |xs| ensures Hides(xs[i], '#') {
        if i > 0 {
          assert xs[i] == xs[1..][i - 1];
        }
      }
    }
  }

  lemma EasyItemSurvives(item: Item)
    requires EasyItem(item)
    ensures Survives(item)
  {
    match item
    case Text(s) =>
      if '"' in s {
        AbsentHides(InDouble, s, '#');
      } else {
        UnquotedHides(s, '#');
      }
    case Texts(xs) => UnquotedSplitsWell(xs);
    case _ =>
  }

  lemma EasyDocSurvives(doc: Doc)
    requires EasyDoc(doc)
    ensures DocSurvives(doc)
  {
    hide EasyItem, Survives;
    forall item: Item | EasyItem(item) ensures Survives(item) {
      EasyItemSurvives(item);
    }
  }

  /** Nothing is lost for configurations whose texts keep quotes and `#` apart, whose list elements
      hold no quote, and whose model names are not empty and end visibly. */
  lemma EasyConfigReadsBack(input: Value, o: Orders)
    requires Validate(input).Accepted? && Fits(o, Validate(input).config)
    requires EasyDoc(ConfigDoc(Validate(input).config, o)) && ModelsStable(Validate(input).config.agents)
    ensures ParseConfig(RenderConfig(Validate(input).config, o)) == Some(Accepted(Validate(input).config))
  {
    hide Validate, Fits, ModelsStable, ConfigDoc, RenderConfig, ParseConfig;
    EasyDocSurvives(ConfigDoc(Validate(input).config, o));
    PrintedConfigReadsBack(input, o);
  }

  // ---- What is lost otherwise

  /** A canonical configuration with an item that does not survive: the validator accepts it, and its
      printed form is refused. */
  lemma LostWhenPrinted(c: Config, o: Orders)
    requires Canonical(c) && Fits(o, c) && ModelsStable(c.agents) && !DocSurvives(ConfigDoc(c, o))
    ensures Validate(Rec(AsRecord(c, o))) == Accepted(c)
    ensures ParseConfig(RenderConfig(c, o)) == None
  {
    hide *;
    CanonicalAgain(c, o);
    PrintedConfigReadsBack(Rec(AsRecord(c, o)), o);
  }

  lemma {:induction false} BlockListed(names: seq<string>, slots: seq<Option<seq<Slot>>>, i: nat) returns (b: nat)
    requires |names| == |slots| && i < |slots| && slots[i].Some?
    ensures b < |Blocks(names, slots)| && Blocks(names, slots)[b].slots == slots[i].value
    decreases i
  {
    if i == 0 {
      b := 0;
    } else {
      var more := BlockListed(names[1..], slots[1..], i - 1);
      b := if slots[0].Some? then more + 1 else more;
    }
  }

  /** An item that does not survive in some printed section. */
  lemma LostInSection(c: Config, o: Orders, section: nat, slot: nat)
    requires Fits(o, c) && section < |SectionSlots(c, o)| && SectionSlots(c, o)[section].Some?
    requires var slots := SectionSlots(c, o)[section].value;
             slot < |slots| && slots[slot].Set? && !Survives(slots[slot].item)
    ensures !DocSurvives(ConfigDoc(c, o))
  {
    SectionCount(c, o);
    hide SectionSlots, Survives, Blocks, SECTION_NAMES;
    var b := BlockListed(SECTION_NAMES, SectionSlots(c, o), section);
  }

  function WithTest(c: Config, test: string): Config { c.(commands := c.commands.(test := test)) }

  /** A quote before a `#`, here in the test command of any accepted configuration: the comment scan, blind
      to escapes, cuts the text. */
  lemma QuoteThenHashIsLost(input: Value, o: Orders)
    requires Validate(input).Accepted? && Fits(o, Validate(input).config) && ModelsStable(Validate(input).config.agents)
    ensures var c := WithTest(Validate(input).config, "a\"#b");
            && Fits(o, c) && Validate(Rec(AsRecord(c, o))) == Accepted(c)
            && ParseConfig(RenderConfig(c, o)) == None
  {
    hide Validate, AsRecord, RenderConfig, ParseConfig, Fits, Canonical, ModelsStable, DocSurvives, ConfigDoc;
    AcceptedIsCanonical(input);
    TestIsKept(Validate(input).config, o);
    LostWhenPrinted(WithTest(Validate(input).config, "a\"#b"), o);
  }

  lemma TestIsKept(c: Config, o: Orders)
    requires Canonical(c) && Fits(o, c)
    ensures var d := WithTest(c, "a\"#b");
            Canonical(d) && Fits(o, d) && d.agents == c.agents && !DocSurvives(ConfigDoc(d, o))
  {
    var d := WithTest(c, "a\"#b");
    TestStaysCanonical(c);
    assert Fits(o, d);
    HashTextIsCut();
    TestSlot(d, o);
    hide Survives, Canonical, DocSurvives, ConfigDoc, SectionSlots;
    LostInSection(d, o, 6, 2);
  }

  lemma TestStaysCanonical(c: Config)
    requires Canonical(c)
    ensures Canonical(WithTest(c, "a\"#b"))
  {
    hide GoodNames, GoodModes, GoodLimits, GoodOpeners, GoodAgents, GoodRoles, GoodTarget, GoodNotifications, GoodOverlay,
      GoodIdeation, GoodPolicy, GoodExecutor, GoodIds, GoodCustom;
    assert NonBlank("a\"#b") by {
      TightIsFixed(Js, "a\"#b");
    }
  }

  lemma HashTextIsCut()
    ensures !Survives(Text("a\"#b"))
  {
    assert "a\"#b"[1..] == "\"#b" && "\"#b"[1..] == "#b";
    assert Reach(Plain, "#b", '#') == 0;
    assert Reach(InDouble, "\"#b", '#') == 1;
  }

  lemma TestSlot(c: Config, o: Orders)
    requires Fits(o, c)
    ensures var s := SectionSlots(c, o);
            |s| > 6 && s[6].Some? && |s[6].value| > 2 && s[6].value[2] == TextSlot("test", c.commands.test)
  {
  }

  function WithEntries(c: Config, entries: seq<string>): Config { c.(localOverlay := c.localOverlay.(entries := entries)) }

  /** A quote in an element that is not the last, here in the overlay entries of any accepted configuration:
      the comma after it is no longer seen. */
  lemma QuotedElementIsLost(input: Value, o: Orders)
    requires Validate(input).Accepted? && Fits(o, Validate(input).config) && ModelsStable(Validate(input).config.agents)
    ensures var c := WithEntries(Validate(input).config, ["a\"", "b"]);
            && Fits(o, c) && Validate(Rec(AsRecord(c, o))) == Accepted(c)
            && ParseConfig(RenderConfig(c, o)) == None
  {
    hide Validate, AsRecord, RenderConfig, ParseConfig, Fits, Canonical, ModelsStable, DocSurvives, ConfigDoc;
    AcceptedIsCanonical(input);
    EntriesAreKept(Validate(input).config, o);
    LostWhenPrinted(WithEntries(Validate(input).config, ["a\"", "b"]), o);
  }

  lemma EntriesAreKept(c: Config, o: Orders)
    requires Canonical(c) && Fits(o, c)
    ensures var d := WithEntries(c, ["a\"", "b"]);
            Canonical(d) && Fits(o, d) && d.agents == c.agents && !DocSurvives(ConfigDoc(d, o))
  {
    var d := WithEntries(c, ["a\"", "b"]);
    EntriesStayCanonical(c);
    assert Fits(o, d);
    QuotedElementIsCut();
    EntriesSlot(d, o);
    hide Survives, Canonical, DocSurvives, ConfigDoc, SectionSlots;
    LostInSection(d, o, 8, 2);
  }

  lemma EntriesStayCanonical(c: Config)
    requires Canonical(c)
    ensures Canonical(WithEntries(c, ["a\"", "b"]))
  {
    hide GoodNames, GoodModes, GoodLimits, GoodOpeners, GoodAgents, GoodRoles, GoodTarget, GoodNotifications,
      GoodIdeation, GoodPolicy, GoodExecutor, GoodCommands, OVERLAY_MODES;
    PlainEntryIsSafe("a\"");
    PlainEntryIsSafe("b");
    hide IsSafeOverlayEntry;
  }

  lemma QuotedElementIsCut()
    ensures !Survives(Texts(["a\"", "b"]))
  {
    assert "a\""[1..] == "\"" && "\""[1..] == "";
    assert After(Plain, "") == Plain;
    assert After(InDouble, "\"") == Plain;
  }

  lemma EntriesSlot(c: Config, o: Orders)
    requires Fits(o, c)
    ensures var s := SectionSlots(c, o);
            |s| > 8 && s[8].Some? && |s[8].value| > 2 && s[8].value[2] == Set("entries", Texts(c.localOverlay.entries))
  {
  }

  /** A slash after a space: each reading of the model name takes away one more character. */
  lemma ModelNameShrinks()
    ensures TrimAndStrip("x /") == "x " && TrimAndStrip("x ") == "x"
    ensures !ModelStable(Some("x "))
  {
    TightIsFixed(Js, "x /");
    assert "x /"[..2] == "x ";
    assert StripSlashes("x ") == "x ";
    TrimTrailingSpace(Js, "x");
    assert "x" + " " == "x ";
  }
}
