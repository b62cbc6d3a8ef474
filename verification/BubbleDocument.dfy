/** Every canonical configuration prints as a well-formed document. */
module BubbleDocument {
  import opened Text
  import opened TomlParser
  import opened TomlLexer
  import opened TomlPrinter
  import opened TomlDocuments
  import opened BubbleConfig
  import opened BubbleValidation
  import opened BubbleRender
  import opened BubbleLookup
  import opened BubbleCanonical

  // ---- Every printed section is well formed

  lemma OneLineConcat(a: string, b: string)
    requires OneLine(a) && OneLine(b)
    ensures OneLine(a + b)
  {
  }

  lemma LauncherNoteIsOneLine()
    ensures OneLine(UNSET_LAUNCHER)
  {
    hide OneLine;
    NoteHeadIsOneLine();
    NoteTailIsOneLine();
    hide UNSET_LAUNCHER_HEAD, UNSET_LAUNCHER_TAIL;
    OneLineConcat(UNSET_LAUNCHER_HEAD, UNSET_LAUNCHER_TAIL);
  }

  lemma NoteHeadIsOneLine()
    ensures OneLine(UNSET_LAUNCHER_HEAD)
  {
  }

  lemma NoteTailIsOneLine()
    ensures OneLine(UNSET_LAUNCHER_TAIL)
  {
  }

  lemma KeyedConcat(a: seq<Slot>, b: seq<Slot>, keysA: seq<string>, keysB: seq<string>)
    requires Keyed(a, keysA) && Keyed(b, keysB)
    ensures Keyed(a + b, keysA + keysB)
  {
    hide OneLine;
  }

  lemma TopIsKeyed(c: Config)
    ensures Keyed(TopSlots(c), TOP_KEYS)
  {
    hide OneLine;
    LauncherNoteIsOneLine();
    assert Keyed(NameSlots(c), NAME_KEYS);
    assert Keyed(ModeSlots(c), MODE_KEYS);
    assert Keyed(LimitSlots(c), LIMIT_KEYS);
    assert Keyed(OpenerSlots(c), OPENER_KEYS);
    KeyedConcat(NameSlots(c), ModeSlots(c), NAME_KEYS, MODE_KEYS);
    KeyedConcat(NameSlots(c) + ModeSlots(c), LimitSlots(c), NAME_KEYS + MODE_KEYS, LIMIT_KEYS);
    KeyedConcat(NameSlots(c) + ModeSlots(c) + LimitSlots(c), OpenerSlots(c), NAME_KEYS + MODE_KEYS + LIMIT_KEYS, OPENER_KEYS);
  }

  function CommandKeys(order: seq<string>): seq<string> {
    HEAD_COMMAND_KEYS + order + TAIL_COMMAND_KEYS
  }

  lemma CommandIdIsBare(id: string)
    requires IsCommandId(id)
    ensures BareKey(id) && id != PROTO
  {
    forall i | 0 <= i < |id| ensures BareChar(id[i]) {}
    assert PROTO[0] == '_';
  }

  lemma CustomKeysAreGood(custom: map<string, string>, order: seq<string>)
    requires GoodCustom(custom) && Enumerates(order, custom.Keys)
    ensures GoodKeys(order) && Separate(HEAD_COMMAND_KEYS, order) && Separate(order, TAIL_COMMAND_KEYS)
  {
    hide BareKey, IsCommandId;
    forall i | 0 <= i < |order| ensures BareKey(order[i]) && order[i] != PROTO && order[i] !in FIXED_COMMAND_KEYS {
      assert order[i] in custom;
      CommandIdIsBare(order[i]);
    }
    HeadIsFixed();
  }

  lemma HeadIsFixed()
    ensures forall i :: 0 <= i < |HEAD_COMMAND_KEYS| ==> HEAD_COMMAND_KEYS[i] in FIXED_COMMAND_KEYS
    ensures forall i :: 0 <= i < |TAIL_COMMAND_KEYS| ==> TAIL_COMMAND_KEYS[i] in FIXED_COMMAND_KEYS
  {
  }

  lemma CommandSlotsAreKeyed(c: Commands, order: seq<string>)
    requires GoodCustom(c.custom) && Enumerates(order, c.custom.Keys)
    ensures Keyed(CommandSlots(c, order), CommandKeys(order)) && GoodKeys(CommandKeys(order))
  {
    hide OneLine, BareKey, IsCommandId;
    CommandKeysAreGood();
    CustomKeysAreGood(c.custom, order);
    GoodKeysConcat(HEAD_COMMAND_KEYS, order);
    SeparateConcat(HEAD_COMMAND_KEYS, order, TAIL_COMMAND_KEYS);
    GoodKeysConcat(HEAD_COMMAND_KEYS + order, TAIL_COMMAND_KEYS);
    assert Keyed(HeadCommandSlots(c), HEAD_COMMAND_KEYS);
    assert Keyed(CustomSlots(order, c.custom), order);
    assert Keyed(TailCommandSlots(c), TAIL_COMMAND_KEYS);
    KeyedConcat(HeadCommandSlots(c), CustomSlots(order, c.custom), HEAD_COMMAND_KEYS, order);
    KeyedConcat(HeadCommandSlots(c) + CustomSlots(order, c.custom), TailCommandSlots(c),
                HEAD_COMMAND_KEYS + order, TAIL_COMMAND_KEYS);
  }

  lemma TimeoutSlotsAreKeyed(t: map<string, nat>, order: seq<string>)
    requires GoodTimeouts(Some(t)) && Enumerates(order, t.Keys)
    ensures Keyed(TimeoutSlots(order, t), order) && GoodKeys(order)
  {
    forall i | 0 <= i < |order| ensures BareKey(order[i]) && order[i] != PROTO {
      assert order[i] in t;
      AgentNamesAreBare(order[i]);
    }
  }

  lemma AgentNamesAreBare(name: string)
    requires name in AGENT_NAMES
    ensures BareKey(name) && name != PROTO
  {
    assert BareKey("opencode") && BareKey("reasonix");
  }

  /** The keys each section of the printed configuration may use. */
  function SectionKeys(o: Orders): seq<seq<string>> {
    [POLICY_KEYS, EXECUTOR_SLOT_KEYS, TARGET_KEYS, AGENT_KEYS, o.timeouts, ROLE_SLOT_KEYS, CommandKeys(o.custom),
     NOTIFICATION_KEYS, OVERLAY_KEYS, GATE_KEYS, IDEATION_KEYS]
  }

  predicate WellKeyed(slots: Option<seq<Slot>>, keys: seq<string>) {
    slots.Some? ==> Keyed(slots.value, keys) && GoodKeys(keys)
  }

  lemma FixedSectionsAreKeyed(c: Config)
    ensures c.reviewPolicy.Some? ==> Keyed(PolicySlots(c.reviewPolicy.value), POLICY_KEYS)
    ensures c.executor.Some? ==> Keyed(ExecutorSlots(c.executor.value), EXECUTOR_SLOT_KEYS)
    ensures c.validationTarget.Some? ==> Keyed(TargetSlots(c.validationTarget.value), TARGET_KEYS)
    ensures Keyed(AgentSlots(c.agents), AGENT_KEYS) && Keyed(RoleSlots(c.roleMcp), ROLE_SLOT_KEYS)
    ensures Keyed(NotificationSlots(c.notifications), NOTIFICATION_KEYS)
    ensures Keyed(OverlaySlots(c.localOverlay), OVERLAY_KEYS)
    ensures Keyed(GateSlots(c.docContractGates), GATE_KEYS)
    ensures c.ideation.Some? ==> Keyed(IdeationSlots(c.ideation.value), IDEATION_KEYS)
  {
    hide OneLine;
  }

  lemma FixedSectionsAreWellKeyed(c: Config, o: Orders)
    requires Fits(o, c)
    ensures var s, k := SectionSlots(c, o), SectionKeys(o);
            && WellKeyed(s[0], k[0]) && WellKeyed(s[1], k[1]) && WellKeyed(s[2], k[2]) && WellKeyed(s[3], k[3])
            && WellKeyed(s[5], k[5]) && WellKeyed(s[7], k[7]) && WellKeyed(s[8], k[8]) && WellKeyed(s[9], k[9])
            && WellKeyed(s[10], k[10])
  {
    hide Keyed, GoodKeys, PolicySlots, ExecutorSlots, TargetSlots, AgentSlots, RoleSlots, CommandSlots, TimeoutSlots,
      NotificationSlots, OverlaySlots, GateSlots, IdeationSlots, CommandKeys, Fits;
    FixedSectionsAreKeyed(c);
    PolicyKeysAreGood();
    AgentKeysAreGood();
    SmallKeysAreGood();
    NotificationKeysAreGood();
    WarningKeysAreGood();
  }

  lemma MapSectionsAreWellKeyed(c: Config, o: Orders)
    requires Canonical(c) && Fits(o, c)
    ensures var s, k := SectionSlots(c, o), SectionKeys(o); WellKeyed(s[4], k[4]) && WellKeyed(s[6], k[6])
  {
    hide Keyed, GoodKeys, PolicySlots, ExecutorSlots, TargetSlots, AgentSlots, RoleSlots, CommandSlots, TimeoutSlots,
      NotificationSlots, OverlaySlots, GateSlots, IdeationSlots, CommandKeys, Canonical, GoodCustom, GoodTimeouts, Enumerates;
    CanonicalCustom(c);
    CommandSlotsAreKeyed(c.commands, o.custom);
    if c.watchdogByAgent.Some? {
      TimeoutSlotsAreKeyed(c.watchdogByAgent.value, o.timeouts);
    }
  }

  lemma SectionIsKeyed(c: Config, o: Orders, i: nat)
    requires Canonical(c) && Fits(o, c) && i < |SECTION_NAMES|
    ensures i < |SectionSlots(c, o)| && i < |SectionKeys(o)|
    ensures WellKeyed(SectionSlots(c, o)[i], SectionKeys(o)[i])
  {
    SectionCount(c, o);
    FixedSectionsAreWellKeyed(c, o);
    MapSectionsAreWellKeyed(c, o);
    EachIsKeyed(SectionSlots(c, o), SectionKeys(o), i);
  }

  lemma EachIsKeyed(s: seq<Option<seq<Slot>>>, k: seq<seq<string>>, i: nat)
    requires |s| == |k| == 11 && i < 11
    requires WellKeyed(s[0], k[0]) && WellKeyed(s[1], k[1]) && WellKeyed(s[2], k[2]) && WellKeyed(s[3], k[3])
    requires WellKeyed(s[4], k[4]) && WellKeyed(s[5], k[5]) && WellKeyed(s[6], k[6]) && WellKeyed(s[7], k[7])
    requires WellKeyed(s[8], k[8]) && WellKeyed(s[9], k[9]) && WellKeyed(s[10], k[10])
    ensures WellKeyed(s[i], k[i])
  {
    hide WellKeyed;
  }

  lemma CanonicalCustom(c: Config)
    requires Canonical(c)
    ensures GoodCustom(c.commands.custom) && GoodCommands(c.commands) && GoodTimeouts(c.watchdogByAgent)
  {
  }

  lemma ConfigDocIsWell(c: Config, o: Orders)
    requires Canonical(c) && Fits(o, c)
    ensures WellFormed(ConfigDoc(c, o))
  {
    hide Keyed, GoodKeys, WellSlots, WellBlocks, SectionSlots, SlotFields, Canonical, Fits;
    TopIsKeyed(c);
    TopKeysAreGood();
    TopSlotsAreWell(c);
    SectionsAreWell(c, o);
    assert SECTION_NAMES[3] == "agents";
    HasAgents(c, o);
  }

  lemma TopSlotsAreWell(c: Config)
    ensures WellSlots(TopSlots(c), {})
  {
    hide WellSlots, TopSlots, Keyed, BareKeys;
    TopIsKeyed(c);
    TopKeysAreGood();
    assert GoodKeys(TOP_KEYS);
    KeyedIsWell(TopSlots(c), TOP_KEYS, {});
  }

  lemma SectionsAreWell(c: Config, o: Orders)
    requires Canonical(c) && Fits(o, c)
    ensures WellBlocks(Blocks(SECTION_NAMES, SectionSlots(c, o)), SlotFields(TopSlots(c)).Keys)
  {
    hide WellSlots, WellBlocks, TopSlots, SlotFields, Keyed, BareKeys, SectionSlots, Blocks, Canonical, Fits;
    SectionNamesAreGood();
    SectionsApart();
    TopIsKeyed(c);
    SlotKeysWithin(TopSlots(c), TOP_KEYS);
    var slots := SectionSlots(c, o);
    assert |slots| == |SECTION_NAMES| by { SectionCount(c, o); }
    forall i | 0 <= i < |slots| && slots[i].Some? ensures WellSlots(slots[i].value, {}) {
      SectionIsKeyed(c, o, i);
      KeyedIsWell(slots[i].value, SectionKeys(o)[i], {});
    }
    assert GoodKeys(SECTION_NAMES);
    BlocksAreWell(SECTION_NAMES, slots, SlotFields(TopSlots(c)).Keys);
  }

  lemma SectionCount(c: Config, o: Orders)
    requires Fits(o, c)
    ensures |SectionSlots(c, o)| == |SECTION_NAMES| == |SectionKeys(o)|
  {
  }

  lemma HasAgents(c: Config, o: Orders)
    requires Fits(o, c)
    ensures ConfigDoc(c, o).blocks != []
  {
    hide AgentSlots, CommandSlots;
    var slots := SectionSlots(c, o);
    assert slots[3].Some?;
    SomeBlock(SECTION_NAMES, slots, 3);
  }

  lemma {:induction false} SomeBlock(names: seq<string>, slots: seq<Option<seq<Slot>>>, i: nat)
    requires |names| == |slots| && i < |slots| && slots[i].Some?
    ensures Blocks(names, slots) != []
    decreases i
  {
    if i > 0 {
      SomeBlock(names[1..], slots[1..], i - 1);
    }
  }
}
