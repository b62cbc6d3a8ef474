/** Looking fields up in the record a printed configuration stands for. */
module BubbleLookup {
  import opened Text
  import opened TomlParser
  import opened TomlPrinter
  import opened TomlDocuments
  import opened BubbleConfig
  import opened BubbleValidation
  import opened BubbleRender

  /** Slot `i` sets the key at `i`, or nothing. */
  predicate Keyed(slots: seq<Slot>, keys: seq<string>) {
    && |slots| == |keys|
    && forall i :: 0 <= i < |keys| ==>
         match slots[i] case Set(key, _) => key == keys[i] case Unset => true case Note(text) => OneLine(text)
  }

  predicate BareKeys(keys: seq<string>) {
    forall i :: 0 <= i < |keys| ==> BareKey(keys[i]) && keys[i] != PROTO
  }

  function SlotValue(slot: Slot): Option<Value> {
    if slot.Set? then Some(ItemValue(slot.item)) else None
  }

  lemma {:induction false} SlotKeysWithin(slots: seq<Slot>, keys: seq<string>)
    requires Keyed(slots, keys)
    ensures forall k :: k in SlotFields(slots) ==> k in keys
    decreases slots
  {
    if slots != [] {
      assert Keyed(slots[1..], keys[1..]);
      SlotKeysWithin(slots[1..], keys[1..]);
      assert forall k :: k in keys[1..] ==> k in keys;
      if slots[0].Set? {
        assert slots[0].key == keys[0];
      }
    }
  }

  lemma {:induction false} SlotLookup(slots: seq<Slot>, keys: seq<string>, i: nat)
    requires Keyed(slots, keys) && Distinct(keys) && i < |keys|
    ensures Get(SlotFields(slots), keys[i]) == SlotValue(slots[i])
    decreases slots
  {
    var rest := slots[1..];
    assert Keyed(rest, keys[1..]);
    SlotKeysWithin(rest, keys[1..]);
    assert keys[0] !in keys[1..];
    if i > 0 {
      SlotLookup(rest, keys[1..], i - 1);
      assert slots[i] == rest[i - 1] && keys[i] == keys[1..][i - 1];
      assert keys[i] != keys[0];
    }
  }

  lemma {:induction false} KeyedIsWell(slots: seq<Slot>, keys: seq<string>, taken: set<string>)
    requires Keyed(slots, keys) && Distinct(keys) && BareKeys(keys)
    requires forall i :: 0 <= i < |keys| ==> keys[i] !in taken
    ensures WellSlots(slots, taken)
    decreases slots
  {
    if slots != [] {
      assert Keyed(slots[1..], keys[1..]);
      var more := if slots[0].Set? then taken + {slots[0].key} else taken;
      forall i | 0 <= i < |keys[1..]| ensures keys[1..][i] !in more {
        assert keys[1..][i] == keys[i + 1] && keys[0] != keys[i + 1];
      }
      assert BareKeys(keys[1..]) by {
        forall i | 0 <= i < |keys[1..]| ensures BareKey(keys[1..][i]) && keys[1..][i] != PROTO {
          assert keys[1..][i] == keys[i + 1];
        }
      }
      assert BareKey(keys[0]) && keys[0] !in taken;
      KeyedIsWell(slots[1..], keys[1..], more);
    }
  }

  // ---- Sections

  lemma {:induction false} BlockKeysWithin(names: seq<string>, slots: seq<Option<seq<Slot>>>)
    requires |names| == |slots|
    ensures forall k :: k in BlockFields(Blocks(names, slots)) ==> k in names
    decreases names
  {
    if names != [] {
      BlockKeysWithin(names[1..], slots[1..]);
      var rest := Blocks(names[1..], slots[1..]);
      if slots[0].Some? {
        assert ([Block(names[0], slots[0].value)] + rest)[1..] == rest;
      } else {
        assert [] + rest == rest;
      }
      assert forall k :: k in names[1..] ==> k in names;
    }
  }

  lemma {:induction false} BlockLookup(names: seq<string>, slots: seq<Option<seq<Slot>>>, i: nat)
    requires |names| == |slots| && Distinct(names) && i < |names|
    ensures Get(BlockFields(Blocks(names, slots)), names[i]) ==
            if slots[i].Some? then Some(Rec(SlotFields(slots[i].value))) else None
    decreases names
  {
    hide SlotFields;
    var rest := Blocks(names[1..], slots[1..]);
    BlockKeysWithin(names[1..], slots[1..]);
    assert names[0] !in names[1..];
    if slots[0].Some? {
      assert ([Block(names[0], slots[0].value)] + rest)[1..] == rest;
    } else {
      assert [] + rest == rest;
    }
    if i > 0 {
      BlockLookup(names[1..], slots[1..], i - 1);
      assert names[i] == names[1..][i - 1] && slots[i] == slots[1..][i - 1];
    }
  }

  lemma {:induction false} BlocksAreWell(names: seq<string>, slots: seq<Option<seq<Slot>>>, taken: set<string>)
    requires |names| == |slots| && Distinct(names) && BareKeys(names)
    requires forall i :: 0 <= i < |names| ==> names[i] !in taken && names[i] !in INHERITED
    requires forall i :: 0 <= i < |slots| && slots[i].Some? ==> WellSlots(slots[i].value, {})
    ensures WellBlocks(Blocks(names, slots), taken)
    decreases names
  {
    hide WellSlots, BareKey;
    if names != [] {
      var rest := Blocks(names[1..], slots[1..]);
      var more := if slots[0].Some? then taken + {names[0]} else taken;
      forall i | 0 <= i < |names[1..]|
        ensures names[1..][i] !in more && names[1..][i] !in INHERITED
        ensures BareKey(names[1..][i]) && names[1..][i] != PROTO
      {
        assert names[1..][i] == names[i + 1] && names[0] != names[i + 1];
      }
      forall i | 0 <= i < |slots[1..]| && slots[1..][i].Some? ensures WellSlots(slots[1..][i].value, {}) {
        assert slots[1..][i] == slots[i + 1];
      }
      BlocksAreWell(names[1..], slots[1..], more);
      if slots[0].Some? {
        assert ([Block(names[0], slots[0].value)] + rest)[1..] == rest;
      } else {
        assert [] + rest == rest;
      }
    }
  }

  // ---- The printer's own keys

  predicate Separate(a: seq<string>, b: seq<string>) {
    forall i, j :: 0 <= i < |a| && 0 <= j < |b| ==> a[i] != b[j]
  }

  /** Keys the printer may use in one section. */
  predicate GoodKeys(keys: seq<string>) { Distinct(keys) && BareKeys(keys) }

  lemma GoodKeysConcat(a: seq<string>, b: seq<string>)
    requires GoodKeys(a) && GoodKeys(b) && Separate(a, b)
    ensures GoodKeys(a + b)
  {
    hide BareKey;
    var ab := a + b;
    forall i, j | 0 <= i < j < |ab| ensures ab[i] != ab[j] {
      if i < |a| && |a| <= j {
        assert ab[i] == a[i] && ab[j] == b[j - |a|];
      }
    }
  }

  lemma SeparateConcat(a: seq<string>, b: seq<string>, c: seq<string>)
    requires Separate(a, c) && Separate(b, c)
    ensures Separate(a + b, c)
  {
  }

  lemma NameKeysAreGood()
    ensures GoodKeys(NAME_KEYS)
  {
    assert BareKey("id") && BareKey("bubble_instance_id") && BareKey("repo_path");
    assert BareKey("base_branch") && BareKey("bubble_branch");
    hide BareKey;
  }

  lemma ModeKeysAreGood()
    ensures GoodKeys(MODE_KEYS)
  {
    assert BareKey("work_mode") && BareKey("quality_mode") && BareKey("review_artifact_type");
    assert BareKey("pairflow_command_profile") && BareKey("reviewer_context_mode");
    hide BareKey;
  }

  lemma LimitKeysAreGood()
    ensures GoodKeys(LIMIT_KEYS)
  {
    assert BareKey("watchdog_timeout_minutes") && BareKey("max_rounds") && BareKey("severity_gate_round");
    assert BareKey("commit_requires_approval") && BareKey("accuracy_critical");
    hide BareKey;
  }

  lemma OpenerKeysAreGood()
    ensures GoodKeys(OPENER_KEYS)
  {
    assert BareKey("attach_launcher") && BareKey("open_command") && BareKey("open_remote_command");
    hide BareKey;
  }

  lemma TopKeysAreGood()
    ensures GoodKeys(TOP_KEYS)
  {
    hide BareKey;
    NameKeysAreGood();
    ModeKeysAreGood();
    LimitKeysAreGood();
    OpenerKeysAreGood();
    assert Separate(NAME_KEYS, MODE_KEYS);
    GoodKeysConcat(NAME_KEYS, MODE_KEYS);
    assert Separate(NAME_KEYS, LIMIT_KEYS) && Separate(MODE_KEYS, LIMIT_KEYS);
    SeparateConcat(NAME_KEYS, MODE_KEYS, LIMIT_KEYS);
    GoodKeysConcat(NAME_KEYS + MODE_KEYS, LIMIT_KEYS);
    assert Separate(NAME_KEYS, OPENER_KEYS) && Separate(MODE_KEYS, OPENER_KEYS) && Separate(LIMIT_KEYS, OPENER_KEYS);
    SeparateConcat(NAME_KEYS, MODE_KEYS, OPENER_KEYS);
    SeparateConcat(NAME_KEYS + MODE_KEYS, LIMIT_KEYS, OPENER_KEYS);
    GoodKeysConcat(NAME_KEYS + MODE_KEYS + LIMIT_KEYS, OPENER_KEYS);
  }

  lemma SectionNamesAreBare()
    ensures BareKeys(SECTION_NAMES)
  {
    SectionNamesAreBare1();
    SectionNamesAreBare2();
    hide BareKey;
  }

  lemma SectionNamesAreBare1()
    ensures BareKey("review_policy") && BareKey("executor") && BareKey("validation_target") && BareKey("agents")
    ensures BareKey("role_mcp") && BareKey("commands") && BareKey("notifications")
  {
  }

  lemma SectionNamesAreBare2()
    ensures BareKey("watchdog_timeout_minutes_by_agent") && BareKey("local_overlay")
    ensures BareKey("doc_contract_gates") && BareKey("ideation")
  {
  }

  lemma SectionNamesAreGood()
    ensures GoodKeys(SECTION_NAMES)
    ensures forall i :: 0 <= i < |SECTION_NAMES| ==> SECTION_NAMES[i] !in INHERITED
  {
    hide BareKey;
    SectionNamesAreBare();
    SectionNamesAreOwn();
  }

  lemma SectionNamesAreOwn()
    ensures forall i :: 0 <= i < |SECTION_NAMES| ==> SECTION_NAMES[i] !in INHERITED
  {
  }

  lemma SectionsApart()
    ensures Separate(TOP_KEYS, SECTION_NAMES)
  {
    assert Separate(NAME_KEYS, SECTION_NAMES);
    assert Separate(MODE_KEYS, SECTION_NAMES);
    assert Separate(LIMIT_KEYS, SECTION_NAMES);
    assert Separate(OPENER_KEYS, SECTION_NAMES);
    SeparateConcat(NAME_KEYS, MODE_KEYS, SECTION_NAMES);
    SeparateConcat(NAME_KEYS + MODE_KEYS, LIMIT_KEYS, SECTION_NAMES);
    SeparateConcat(NAME_KEYS + MODE_KEYS + LIMIT_KEYS, OPENER_KEYS, SECTION_NAMES);
  }

  lemma PolicyKeysAreGood()
    ensures GoodKeys(POLICY_KEYS)
  {
    assert BareKey("review_loop_mode") && BareKey("reviewer_blocking_min_severity");
    LongPolicyKeys();
    hide BareKey;
  }

  lemma LongPolicyKeys()
    ensures BareKey("meta_review_auto_rework_min_severity")
    ensures BareKey("meta_review_consecutive_clean_runs_required")
  {
  }

  lemma AgentKeysAreGood()
    ensures GoodKeys(AGENT_KEYS) && GoodKeys(ROLE_SLOT_KEYS)
  {
    assert BareKey("implementer") && BareKey("implementer_model");
    assert BareKey("reviewer") && BareKey("reviewer_model");
    assert BareKey("meta_reviewer") && BareKey("meta_reviewer_model");
    hide BareKey;
  }

  lemma SmallKeysAreGood()
    ensures GoodKeys(EXECUTOR_SLOT_KEYS) && GoodKeys(TARGET_KEYS) && GoodKeys(OVERLAY_KEYS)
  {
    assert BareKey("type") && BareKey("remote") && BareKey("id") && BareKey("cwd") && BareKey("paths");
    assert BareKey("enabled") && BareKey("mode") && BareKey("entries");
    hide BareKey;
  }

  lemma NotificationKeysAreGood()
    ensures GoodKeys(NOTIFICATION_KEYS)
  {
    assert BareKey("enabled") && BareKey("waiting_human_sound") && BareKey("converged_sound");
    hide BareKey;
  }

  lemma WarningKeysAreGood()
    ensures GoodKeys(GATE_KEYS) && GoodKeys(IDEATION_KEYS)
  {
    assert BareKey("round_gate_applies_after") && BareKey("parse_warning") && BareKey("mode");
    assert BareKey("task_pending") && BareKey("started_at") && BareKey("kicked_off_at");
    hide BareKey;
  }

  lemma CommandKeysAreGood()
    ensures GoodKeys(HEAD_COMMAND_KEYS) && GoodKeys(TAIL_COMMAND_KEYS) && Separate(HEAD_COMMAND_KEYS, TAIL_COMMAND_KEYS)
  {
    HeadKeysAreBare();
    TailKeysAreBare();
    hide BareKey;
  }

  lemma HeadKeysAreBare()
    ensures BareKey("bootstrap") && BareKey("lint") && BareKey("test") && BareKey("typecheck")
  {
  }

  lemma TailKeysAreBare()
    ensures BareKey("meta_review_approve_required") && BareKey("validation_required")
    ensures BareKey("validation_required_explicit")
  {
  }
}
