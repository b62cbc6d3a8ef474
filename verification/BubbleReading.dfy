/** Validation accepts exactly the records that have a meaning, and accepts them as what they mean. */
module BubbleReading {
  import opened Text
  import opened TomlParser
  import TomlPrinter
  import TomlLiterals
  import opened BubbleConfig
  import opened BubbleValidation
  import opened BubbleMeaning

  // ---- Texts

  lemma {:induction false} OnlySpaceTrims(s: string)
    requires !Visible(s)
    ensures TrimStart(Js, s) == ""
  {
    if s != "" {
      assert forall i :: 0 <= i < |s[1..]| ==> s[1..][i] == s[i + 1];
      OnlySpaceTrims(s[1..]);
    }
  }

  lemma VisibleTrims(s: string)
    ensures Trim(Js, s) != "" <==> Visible(s)
  {
    var t := TrimStart(Js, s);
    TrimStartSuffix(Js, s);
    if Visible(s) {
      if t == "" {
        assert s[|s|..] == "";
        VisibleStays(s);
      }
      TrimOfVisibleStart(Js, t);
    } else {
      OnlySpaceTrims(s);
    }
  }

  lemma {:induction false} VisibleStays(s: string)
    requires Visible(s)
    ensures TrimStart(Js, s) != ""
  {
    if IsSpace(Js, s[0]) {
      var i :| 0 <= i < |s| && !IsSpace(Js, s[i]);
      assert s[1..][i - 1] == s[i];
      VisibleStays(s[1..]);
    }
  }

  lemma TextMeans(v: Value)
    ensures NonEmptyText(v) <==> IsText(v)
  {
    if v.Str? {
      VisibleTrims(v.text);
    }
  }

  lemma {:induction false} SlashesStripped(s: string) returns (slashes: string)
    ensures s == StripSlashes(s) + slashes && forall i :: 0 <= i < |slashes| ==> slashes[i] == '/'
    ensures StripSlashes(s) != "" ==> StripSlashes(s)[|StripSlashes(s)| - 1] != '/'
  {
    if s != "" && s[|s| - 1] == '/' {
      slashes := SlashesStripped(s[..|s| - 1]);
      slashes := slashes + "/";
      assert s == s[..|s| - 1] + "/";
    } else {
      slashes := "";
    }
  }

  lemma {:induction false} StripOfSlashes(m: string, slashes: string)
    requires (forall i :: 0 <= i < |slashes| ==> slashes[i] == '/') && (m != "" ==> m[|m| - 1] != '/')
    ensures StripSlashes(m + slashes) == m
    decreases slashes
  {
    var s := m + slashes;
    if slashes == "" {
      assert s == m;
    } else {
      assert s[..|s| - 1] == m + slashes[..|slashes| - 1];
      StripOfSlashes(m, slashes[..|slashes| - 1]);
    }
  }

  lemma ModelMeans(text: string, m: string)
    ensures ModelText(text, m) <==> m == TrimAndStrip(text)
  {
    var slashes := SlashesStripped(Trim(Js, text));
    if more :| Trim(Js, text) == m + more && (forall i :: 0 <= i < |more| ==> more[i] == '/') && (m != "" ==> m[|m| - 1] != '/') {
      StripOfSlashes(m, more);
    }
  }

  // ---- Single keys: nothing to complain of exactly when the key means something, and then that is read

  lemma NeededRead(r: Record, key: string, path: string, log: Complaints, t: string)
    ensures var x := ReadString(r, key, path, true, log);
            && (x.log == {} ==> log == {} && x.value.Some? && NeededText(r, key, x.value.value))
            && (log == {} && NeededText(r, key, t) ==> x.log == {} && x.value == Some(t))
  {
    if key in r {
      TextMeans(r[key]);
    }
    hide NonEmptyText, IsText;
  }

  lemma TextRead(r: Record, key: string, path: string, log: Complaints, t: Option<string>)
    ensures var x := ReadString(r, key, path, false, log);
            && (x.log == {} ==> log == {} && TextKey(r, key, x.value))
            && (log == {} && TextKey(r, key, t) ==> x.log == {} && x.value == t)
  {
    if key in r {
      TextMeans(r[key]);
    }
    hide NonEmptyText, IsText;
  }

  function OrDefault(b: Option<bool>, default: bool): bool { if b.Some? then b.value else default }

  lemma FlagRead(r: Record, key: string, path: string, default: bool, log: Complaints, b: bool)
    ensures var x := ReadBoolean(r, key, path, false, log);
            && (x.log == {} ==> log == {} && FlagKey(r, key, default, OrDefault(x.value, default)))
            && (log == {} && FlagKey(r, key, default, b) ==> x.log == {} && OrDefault(x.value, default) == b)
  {
  }

  lemma LooseFlagRead(r: Record, key: string, default: bool, log: Complaints, b: bool)
    ensures var x := ReadFlag(r, key, default, log);
            && (x.log == {} ==> log == {} && LooseFlag(r, key, default, x.value))
            && (log == {} && LooseFlag(r, key, default, b) ==> x.log == {} && x.value == b)
  {
  }

  lemma ChoiceRead(r: Record, key: string, path: string, vocabulary: set<string>, default: string, log: Complaints, t: string)
    requires default in vocabulary
    ensures var x := ReadChoice(r, key, path, vocabulary, default, log);
            && (x.log == {} ==> log == {} && ChoiceKey(r, key, vocabulary, default, x.value))
            && (log == {} && ChoiceKey(r, key, vocabulary, default, t) ==> x.log == {} && x.value == t)
  {
  }

  lemma WholeRead(r: Record, key: string, default: nat, least: nat, problem: Problem, log: Complaints, n: nat)
    requires default >= least
    ensures var x := ReadWhole(r, key, default, least, problem, log);
            && (x.log == {} ==> log == {} && WholeKey(r, key, default, least, x.value))
            && (log == {} && WholeKey(r, key, default, least, n) ==> x.log == {} && x.value == n)
  {
  }

  lemma {:induction false} TextsRead(items: seq<Value>, path: string)
    ensures BadItems(items, path) == {} <==> forall i :: 0 <= i < |items| ==> IsText(items[i])
    ensures BadItems(items, path) == {} ==> TextsAre(items, TrimmedTexts(items))
  {
    hide IsText, NonEmptyText;
    forall i | 0 <= i < |items| ensures NonEmptyText(items[i]) <==> IsText(items[i]) {
      TextMeans(items[i]);
    }
    BadItemsMean(items, path);
    if BadItems(items, path) == {} {
      TrimmedAreAll(items);
    }
  }

  lemma BadItemsMean(items: seq<Value>, path: string)
    ensures BadItems(items, path) == {} <==> forall i :: 0 <= i < |items| ==> NonEmptyText(items[i])
  {
    hide NonEmptyText;
    forall i | 0 <= i < |items| && !NonEmptyText(items[i]) ensures Complaint(Indexed(path, i), NotText) in BadItems(items, path) {
    }
  }

  lemma {:induction false} TrimmedAreAll(items: seq<Value>)
    requires forall i :: 0 <= i < |items| ==> NonEmptyText(items[i])
    ensures |TrimmedTexts(items)| == |items|
    ensures forall i :: 0 <= i < |items| ==> items[i].Str? && TrimmedTexts(items)[i] == Trim(Js, items[i].text)
  {
    if items != [] {
      TrimmedAreAll(items[1..]);
    }
  }

  lemma SameTexts(items: seq<Value>, a: seq<string>, b: seq<string>)
    requires TextsAre(items, a) && TextsAre(items, b)
    ensures a == b
  {
    hide IsText;
  }

  lemma TextsKeyRead(r: Record, key: string, path: string, log: Complaints, ts: Option<seq<string>>)
    ensures var x := ReadStringArray(r, key, path, log);
            && (x.log == {} ==> log == {} && TextsKey(r, key, x.value))
            && (log == {} && TextsKey(r, key, ts) ==> x.log == {} && x.value == ts)
  {
    hide TrimmedTexts, BadItems, IsText;
    if key in r && r[key].List? {
      var items := r[key].items;
      TextsRead(items, path);
      if log == {} && TextsKey(r, key, ts) {
        SameTexts(items, ts.value, TrimmedTexts(items));
      }
    }
  }

  lemma SectionRead(r: Record, key: string, required: bool, log: Complaints, s: Option<Record>)
    ensures var x := ReadObject(r, key, required, log);
            && (x.log == {} ==> log == {} && SectionKey(r, key, x.value) && (required ==> x.value.Some?))
            && (log == {} && SectionKey(r, key, s) && (required ==> s.Some?) ==> x.log == {} && x.value == s)
  {
  }

  // ---- Agents and role policies

  lemma ModelRead(r: Record, key: string, path: string, log: Complaints, m: Option<string>)
    ensures var x := ReadModel(r, key, path, log);
            && (x.log == {} ==> log == {} && ModelKey(r, key, x.value))
            && (log == {} && ModelKey(r, key, m) ==> x.log == {} && x.value == m)
  {
    hide ReadString, Visible, ModelText, TrimAndStrip;
    TextRead(r, key, path, log, if key in r && r[key].Str? then Some(r[key].text) else None);
    if key in r && r[key].Str? {
      ModelMeans(r[key].text, TrimAndStrip(r[key].text));
      if m.Some? {
        ModelMeans(r[key].text, m.value);
      }
    }
  }

  lemma AgentRead(r: Record, key: string, log: Complaints, name: string)
    ensures var x := ReadAgent(r, key, true, log);
            && (x.log == {} ==> log == {} && x.value.Some? && AgentKey(r, key, x.value.value))
            && (log == {} && AgentKey(r, key, name) ==> x.log == {} && x.value == Some(name))
  {
    hide ReadString;
    NeededRead(r, key, "agents." + key, log, name);
  }

  lemma MetaRead(r: Record, log: Complaints, name: string)
    ensures var x := ReadAgent(r, "meta_reviewer", false, log);
            && (x.log == {} ==> log == {} && (x.value.Some? <==> "meta_reviewer" in r) && (x.value.Some? ==> AgentKey(r, "meta_reviewer", x.value.value)))
            && (log == {} && "meta_reviewer" !in r ==> x.log == {} && x.value == None)
            && (log == {} && AgentKey(r, "meta_reviewer", name) ==> x.log == {} && x.value == Some(name))
  {
    hide ReadString;
    TextRead(r, "meta_reviewer", "agents." + "meta_reviewer", log, if "meta_reviewer" in r then Some(name) else None);
  }

  lemma AgentsRead(r: Record, log: Complaints, a: Agents)
    ensures var x := CheckAgents(Some(r), log);
            && (x.log == {} ==> log == {} && AgentsMean(r, x.value))
            && (log == {} && AgentsMean(r, a) ==> x.log == {} && x.value == a)
  {
    hide ReadAgent, ReadModel, AgentKey, ModelKey;
    var implementer := ReadAgent(r, "implementer", true, log);
    var reviewer := ReadAgent(r, "reviewer", true, implementer.log);
    var meta := ReadAgent(r, "meta_reviewer", false, reviewer.log);
    var implementerModel := ReadModel(r, "implementer_model", "agents.implementer_model", meta.log);
    var reviewerModel := ReadModel(r, "reviewer_model", "agents.reviewer_model", implementerModel.log);
    AgentRead(r, "implementer", log, a.implementer);
    AgentRead(r, "reviewer", implementer.log, a.reviewer);
    MetaRead(r, reviewer.log, a.metaReviewer);
    ModelRead(r, "implementer_model", "agents.implementer_model", meta.log, a.implementerModel);
    ModelRead(r, "reviewer_model", "agents.reviewer_model", implementerModel.log, a.reviewerModel);
    ModelRead(r, "meta_reviewer_model", "agents.meta_reviewer_model", reviewerModel.log, a.metaReviewerModel);
    AgentIsNamed(r, "reviewer", OrEmpty(reviewer.value));
    AgentIsNamed(r, "reviewer", a.reviewer);
  }

  lemma AgentIsNamed(r: Record, key: string, name: string)
    ensures AgentKey(r, key, name) ==> name in AGENT_NAMES
  {
  }

  lemma UnknownMeans(r: Record, known: set<string>, path: string)
    ensures UnknownFields(r, known, path) == {} <==> r.Keys <= known
  {
    forall k | k in r && k !in known ensures Complaint(path + k, UnknownField) in UnknownFields(r, known, path) {
    }
  }

  lemma PolicyRead(r: Record, key: string, log: Complaints, p: string)
    ensures var x := ReadPolicy(r, key, log);
            && (x.log == {} ==> log == {} && PolicyKey(r, key, x.value))
            && (log == {} && PolicyKey(r, key, p) ==> x.log == {} && x.value == p)
  {
  }

  lemma RolesRead(s: Option<Record>, log: Complaints, p: RoleMcp)
    ensures var x := CheckRoleMcp(s, log);
            && (x.log == {} ==> log == {} && RolesMean(s, x.value))
            && (log == {} && RolesMean(s, p) ==> x.log == {} && x.value == p)
  {
    hide ReadPolicy, PolicyKey, UnknownFields;
    if s.Some? {
      var r := s.value;
      var start := log + UnknownFields(r, ROLE_KEYS, "role_mcp.");
      var implementer := ReadPolicy(r, "implementer", start);
      var reviewer := ReadPolicy(r, "reviewer", implementer.log);
      UnknownMeans(r, ROLE_KEYS, "role_mcp.");
      PolicyRead(r, "implementer", start, p.implementer);
      PolicyRead(r, "reviewer", implementer.log, p.reviewer);
      PolicyRead(r, "meta_reviewer", reviewer.log, p.metaReviewer);
    }
  }

  // ---- Commands

  lemma CustomMeans(r: Record, k: string)
    ensures IsCustom(r, k) <==> k in r && k !in FIXED_COMMAND_KEYS && IsCommandId(k) && IsText(r[k])
  {
    if k in r {
      TextMeans(r[k]);
    }
    hide IsCommandId, NonEmptyText, IsText;
  }

  lemma BadCustomsMean(r: Record)
    ensures BadCustoms(r) == {} <==> forall k :: k in r && k !in FIXED_COMMAND_KEYS ==> IsCustom(r, k)
  {
    hide IsCustom, IsCommandId;
    forall k | k in r && k !in FIXED_COMMAND_KEYS && !IsCustom(r, k)
      ensures Complaint("commands." + k, if IsCommandId(k) then NotText else MalformedId) in BadCustoms(r)
    {
    }
  }

  lemma CustomsRead(r: Record, custom: map<string, string>)
    ensures BadCustoms(r) == {} ==> CustomsMean(r, CustomCommands(r))
    ensures CustomsMean(r, custom) ==> BadCustoms(r) == {} && CustomCommands(r) == custom
  {
    hide IsCommandId, IsText, IsCustom, BadCustoms;
    BadCustomsMean(r);
    forall k ensures IsCustom(r, k) <==> k in r && k !in FIXED_COMMAND_KEYS && IsCommandId(k) && IsText(r[k]) {
      CustomMeans(r, k);
    }
    CustomsAgree(r, custom);
  }

  lemma CustomsAgree(r: Record, custom: map<string, string>)
    requires forall k :: IsCustom(r, k) <==> k in r && k !in FIXED_COMMAND_KEYS && IsCommandId(k) && IsText(r[k])
    ensures (forall k :: k in r && k !in FIXED_COMMAND_KEYS ==> IsCustom(r, k)) ==> CustomsMean(r, CustomCommands(r))
    ensures CustomsMean(r, custom) ==> custom == CustomCommands(r)
  {
    hide IsCommandId, Visible, IsCustom, Trim;
    if CustomsMean(r, custom) {
      assert forall k :: k in custom <==> k in CustomCommands(r);
    }
  }

  lemma BadIdsMean(ids: seq<string>, path: string)
    ensures BadIds(ids, path) == {} <==> IdsMean(Some(ids))
  {
    hide IsCommandId;
    forall i | 0 <= i < |ids| && (!IsCommandId(ids[i]) || ids[i] in ids[..i])
      ensures Complaint(Indexed(path, i), if IsCommandId(ids[i]) then DuplicateId else MalformedId) in BadIds(ids, path)
    {
    }
    assert forall i, j :: 0 <= j < i < |ids| ==> ids[..i][j] == ids[j];
  }

  lemma IdsRead(ids: Option<seq<string>>, path: string, log: Complaints)
    ensures CheckIds(ids, path, log) == {} <==> log == {} && IdsMean(ids)
  {
    hide BadIds, IdsMean;
    if ids.Some? {
      BadIdsMean(ids.value, path);
    } else {
      NoIds();
    }
  }

  lemma NoIds()
    ensures IdsMean(None)
  {
  }

  /** With all custom commands well formed, the texts looked up are the record's own. */
  lemma RunnableMeans(r: Record, id: string)
    requires BadCustoms(r) == {} && IsCommandId(id)
    ensures IsRunnable(r, CustomCommands(r), id) <==> id in r && IsText(r[id])
  {
    hide IsCommandId, BadCustoms;
    BadCustomsMean(r);
    CustomMeans(r, id);
    if id in r {
      TextMeans(r[id]);
    }
    if IsCustom(r, id) {
      TrimAgain(r[id].text);
    }
  }

  lemma TrimAgain(s: string)
    ensures Trim(Js, Trim(Js, s)) == Trim(Js, s)
  {
    TrimIsTight(Js, s);
    TightIsFixed(Js, Trim(Js, s));
  }

  lemma NotRunnableMeans(r: Record, custom: map<string, string>, ids: seq<string>)
    requires IdsMean(Some(ids))
    ensures NotRunnable(r, custom, ids) == {} <==> forall i :: 0 <= i < |ids| ==> IsRunnable(r, custom, ids[i])
  {
    hide IsRunnable, IsCommandId;
    forall i | 0 <= i < |ids| && !IsRunnable(r, custom, ids[i]) ensures Complaint("commands." + ids[i], NotTextForApproval) in NotRunnable(r, custom, ids) {
      assert ids[i] !in ids[..i];
    }
  }

  lemma ApprovalRead(r: Record, ids: Option<seq<string>>, path: string, log: Complaints)
    requires BadCustoms(r) == {}
    ensures CheckApproval(r, CustomCommands(r), ids, path, log) == {} <==> log == {} && IdsMean(ids) && ApprovedHaveText(r, ids)
  {
    hide BadIds, NotRunnable, IsRunnable, IsText, BadCustoms, IsCommandId, CustomCommands;
    if ids.Some? {
      BadIdsMean(ids.value, path);
      if IdsMean(ids) {
        NotRunnableMeans(r, CustomCommands(r), ids.value);
        forall i | 0 <= i < |ids.value| ensures IsRunnable(r, CustomCommands(r), ids.value[i]) <==> ids.value[i] in r && IsText(r[ids.value[i]]) {
          RunnableMeans(r, ids.value[i]);
        }
      }
    } else {
      NoIds();
    }
  }

  /** The sections and checks of the commands, in order. */
  lemma CommandsRead(r: Record, log: Complaints, c: Commands)
    ensures var x := CheckCommands(Some(r), log);
            && (x.log == {} ==> log == {} && CommandsMean(r, x.value.value))
            && (log == {} && CommandsMean(r, c) ==> x.log == {} && x.value == Some(c))
  {
    hide ReadString, ReadStringArray, ReadBoolean, CustomCommands, BadCustoms, CheckIds, CheckApproval,
      NeededText, TextKey, TextsKey, FlagKey, IdsMean, CustomsMean, ApprovedHaveText;
    var test := ReadString(r, "test", "commands.test", true, log);
    var typecheck := ReadString(r, "typecheck", "commands.typecheck", true, test.log);
    var lint := ReadString(r, "lint", "commands.lint", false, typecheck.log);
    var bootstrap := ReadString(r, "bootstrap", "commands.bootstrap", false, lint.log);
    var required := ReadStringArray(r, "validation_required", "commands.validation_required", bootstrap.log);
    var approve := ReadStringArray(r, "meta_review_approve_required", "commands.meta_review_approve_required", required.log);
    var explicit := ReadBoolean(r, "validation_required_explicit", "commands.validation_required_explicit", false, approve.log);
    NeededRead(r, "test", "commands.test", log, c.test);
    NeededRead(r, "typecheck", "commands.typecheck", test.log, c.typecheck);
    TextRead(r, "lint", "commands.lint", typecheck.log, c.lint);
    TextRead(r, "bootstrap", "commands.bootstrap", lint.log, c.bootstrap);
    TextsKeyRead(r, "validation_required", "commands.validation_required", bootstrap.log, c.validationRequired);
    TextsKeyRead(r, "meta_review_approve_required", "commands.meta_review_approve_required", required.log, c.approveRequired);
    FlagRead(r, "validation_required_explicit", "commands.validation_required_explicit", false, approve.log, c.requiredExplicit);
    CustomsRead(r, c.custom);
    var bad := explicit.log + BadCustoms(r);
    IdsRead(required.value, "commands.validation_required", bad);
    if BadCustoms(r) == {} {
      ApprovalRead(r, approve.value, "commands.meta_review_approve_required",
                   CheckIds(required.value, "commands.validation_required", bad));
    }
  }

  // ---- Validation target, notifications, overlay

  lemma PathRead(input: string, p: string)
    ensures PathMeans(input, p) <==> NormalizeRelativePath(input) == Some(p)
  {
    JoinOfSplit(Trim(Js, input), '/');
  }

  lemma CwdRead(r: Record, path: string, log: Complaints, cwd: Option<string>)
    ensures var x := ReadString(r, "cwd", path, false, log);
            var n := if x.value.Some? then NormalizeCwd(x.value.value) else None;
            && (x.log == {} ==> log == {})
            && (x.log == {} && (x.value.Some? ==> n.Some?) ==> CwdKey(r, n))
            && (log == {} && CwdKey(r, cwd) ==> x.log == {} && (x.value.Some? ==> n.Some?) && n == cwd)
  {
    hide ReadString, NormalizeRelativePath, PathMeans, Visible, HasGlob;
    TextRead(r, "cwd", path, log, if "cwd" in r && r["cwd"].Str? then Some(r["cwd"].text) else None);
    if "cwd" in r && r["cwd"].Str? {
      var text := r["cwd"].text;
      if NormalizeRelativePath(text).Some? {
        PathRead(text, NormalizeRelativePath(text).value);
      }
      if cwd.Some? {
        PathRead(text, cwd.value);
      }
    }
  }

  lemma {:induction false} NormalizedAreAll(paths: seq<string>)
    requires forall i :: 0 <= i < |paths| ==> NormalizeRelativePath(paths[i]).Some?
    ensures |NormalizedPaths(paths)| == |paths|
    ensures forall i :: 0 <= i < |paths| ==> NormalizeRelativePath(paths[i]) == Some(NormalizedPaths(paths)[i])
  {
    hide NormalizeRelativePath;
    if paths != [] {
      NormalizedAreAll(paths[1..]);
    }
  }

  lemma BadPathsMean(paths: seq<string>)
    ensures BadPaths(paths) == {} <==> forall i :: 0 <= i < |paths| ==> NormalizeRelativePath(paths[i]).Some?
  {
    hide NormalizeRelativePath;
    forall i | 0 <= i < |paths| && NormalizeRelativePath(paths[i]) == None
      ensures Complaint(Indexed("validation_target.paths", i), UnsafePath) in BadPaths(paths)
    {
    }
  }

  /** A path read again after trimming is the same path. */
  lemma TrimmedPath(input: string)
    ensures NormalizeRelativePath(Trim(Js, input)) == NormalizeRelativePath(input)
  {
    TrimAgain(input);
  }

  lemma ItemPaths(items: seq<Value>, texts: seq<string>, ps: seq<string>)
    requires TextsAre(items, texts)
    ensures PathsAre(items, ps) <==>
            |ps| == |texts| && forall i :: 0 <= i < |texts| ==> NormalizeRelativePath(texts[i]) == Some(ps[i])
  {
    hide NormalizeRelativePath, Visible, PathMeans;
    if |ps| == |items| {
      forall i | 0 <= i < |items| ensures PathMeans(items[i].text, ps[i]) <==> NormalizeRelativePath(texts[i]) == Some(ps[i]) {
        PathRead(items[i].text, ps[i]);
        TrimmedPath(items[i].text);
      }
    }
  }

  ghost predicate PathsFit(paths: Option<seq<string>>) { paths.Some? ==> BadPaths(paths.value) == {} }

  function PathsOf(paths: Option<seq<string>>): Option<seq<string>> {
    if paths.Some? then Some(NormalizedPaths(paths.value)) else None
  }

  lemma PathsRead(r: Record, log: Complaints, ps: Option<seq<string>>)
    ensures var x := ReadStringArray(r, "paths", "validation_target.paths", log);
            && (x.log == {} ==> log == {})
            && (x.log == {} && PathsFit(x.value) ==> PathsKey(r, PathsOf(x.value)))
            && (log == {} && PathsKey(r, ps) ==> x.log == {} && PathsFit(x.value) && PathsOf(x.value) == ps)
  {
    hide ReadStringArray, NormalizeRelativePath, BadPaths, NormalizedPaths, TextsAre, PathsAre;
    var x := ReadStringArray(r, "paths", "validation_target.paths", log);
    var texts := if "paths" in r && r["paths"].List? then Some(TrimmedTexts(r["paths"].items)) else None;
    TextsKeyRead(r, "paths", "validation_target.paths", log, texts);
    if "paths" in r && r["paths"].List? {
      var items := r["paths"].items;
      if ps.Some? && PathsAre(items, ps.value) {
        PathItemsAreTexts(items, ps.value);
        PathsComplete(items, texts.value, ps.value);
      }
      if x.log == {} {
        PathsSound(items, x.value.value);
      }
    }
  }

  lemma PathItemsAreTexts(items: seq<Value>, ps: seq<string>)
    requires PathsAre(items, ps)
    ensures TextsAre(items, TrimmedTexts(items))
  {
    hide PathMeans, IsText, TrimmedTexts, BadItems;
    TextsRead(items, "");
  }

  lemma PathsComplete(items: seq<Value>, texts: seq<string>, ps: seq<string>)
    requires TextsAre(items, texts) && PathsAre(items, ps)
    ensures BadPaths(texts) == {} && NormalizedPaths(texts) == ps
  {
    hide NormalizeRelativePath, BadPaths, NormalizedPaths, TextsAre, PathsAre;
    ItemPaths(items, texts, ps);
    BadPathsMean(texts);
    NormalizedAreAll(texts);
  }

  lemma PathsSound(items: seq<Value>, texts: seq<string>)
    requires TextsAre(items, texts)
    ensures BadPaths(texts) == {} ==> PathsAre(items, NormalizedPaths(texts))
  {
    hide NormalizeRelativePath, BadPaths, NormalizedPaths, TextsAre, PathsAre;
    BadPathsMean(texts);
    if BadPaths(texts) == {} {
      NormalizedAreAll(texts);
      ItemPaths(items, texts, NormalizedPaths(texts));
    }
  }

  lemma TargetRead(s: Option<Record>, log: Complaints, t: Option<ValidationTarget>)
    ensures var x := CheckTarget(s, log);
            && (x.log == {} ==> log == {} && TargetMeans(s, x.value))
            && (log == {} && TargetMeans(s, t) ==> x.log == {} && x.value == t)
  {
    hide ReadString, ReadStringArray, NormalizeCwd, NormalizedPaths, BadPaths, NeededText, CwdKey, PathsKey, IsTargetId;
    if s.Some? {
      var r := s.value;
      var id := ReadString(r, "id", "validation_target.id", true, log);
      var cwd := ReadString(r, "cwd", "validation_target.cwd", false, id.log);
      NeededRead(r, "id", "validation_target.id", log, if t.Some? then t.value.id else "");
      CwdRead(r, "validation_target.cwd", id.log, if t.Some? then t.value.cwd else None);
      PathsRead(r, cwd.log, if t.Some? then t.value.paths else None);
    }
  }

  lemma NotificationsRead(s: Option<Record>, log: Complaints, n: Notifications)
    ensures var x := CheckNotifications(s, log);
            && (x.log == {} ==> log == {} && NotificationsMean(s, x.value))
            && (log == {} && NotificationsMean(s, n) ==> x.log == {} && x.value == n)
  {
    hide ReadString, ReadBoolean, FlagKey, TextKey;
    if s.Some? {
      var r := s.value;
      var enabled := ReadBoolean(r, "enabled", "notifications.enabled", false, log);
      var waiting := ReadString(r, "waiting_human_sound", "notifications.waiting_human_sound", false, enabled.log);
      FlagRead(r, "enabled", "notifications.enabled", true, log, n.enabled);
      TextRead(r, "waiting_human_sound", "notifications.waiting_human_sound", enabled.log, n.waitingHumanSound);
      TextRead(r, "converged_sound", "notifications.converged_sound", waiting.log, n.convergedSound);
    }
  }

  lemma OverlayRead(s: Option<Record>, log: Complaints, o: LocalOverlay)
    ensures var x := CheckOverlay(s, log);
            && (x.log == {} ==> log == {} && OverlayMeans(s, x.value))
            && (log == {} && OverlayMeans(s, o) ==> x.log == {} && x.value == o)
  {
    hide ReadStringArray, ReadBoolean, ReadChoice, FlagKey, ChoiceKey, TextsAre, IsSafeOverlayEntry;
    if s.Some? {
      var r := s.value;
      var enabled := ReadBoolean(r, "enabled", "local_overlay.enabled", false, log);
      var mode := ReadChoice(r, "mode", "local_overlay.mode", OVERLAY_MODES, "symlink", enabled.log);
      FlagRead(r, "enabled", "local_overlay.enabled", true, log, o.enabled);
      ChoiceRead(r, "mode", "local_overlay.mode", OVERLAY_MODES, "symlink", enabled.log, o.mode);
      TextsKeyRead(r, "entries", "local_overlay.entries", mode.log, if "entries" in r then Some(o.entries) else None);
    }
  }

  // ---- Warnings that are kept instead of refusing

  lemma ExistingIs(s: Option<Record>, path: string, log: Complaints)
    ensures ExistingWarning(s, path, log) == ReadString(OrNone(s), "parse_warning", path, false, log)
  {
  }

  lemma FieldIs(s: Option<Record>, key: string)
    ensures Field(s, key) == Get(OrNone(s), key)
  {
  }

  lemma JoinedWarnings(existing: Option<string>, warnings: seq<string>)
    ensures var all := (if existing.Some? then [existing.value] else []) + warnings;
            JoinWarnings(existing, warnings) == if all == [] then None else Some(Join(all, " "))
  {
    if existing == None {
      assert [] + warnings == warnings;
    } else if warnings == [] {
      assert [existing.value] + warnings == [existing.value];
    } else {
      var all := [existing.value] + warnings;
      assert all[1..] == warnings;
    }
  }

  lemma WarningRead(r: Record, path: string, log: Complaints, added: seq<string>, w: Option<string>)
    ensures var x := ReadString(r, "parse_warning", path, false, log);
            && (x.log == {} ==> log == {} && WarningIs(r, added, JoinWarnings(x.value, added)))
            && (log == {} && WarningIs(r, added, w) ==> x.log == {} && JoinWarnings(x.value, added) == w)
  {
    hide ReadString, JoinWarnings, Visible, Join;
    var key := "parse_warning";
    var x := ReadString(r, key, path, false, log);
    TextRead(r, key, path, log, if key in r && r[key].Str? then Some(r[key].text) else None);
    JoinedWarnings(x.value, added);
  }

  lemma WholeIsNatural(v: Value)
    ensures IsWhole(v) && v.number.Floor >= 0 <==> Natural(v)
    ensures IsWhole(v) && v.number.Floor >= 0 ==> Is(v, v.number.Floor)
    ensures forall n: nat :: Is(v, n) ==> v.Num? && v.number.Floor == n
  {
    if IsWhole(v) && v.number.Floor >= 0 {
      assert Is(v, v.number.Floor);
    }
  }

  lemma GatesRead(s: Option<Record>, log: Complaints, g: DocContractGates)
    ensures var x := CheckGates(s, log);
            && (x.log == {} ==> log == {} && GatesMean(s, x.value))
            && (log == {} && GatesMean(s, g) ==> x.log == {} && x.value == g)
  {
    hide ReadString, JoinWarnings, ExistingWarning, Field, WarningIs, IsWhole, Describe, Natural, Is;
    var r, path := OrNone(s), "doc_contract_gates.parse_warning";
    ExistingIs(s, path, log);
    FieldIs(s, GATE_KEY);
    if GATE_KEY in r {
      WholeIsNatural(r[GATE_KEY]);
      WarningRead(r, path, log, [GateWarning(r[GATE_KEY])], g.parseWarning);
    }
    WarningRead(r, path, log, [], g.parseWarning);
  }

  // ---- Ideation

  lemma FlagOf(s: Option<Record>, key: string)
    requires key in {"mode", "task_pending"}
    ensures IdeationFlag(s, key).0 <==> Set(OrNone(s), key)
    ensures IdeationFlag(s, key).1 == FlagWarning(OrNone(s), key)
  {
    hide Describe;
    FieldIs(s, key);
    var r := OrNone(s);
    if key in r {
      IdeationText(key, " must be boolean. Received ", Describe(r[key]));
    }
  }

  lemma IdeationText(key: string, what: string, shown: string)
    ensures IdeationWarning(key + what + shown + ".") == "IDEATION_METADATA_PARSE_WARNING: ideation." + key + what + shown + "."
  {
    assert IDEATION_WARNING == "IDEATION_METADATA_PARSE_WARNING: ideation.";
    hide IDEATION_WARNING;
    var a := IDEATION_WARNING;
    assert a + (key + what + shown + ".") == a + key + what + shown + ".";
  }

  lemma TimeOf(s: Option<Record>, key: string)
    ensures TimeIs(OrNone(s), key, IdeationTime(s, key).0)
    ensures IdeationTime(s, key).1 == TimeWarning(OrNone(s), key)
  {
    hide Describe, IsIsoTimestamp;
    FieldIs(s, key);
    var r := OrNone(s);
    if key in r {
      TimeText(key, Describe(r[key]));
    }
  }

  lemma TimeText(key: string, shown: string)
    ensures IdeationWarning(key + " must be an ISO timestamp. Received " + shown + ".") ==
            "IDEATION_METADATA_PARSE_WARNING: ideation." + key + " must be an ISO timestamp. Received " + shown + "."
  {
    IdeationText(key, " must be an ISO timestamp. Received ", shown);
  }

  lemma PendingText()
    ensures IdeationWarning(PENDING_WITHOUT_MODE) ==
            "IDEATION_METADATA_PARSE_WARNING: ideation." +
            "task_pending=true is invalid when ideation.mode=false; normalized to false."
  {
  }

  /** The result, with its log, in terms of the warning. */
  lemma IdeationShape(s: Option<Record>, log: Complaints)
    ensures var r, x := OrNone(s), CheckIdeation(s, log);
            var existing := ReadString(r, "parse_warning", "ideation.parse_warning", false, log);
            var all := Ideation(Set(r, "mode"), Set(r, "mode") && Set(r, "task_pending"), IdeationTime(s, "started_at").0,
                                IdeationTime(s, "kicked_off_at").0, JoinWarnings(existing.value, Warnings(r)));
            x.log == existing.log && x.value == if NothingKept(all) then None else Some(all)
  {
    hide ReadString, JoinWarnings, ExistingWarning, IdeationFlag, IdeationTime, IdeationWarning, FlagWarning, TimeWarning,
      Set, TimeAt, OrNone, PENDING_WITHOUT_MODE;
    ExistingIs(s, "ideation.parse_warning", log);
    FlagOf(s, "mode");
    FlagOf(s, "task_pending");
    TimeOf(s, "started_at");
    TimeOf(s, "kicked_off_at");
    PendingText();
  }

  lemma TimeIsOne(r: Record, key: string, a: Option<string>, b: Option<string>)
    ensures TimeIs(r, key, a) && TimeIs(r, key, b) ==> a == b
  {
    hide TimeAt;
  }

  lemma IdeationRead(s: Option<Record>, log: Complaints, i: Option<Ideation>)
    ensures var x := CheckIdeation(s, log);
            && (x.log == {} ==> log == {} && IdeationMeans(s, x.value))
            && (log == {} && IdeationMeans(s, i) ==> x.log == {} && x.value == i)
  {
    hide ReadString, JoinWarnings, CheckIdeation, IdeationTime, Warnings, Set, TimeIs, WarningIs, OrNone;
    IdeationShape(s, log);
    TimeOf(s, "started_at");
    TimeOf(s, "kicked_off_at");
    var all := if i.Some? then i.value else Ideation(false, false, None, None, None);
    TimeIsOne(OrNone(s), "started_at", all.startedAt, IdeationTime(s, "started_at").0);
    TimeIsOne(OrNone(s), "kicked_off_at", all.kickedOffAt, IdeationTime(s, "kicked_off_at").0);
    WarningRead(OrNone(s), "ideation.parse_warning", log, Warnings(OrNone(s)), all.parseWarning);
  }

  // ---- Review policy, executor, timeouts

  lemma CleanRunsRead(r: Record, log: Complaints, n: Option<nat>)
    ensures var x := ReadCleanRuns(r, log);
            && (x.log == {} ==> log == {} && CleanRunsKey(r, x.value))
            && (log == {} && CleanRunsKey(r, n) ==> x.log == {} && x.value == n)
  {
  }

  lemma PolicyFieldsRead(s: Option<Record>, log: Complaints, p: Option<ReviewPolicy>)
    ensures var x := CheckReviewPolicy(s, log);
            && (x.log == {} ==> log == {} && PolicyMeans(s, x.value))
            && (log == {} && PolicyMeans(s, p) ==> x.log == {} && x.value == p)
  {
    hide ReadChoice, ReadCleanRuns, UnknownFields, ChoiceKey, CleanRunsKey;
    if s.Some? {
      var r := s.value;
      var q := if p.Some? then p.value else ReviewPolicy("full", "P3", "P3", None);
      var start := log + UnknownFields(r, REVIEW_POLICY_KEYS, "review_policy.");
      var loop := ReadChoice(r, "review_loop_mode", "review_policy.review_loop_mode", LOOP_MODES, "full", start);
      var blocking := ReadChoice(r, "reviewer_blocking_min_severity",
                                 "review_policy.reviewer_blocking_min_severity", SEVERITIES, "P3", loop.log);
      var rework := ReadChoice(r, "meta_review_auto_rework_min_severity",
                               "review_policy.meta_review_auto_rework_min_severity", SEVERITIES, "P3", blocking.log);
      UnknownMeans(r, REVIEW_POLICY_KEYS, "review_policy.");
      ChoiceRead(r, "review_loop_mode", "review_policy.review_loop_mode", LOOP_MODES, "full", start, q.loopMode);
      ChoiceRead(r, "reviewer_blocking_min_severity", "review_policy.reviewer_blocking_min_severity", SEVERITIES, "P3",
                 loop.log, q.blockingSeverity);
      ChoiceRead(r, "meta_review_auto_rework_min_severity", "review_policy.meta_review_auto_rework_min_severity", SEVERITIES,
                 "P3", blocking.log, q.reworkSeverity);
      CleanRunsRead(r, rework.log, q.cleanRuns);
      EmptyPolicy(r);
    }
  }

  lemma EmptyPolicy(r: Record)
    ensures r == map[] ==> ChoiceKey(r, "review_loop_mode", LOOP_MODES, "full", "full") && CleanRunsKey(r, None)
    ensures r == map[] ==> ChoiceKey(r, "reviewer_blocking_min_severity", SEVERITIES, "P3", "P3")
    ensures r == map[] ==> ChoiceKey(r, "meta_review_auto_rework_min_severity", SEVERITIES, "P3", "P3")
    ensures r.Keys <= REVIEW_POLICY_KEYS ==> (r.Keys !! REVIEW_POLICY_KEYS <==> r == map[])
  {
    if r.Keys <= REVIEW_POLICY_KEYS && r.Keys !! REVIEW_POLICY_KEYS {
      assert r.Keys == {};
    }
  }

  lemma ExecutorRead(s: Option<Record>, log: Complaints, e: Option<Executor>)
    ensures var x := CheckExecutor(s, log);
            && (x.log == {} ==> log == {} && ExecutorMeans(s, x.value))
            && (log == {} && ExecutorMeans(s, e) ==> x.log == {} && x.value == e)
  {
    hide ReadString, UnknownFields, NeededText;
    if s.Some? {
      var r := s.value;
      var start := log + UnknownFields(r, EXECUTOR_KEYS, "executor.");
      var kind := ReadString(r, "type", "executor.type", true, start);
      UnknownMeans(r, EXECUTOR_KEYS, "executor.");
      NeededRead(r, "type", "executor.type", start, if e.Some? then e.value.kind else "");
      NeededRead(r, "remote", "executor.remote", kind.log, if e.Some? then e.value.remote else "");
    }
  }

  lemma BadTimeoutsMean(r: Record)
    ensures BadTimeouts(r) == {} <==> forall k :: k in r ==> IsTimeout(r, k)
  {
    hide IsTimeout;
    forall k | k in r && !IsTimeout(r, k)
      ensures Complaint("watchdog_timeout_minutes_by_agent." + k, if k in AGENT_NAMES then NotPositive else NotInVocabulary) in BadTimeouts(r)
    {
    }
  }

  lemma TimeoutMeans(r: Record, k: string, n: nat)
    requires k in r
    ensures IsTimeout(r, k) ==> r[k].Num? && r[k].number.Floor > 0 && r[k] == Num(r[k].number.Floor as real) && k in AGENT_NAMES
    ensures k in AGENT_NAMES && n > 0 && r[k] == Num(n as real) ==> IsTimeout(r, k) && r[k].number.Floor == n
  {
  }

  lemma TimeoutFieldsRead(r: Record, t: map<string, nat>)
    ensures BadTimeouts(r) == {} ==> TimeoutsMean(r, Timeouts(r))
    ensures TimeoutsMean(r, t) ==> BadTimeouts(r) == {} && Timeouts(r) == t
    ensures BadTimeouts(r) == {} ==> (Timeouts(r) == map[] <==> r == map[])
  {
    hide IsTimeout, BadTimeouts;
    BadTimeoutsMean(r);
    forall k | k in r ensures IsTimeout(r, k) ==> r[k].Num? && r[k].number.Floor > 0 && r[k] == Num(r[k].number.Floor as real) && k in AGENT_NAMES {
      TimeoutMeans(r, k, 0);
    }
    if BadTimeouts(r) == {} {
      assert Timeouts(r).Keys == r.Keys;
      assert r.Keys == {} ==> r == map[];
    }
    if TimeoutsMean(r, t) {
      forall k | k in r ensures IsTimeout(r, k) && r[k].number.Floor == t[k] {
        TimeoutMeans(r, k, t[k]);
      }
      assert Timeouts(r) == t;
    }
  }

  lemma TimeoutsRead(r: Record, log: Complaints, t: Option<map<string, nat>>)
    ensures var x := CheckTimeouts(Get(r, TIMEOUTS), log);
            && (x.log == {} ==> log == {} && TimeoutsKey(r, x.value))
            && (log == {} && TimeoutsKey(r, t) ==> x.log == {} && x.value == t)
  {
    hide BadTimeouts, Timeouts, TimeoutsMean;
    if TIMEOUTS in r && r[TIMEOUTS].Rec? {
      var fields := r[TIMEOUTS].fields;
      NoTimeouts(fields);
      TimeoutFieldsRead(fields, if t.Some? then t.value else map[]);
    }
  }

  lemma NoTimeouts(r: Record)
    ensures r == map[] ==> TimeoutsMean(r, map[])
  {
  }

  // ---- The whole configuration

  lemma NamesRead(r: Record, log: Complaints, n: Names)
    ensures var x := CheckNames(r, log);
            && (x.log == {} ==> log == {} && NamesMean(r, x.value))
            && (log == {} && NamesMean(r, n) ==> x.log == {} && x.value == n)
  {
    hide ReadString, NeededText, TextKey, IsInstanceId;
    var id := ReadString(r, "id", "id", true, log);
    var instance := ReadInstanceId(r, id.log);
    var repo := ReadString(r, "repo_path", "repo_path", true, instance.log);
    var base := ReadString(r, "base_branch", "base_branch", true, repo.log);
    NeededRead(r, "id", "id", log, n.id);
    TextRead(r, "bubble_instance_id", "bubble_instance_id", id.log, n.bubbleInstanceId);
    NeededRead(r, "repo_path", "repo_path", instance.log, n.repoPath);
    NeededRead(r, "base_branch", "base_branch", repo.log, n.baseBranch);
    NeededRead(r, "bubble_branch", "bubble_branch", base.log, n.bubbleBranch);
  }

  lemma ModesRead(r: Record, log: Complaints, m: Modes)
    ensures var x := CheckModes(r, log);
            && (x.log == {} ==> log == {} && ModesMean(r, x.value))
            && (log == {} && ModesMean(r, m) ==> x.log == {} && x.value == m)
  {
    hide ReadChoice, ChoiceKey;
    var work := ReadChoice(r, "work_mode", "work_mode", WORK_MODES, "worktree", log);
    var quality := ReadChoice(r, "quality_mode", "quality_mode", QUALITY_MODES, "strict", work.log);
    var artifact := ReadChoice(r, "review_artifact_type", "review_artifact_type", ARTIFACT_TYPES, "code", quality.log);
    var profile := ReadChoice(r, "pairflow_command_profile", "pairflow_command_profile", COMMAND_PROFILES,
                              "external", artifact.log);
    ChoiceRead(r, "work_mode", "work_mode", WORK_MODES, "worktree", log, m.workMode);
    ChoiceRead(r, "quality_mode", "quality_mode", QUALITY_MODES, "strict", work.log, m.qualityMode);
    ChoiceRead(r, "review_artifact_type", "review_artifact_type", ARTIFACT_TYPES, "code", quality.log, m.reviewArtifactType);
    ChoiceRead(r, "pairflow_command_profile", "pairflow_command_profile", COMMAND_PROFILES, "external", artifact.log,
               m.pairflowCommandProfile);
    ChoiceRead(r, "reviewer_context_mode", "reviewer_context_mode", CONTEXT_MODES, "fresh", profile.log, m.reviewerContextMode);
  }

  lemma LimitsRead(r: Record, log: Complaints, l: Limits)
    ensures var x := CheckLimits(r, log);
            && (x.log == {} ==> log == {} && LimitsMean(r, x.value))
            && (log == {} && LimitsMean(r, l) ==> x.log == {} && x.value == l)
  {
    hide ReadWhole, ReadFlag, CheckTimeouts, WholeKey, LooseFlag, TimeoutsKey;
    var watchdog := ReadWhole(r, "watchdog_timeout_minutes", 30, 1, NotPositive, log);
    var timeouts := CheckTimeouts(Get(r, TIMEOUTS), watchdog.log);
    var rounds := ReadWhole(r, "max_rounds", 8, 1, NotPositive, timeouts.log);
    var severity := ReadWhole(r, "severity_gate_round", 4, 4, TooSmall, rounds.log);
    var approval := ReadFlag(r, "commit_requires_approval", true, severity.log);
    WholeRead(r, "watchdog_timeout_minutes", 30, 1, NotPositive, log, l.watchdogMinutes);
    TimeoutsRead(r, watchdog.log, l.watchdogByAgent);
    WholeRead(r, "max_rounds", 8, 1, NotPositive, timeouts.log, l.maxRounds);
    WholeRead(r, "severity_gate_round", 4, 4, TooSmall, rounds.log, l.severityGateRound);
    LooseFlagRead(r, "commit_requires_approval", true, severity.log, l.commitRequiresApproval);
    LooseFlagRead(r, "accuracy_critical", false, approval.log, l.accuracyCritical);
  }

  lemma LauncherRead(r: Record, log: Complaints, t: Option<string>)
    ensures var x := ReadLauncher(r, log);
            && (x.log == {} ==> log == {} && LauncherKey(r, x.value))
            && (log == {} && LauncherKey(r, t) ==> x.log == {} && x.value == t)
  {
  }

  lemma OpenersRead(r: Record, log: Complaints, o: Openers)
    ensures var x := CheckOpeners(r, log);
            && (x.log == {} ==> log == {} && OpenersMean(r, x.value))
            && (log == {} && OpenersMean(r, o) ==> x.log == {} && x.value == o)
  {
    hide ReadString, ReadLauncher, TextKey, LauncherKey;
    var launcher := ReadLauncher(r, log);
    var open := ReadString(r, "open_command", "open_command", false, launcher.log);
    LauncherRead(r, log, o.attachLauncher);
    TextRead(r, "open_command", "open_command", launcher.log, o.openCommand);
    TextRead(r, "open_remote_command", "open_remote_command", open.log, o.openRemoteCommand);
  }

  lemma SectionsRead(r: Record, log: Complaints, s: Sections)
    ensures var x := CheckSections(r, log);
            && (x.log == {} ==> log == {} && SectionsMean(r, x.value))
            && (log == {} && SectionsMean(r, s) ==> x.log == {} && x.value == s)
  {
    hide ReadObject, SectionKey;
    var agents := ReadObject(r, "agents", true, log);
    var roleMcp := ReadObject(r, "role_mcp", false, agents.log);
    var commands := ReadObject(r, "commands", true, roleMcp.log);
    var notifications := ReadObject(r, "notifications", false, commands.log);
    var overlay := ReadObject(r, "local_overlay", false, notifications.log);
    var gates := ReadObject(r, "doc_contract_gates", false, overlay.log);
    var ideation := ReadObject(r, "ideation", false, gates.log);
    var executor := ReadObject(r, "executor", false, ideation.log);
    var policy := ReadObject(r, "review_policy", false, executor.log);
    SectionRead(r, "agents", true, log, s.agents);
    SectionRead(r, "role_mcp", false, agents.log, s.roleMcp);
    SectionRead(r, "commands", true, roleMcp.log, s.commands);
    SectionRead(r, "notifications", false, commands.log, s.notifications);
    SectionRead(r, "local_overlay", false, notifications.log, s.overlay);
    SectionRead(r, "doc_contract_gates", false, overlay.log, s.gates);
    SectionRead(r, "ideation", false, gates.log, s.ideation);
    SectionRead(r, "executor", false, ideation.log, s.executor);
    SectionRead(r, "review_policy", false, executor.log, s.policy);
    SectionRead(r, "validation_target", false, policy.log, s.target);
  }

  lemma ContentsRead(s: Sections, log: Complaints, c: Contents)
    requires s.agents.Some? && s.commands.Some?
    ensures var x := CheckContents(s, log);
            && (x.log == {} ==> log == {} && ContentsMean(s, x.value))
            && (log == {} && ContentsMean(s, c) ==> x.log == {} && x.value == c)
  {
    hide CheckAgents, CheckRoleMcp, CheckCommands, CheckTarget, CheckNotifications, CheckOverlay, CheckGates,
      CheckIdeation, CheckReviewPolicy, CheckExecutor, AgentsMean, RolesMean, CommandsMean, TargetMeans,
      NotificationsMean, OverlayMeans, GatesMean, IdeationMeans, PolicyMeans, ExecutorMeans;
    var agents := CheckAgents(s.agents, log);
    var roleMcp := CheckRoleMcp(s.roleMcp, agents.log);
    var commands := CheckCommands(s.commands, roleMcp.log);
    var target := CheckTarget(s.target, commands.log);
    var notifications := CheckNotifications(s.notifications, target.log);
    var overlay := CheckOverlay(s.overlay, notifications.log);
    var gates := CheckGates(s.gates, overlay.log);
    var ideation := CheckIdeation(s.ideation, gates.log);
    var policy := CheckReviewPolicy(s.policy, ideation.log);
    AgentsRead(s.agents.value, log, c.agents);
    RolesRead(s.roleMcp, agents.log, c.roleMcp);
    CommandsRead(s.commands.value, roleMcp.log, if c.commands.Some? then c.commands.value else commands.value.value);
    TargetRead(s.target, commands.log, c.target);
    NotificationsRead(s.notifications, target.log, c.notifications);
    OverlayRead(s.overlay, notifications.log, c.overlay);
    GatesRead(s.gates, overlay.log, c.gates);
    IdeationRead(s.ideation, gates.log, c.ideation);
    PolicyFieldsRead(s.policy, ideation.log, c.policy);
    ExecutorRead(s.executor, policy.log, c.executor);
  }

  /** What validation reads before it decides. */
  lemma ValidationReads(r: Record, c: Config)
    ensures Validate(Rec(r)) == Accepted(c) ==> Means(r, c)
    ensures Means(r, c) ==> Validate(Rec(r)) == Accepted(c)
  {
    hide CheckNames, CheckModes, CheckLimits, CheckOpeners, CheckSections, CheckContents,
      NamesMean, ModesMean, LimitsMean, OpenersMean, SectionKey, ContentsMean;
    var names := CheckNames(r, {});
    var modes := CheckModes(r, names.log);
    var limits := CheckLimits(r, modes.log);
    var openers := CheckOpeners(r, limits.log);
    var sections := CheckSections(r, openers.log);
    NamesRead(r, {}, Names(c.id, c.bubbleInstanceId, c.repoPath, c.baseBranch, c.bubbleBranch));
    ModesRead(r, names.log, Modes(c.workMode, c.qualityMode, c.reviewArtifactType, c.pairflowCommandProfile, c.reviewerContextMode));
    LimitsRead(r, modes.log, Limits(c.watchdogMinutes, c.watchdogByAgent, c.maxRounds, c.severityGateRound,
                                    c.commitRequiresApproval, c.accuracyCritical));
    OpenersRead(r, limits.log, Openers(c.attachLauncher, c.openCommand, c.openRemoteCommand));
    SectionsRead(r, openers.log, sections.value);
    if sections.log == {} {
      ContentsRead(sections.value, sections.log, ContentsOf(c));
    }
    forall s | SectionsMean(r, s) && ContentsMean(s, ContentsOf(c)) ensures openers.log == {} ==> sections.log == {} && sections.value == s {
      SectionsRead(r, openers.log, s);
    }
  }

  /** A record is accepted as a configuration exactly when the configuration is what the record means. */
  lemma AcceptedMeans(input: Value, c: Config)
    ensures Validate(input) == Accepted(c) <==> input.Rec? && Means(input.fields, c)
  {
    hide Means, Validate;
    if input.Rec? {
      ValidationReads(input.fields, c);
    } else {
      OnlyRecords(input);
    }
  }

  lemma OnlyRecords(input: Value)
    requires !input.Rec?
    ensures Validate(input).Refused?
  {
  }

  /** Without a key of its own the meta-reviewer is the reviewer; with one it is the agent named there. */
  lemma MetaReviewerIs(r: Record, c: Config)
    requires Validate(Rec(r)) == Accepted(c)
    ensures "agents" in r && r["agents"].Rec?
    ensures var a := r["agents"].fields;
            && "reviewer" in a && a["reviewer"] == Str(c.agents.reviewer)
            && ("meta_reviewer" !in a ==> c.agents.metaReviewer == c.agents.reviewer)
            && ("meta_reviewer" in a ==> a["meta_reviewer"] == Str(c.agents.metaReviewer))
  {
    hide Validate;
    AcceptedMeans(Rec(r), c);
    hide CommandsMean, RolesMean, NotificationsMean, OverlayMeans, GatesMean, IdeationMeans, ExecutorMeans, PolicyMeans,
      TargetMeans, NamesMean, ModesMean, LimitsMean, OpenersMean, ModelKey, Visible;
  }

  /** A whole number received is named by digits that read as that number. */
  lemma ReceivedNumber(n: int)
    ensures ParseValue(Describe(Num(n as real))) == Some(Num(n as real))
  {
    var size: nat := if n < 0 then -n else n;
    TomlLiterals.IntegerReads(n < 0, 0, size);
    hide ParseValue, TomlPrinter.Decimal;
    assert TomlLiterals.Sign(n < 0) + TomlLiterals.Zeros(0) + TomlPrinter.Decimal(size) == IntText(n);
  }
}
