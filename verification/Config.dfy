/** The configuration half of the store: settings, rules, scopes, version snapshots and model tests. */
module Config {
  import opened Common
  import opened Policy
  import opened Reviews

  datatype Protocol = OpenAI | Anthropic | Unspecified | OtherProtocol(text: string)

  datatype Settings = Settings(
    mode: Mode, protocol: Protocol, baseUrl: string, modelName: string, apiKey: string, tested: bool,
    prompt: string, version: int, approvalSeconds: int, modelSeconds: int)

  /** Exactly what a model test exercises. */
  datatype ModelConfig = ModelConfig(protocol: Protocol, baseUrl: string, modelName: string, apiKey: string)

  /** What a version number names; the settings without key and tested flag. */
  datatype Named = Named(rules: map<string, Rule>, scopes: map<string, Scope>, settings: Settings)

  /** `settings` is the engine's memory; `stored`, `versions` and `keyFile` survive a restart.
      `tests` are TestModel calls waiting for their reply. `passed` and `named` are history:
      the model configurations that passed a test, and what each version number stood for. */
  datatype State = State(
    rules: map<string, Rule>, scopes: map<string, Scope>,
    settings: Settings, stored: Settings, keyFile: string,
    versions: map<int, Settings>, tests: map<nat, Settings>,
    passed: set<ModelConfig>, named: map<int, Named>)

  datatype ConfigError = OutOfRange | BadPrompt | BadProtocol | BadUrl | NotTested | KeyNotWritten | NotCommitted
    | BadRule | BuiltinRule | BadScope | TestFailed | SettingsChanged

  function ModelOf(s: Settings): ModelConfig {
    ModelConfig(s.protocol, s.baseUrl, s.modelName, s.apiKey)
  }

  /** The key is never part of a stored settings record. */
  function Stored(s: Settings): Settings {
    s.(apiKey := "")
  }

  /** The settings up to the key and the tested flag. */
  function Bare(s: Settings): Settings {
    s.(apiKey := "", tested := false)
  }

  function AddVersion(versions: map<int, Settings>, s: Settings): map<int, Settings> {
    if s.version in versions then versions else versions[s.version := Stored(s)]
  }

  /** A committed settings record with its version snapshot; memory follows the commit. */
  function CommitSettings(c: State, s: Settings): State {
    c.(settings := s, stored := Stored(s), versions := AddVersion(c.versions, s),
       named := c.named[s.version := Named(c.rules, c.scopes, Bare(s))])
  }

  /** Rule and scope edits commit the new table and the next version together. */
  function CommitTables(c: State, rules: map<string, Rule>, scopes: map<string, Scope>): State {
    CommitSettings(c.(rules := rules, scopes := scopes), c.settings.(version := c.settings.version + 1))
  }

  // ---------------------------------------------------------------- rules and scopes

  predicate IsIdChar(c: char) {
    'A' <= c <= 'Z' || 'a' <= c <= 'z' || '0' <= c <= '9' || c == '_' || c == '-'
  }

  predicate IsCustomId(id: string) {
    && 3 <= |id| <= 66 && id[..2] == "U_"
    && forall i :: 2 <= i < |id| ==> IsIdChar(id[i])
  }

  /** SaveRule's validation; `patternOk` says whether the pattern text suits its matcher,
      `textOk` whether name and message are within their length limits. */
  function SaveRuleError(r: Rule, builtinIds: set<string>, patternOk: bool, textOk: bool): Option<ConfigError> {
    var known := r.id in builtinIds;
    if !known && !IsCustomId(r.id) then Some(BadRule)
    else if !known && r.builtin then Some(BadRule)
    else if r.decision.OtherVerdict? then Some(BadRule)
    else if !textOk then Some(BadRule)
    else if r.matcher.OtherMatcher? || (r.matcher.Semantic? && !known) || !patternOk then Some(BadRule)
    else None
  }

  function AfterSaveRule(c: State, r: Rule, builtinIds: set<string>): State {
    CommitTables(c, c.rules[r.id := r.(builtin := r.id in builtinIds)], c.scopes)
  }

  /** Only ids with the custom prefix may be deleted; deleting an absent rule still takes a version. */
  function DeleteRuleError(id: string): Option<ConfigError> {
    if "U_" <= id then None else Some(BuiltinRule)
  }

  function AfterDeleteRule(c: State, id: string): State {
    CommitTables(c, c.rules - {id}, c.scopes)
  }

  function AfterSaveScope(c: State, s: Scope): State {
    CommitTables(c, c.rules, c.scopes[s.id := s])
  }

  function AfterDeleteScope(c: State, id: string): State {
    CommitTables(c, c.rules, c.scopes - {id})
  }

  // ---------------------------------------------------------------- settings

  /** The settings SaveSettings is about to store: key and tested flag come from the engine. */
  function Merged(c: State, s: Settings, key: Option<string>): Settings {
    var protocol := if s.protocol == Unspecified then OpenAI else s.protocol;
    var apiKey := if key.Some? then key.value else c.settings.apiKey;
    var changed :=
      || protocol != c.settings.protocol || s.baseUrl != c.settings.baseUrl
      || s.modelName != c.settings.modelName || apiKey != c.settings.apiKey;
    s.(protocol := protocol, apiKey := apiKey, tested := c.settings.tested && !changed,
       version := c.settings.version + 1)
  }

  function SaveSettingsError(c: State, s: Settings, key: Option<string>, urlOk: bool): Option<ConfigError> {
    if s.approvalSeconds < 10 || s.approvalSeconds > 86400 || s.modelSeconds < 1 || s.modelSeconds > 120
    then Some(OutOfRange)
    else if |s.prompt| < 20 || |s.prompt| > 32000 then Some(BadPrompt)
    else if s.protocol.OtherProtocol? then Some(BadProtocol)
    else if s.baseUrl != "" && !urlOk then Some(BadUrl)
    else if s.mode == ModelMode && !Merged(c, s, key).tested then Some(NotTested)
    else None
  }

  /** How the writes of one SaveSettings went. */
  datatype Writes = Written | KeyFailed | CommitRolledBack | RollbackFailed

  function AfterSaveSettings(c: State, s: Settings, key: Option<string>, w: Writes): State {
    match w
    case KeyFailed => c
    case CommitRolledBack => if key.Some? then c.(keyFile := c.settings.apiKey) else c
    case RollbackFailed => if key.Some? then c.(keyFile := key.value) else c
    case Written =>
      CommitSettings(c.(keyFile := if key.Some? then key.value else c.keyFile), Merged(c, s, key))
  }

  // ---------------------------------------------------------------- model tests

  /** TestModel copies the settings and releases the lock. */
  function AfterBeginTest(c: State, id: nat): State {
    c.(tests := c.tests[id := c.settings])
  }

  function FinishTestError(c: State, id: nat, success: bool, committed: bool): Option<ConfigError>
    requires id in c.tests
  {
    if !success then Some(TestFailed)
    else if c.settings.version != c.tests[id].version then Some(SettingsChanged)
    else if !committed then Some(NotCommitted)
    else None
  }

  /** The reply arrives: the test is remembered, and the captured settings are stored as
      tested if the version has not moved and the write commits. */
  function AfterFinishTest(c: State, id: nat, success: bool, committed: bool): State
    requires id in c.tests
  {
    var s := c.tests[id];
    var d := c.(tests := c.tests - {id},
                passed := if success then c.passed + {ModelOf(s)} else c.passed);
    if FinishTestError(c, id, success, committed) == None then CommitSettings(d, s.(tested := true)) else d
  }

  // ---------------------------------------------------------------- restart

  function WithProtocol(s: Settings): Settings {
    s.(protocol := if s.protocol == Unspecified then OpenAI else s.protocol)
  }

  /** Memory is rebuilt from the stored record and the key file; waiting tests are gone. */
  function AfterReload(c: State): State {
    c.(settings := WithProtocol(c.stored).(apiKey := c.keyFile),
       stored := WithProtocol(c.stored), tests := map[])
  }

  /** The prompt migration first preserves the current version, then stores the next one. */
  function AfterUpgradePrompt(c: State, prompt: string, committed: bool): State {
    if prompt == c.settings.prompt then c
    else
      var kept := c.(versions := AddVersion(c.versions, c.settings));
      if committed then CommitSettings(kept, c.settings.(prompt := prompt, version := c.settings.version + 1))
      else kept
  }

  /** One builtin of the running program with the broad category it belongs to, if any. */
  datatype Preset = Preset(rule: Rule, parent: string)

  /** A category the operator switched off, inverted, rewrote or narrowed stays that way. */
  predicate ParentCustomised(rules: map<string, Rule>, parent: string) {
    && parent != "" && parent in rules
    && var p := rules[parent];
       !p.enabled || p.decision != Reject || p.matcher != Semantic || p.tool != ""
  }

  function PresetFor(rules: map<string, Rule>, p: Preset): Rule {
    if ParentCustomised(rules, p.parent) then p.rule.(enabled := false) else p.rule
  }

  /** The catalog entries the rule table lacks, in catalog order. */
  function Added(rules: map<string, Rule>, catalog: seq<Preset>): seq<Rule> {
    if catalog == [] then []
    else (if catalog[0].rule.id in rules then [] else [PresetFor(rules, catalog[0])]) + Added(rules, catalog[1..])
  }

  function PutAll(rules: map<string, Rule>, added: seq<Rule>): map<string, Rule>
    decreases |added|
  {
    if added == [] then rules else PutAll(rules[added[0].id := added[0]], added[1..])
  }

  /** Missing builtins are added under one new version; the version snapshot is written unconditionally. */
  function AfterUpgradeRules(c: State, catalog: seq<Preset>): State {
    var added := Added(c.rules, catalog);
    if added == [] then c
    else
      var n := c.settings.(version := c.settings.version + 1);
      var rules := PutAll(c.rules, added);
      c.(rules := rules, settings := n, stored := Stored(n), versions := c.versions[n.version := Stored(n)],
         named := c.named[n.version := Named(rules, c.scopes, Bare(n))])
  }

  predicate ValidCatalog(catalog: seq<Preset>) {
    && catalog != []
    && (forall i :: 0 <= i < |catalog| ==> ValidRule(catalog[i].rule) && !("U_" <= catalog[i].rule.id))
    && (forall i, j :: 0 <= i < j < |catalog| ==> catalog[i].rule.id != catalog[j].rule.id)
  }

  predicate ValidRule(r: Rule) {
    r.id != "" && r.id != HUMAN_RULE && !r.decision.OtherVerdict?
  }

  /** The first start on an empty directory: default settings at version 1 and the builtin rules. */
  function Fresh(catalog: seq<Preset>, prompt: string): State {
    var s := Settings(HumanMode, OpenAI, "", "", "", false, prompt, 1, 600, 20);
    var rules := PutAll(map[], Added(map[], catalog));
    State(rules, map[], s, Stored(s), "", map[], map[], {}, map[1 := Named(rules, map[], Bare(s))])
  }

  // ================================================================ invariants

  ghost predicate RulesValid(rules: map<string, Rule>) {
    forall k :: k in rules ==> rules[k].id == k && ValidRule(rules[k])
  }

  /** Builtins cannot be deleted, so the rule table never becomes empty again. */
  ghost predicate HasBuiltin(rules: map<string, Rule>) {
    exists k :: k in rules && !("U_" <= k)
  }

  /** Memory and the stored record agree, and model mode is only ever on with the tested flag. */
  ghost predicate Agrees(c: State) {
    && c.stored == Stored(c.settings) && c.settings.protocol != Unspecified
    && (c.settings.mode == ModelMode ==> c.settings.tested)
  }

  /** Versions run from 1 to the current one and each names one configuration. */
  ghost predicate VersionsNamed(c: State) {
    && c.settings.version >= 1
    && (forall v :: v in c.named <==> 1 <= v <= c.settings.version)
    && c.named[c.settings.version] == Named(c.rules, c.scopes, Bare(c.settings))
    && (forall v :: v in c.versions ==>
          v in c.named && c.versions[v].version == v && Bare(c.versions[v]) == c.named[v].settings)
  }

  /** A test in flight for the current version copied the current settings, up to the tested flag. */
  ghost predicate TestsCurrent(c: State) {
    forall t :: t in c.tests ==>
      && c.tests[t].version <= c.settings.version
      && (c.tests[t].version == c.settings.version ==>
            c.tests[t].(tested := c.settings.tested) == c.settings)
  }

  /** The tested flag is only ever set for a model configuration that passed a test. */
  ghost predicate TestBacked(c: State) {
    c.settings.tested ==> ModelOf(c.settings) in c.passed
  }

  predicate KeyAgrees(c: State) {
    c.keyFile == c.settings.apiKey
  }

  /** What a restart would run with passed a test, if it is going to be marked tested. */
  ghost predicate KeyFileBacked(c: State) {
    c.settings.tested ==> ModelOf(c.settings).(apiKey := c.keyFile) in c.passed
  }

  ghost predicate Inv(c: State) {
    RulesValid(c.rules) && HasBuiltin(c.rules) && Agrees(c) && VersionsNamed(c) && TestsCurrent(c)
  }

  /** Versions only grow and neither a stored snapshot nor what a number named is ever rewritten. */
  ghost predicate Evolves(c: State, d: State) {
    && c.settings.version <= d.settings.version
    && (forall v :: v in c.versions ==> v in d.versions && d.versions[v] == c.versions[v])
    && (forall v :: v in c.named ==> v in d.named && d.named[v] == c.named[v])
    && c.passed <= d.passed
  }

  /** The flag stays backed, and key file and key in memory stay as equal as they were. */
  ghost predicate KeepsBacking(c: State, d: State) {
    && (TestBacked(c) ==> TestBacked(d))
    && (KeyAgrees(c) ==> KeyAgrees(d))
  }

  lemma EvolvesReflexive(c: State)
    ensures Evolves(c, c)
  {
  }

  lemma EvolvesTransitive(a: State, b: State, c: State)
    requires Evolves(a, b) && Evolves(b, c)
    ensures Evolves(a, c)
  {
  }

  lemma CommitSettingsKeeps(c: State, s: Settings, rules: map<string, Rule>, scopes: map<string, Scope>, key: string)
    requires VersionsNamed(c) && TestsCurrent(c)
    requires s.version == c.settings.version + 1
    ensures var d := CommitSettings(c.(rules := rules, scopes := scopes, keyFile := key), s);
            VersionsNamed(d) && TestsCurrent(d) && Evolves(c, d)
  {
  }

  lemma TablesKeep(c: State, rules: map<string, Rule>, scopes: map<string, Scope>)
    requires Inv(c) && RulesValid(rules) && HasBuiltin(rules)
    ensures Inv(CommitTables(c, rules, scopes)) && Evolves(c, CommitTables(c, rules, scopes))
    ensures KeepsBacking(c, CommitTables(c, rules, scopes))
  {
    CommitSettingsKeeps(c, c.settings.(version := c.settings.version + 1), rules, scopes, c.keyFile);
    assert CommitTables(c, rules, scopes) ==
      CommitSettings(c.(rules := rules, scopes := scopes, keyFile := c.keyFile),
                     c.settings.(version := c.settings.version + 1));
    hide VersionsNamed, TestsCurrent, Evolves, RulesValid, HasBuiltin;
  }

  lemma ScopesKeep(c: State, scopes: map<string, Scope>)
    requires Inv(c)
    ensures Inv(CommitTables(c, c.rules, scopes)) && Evolves(c, CommitTables(c, c.rules, scopes))
    ensures KeepsBacking(c, CommitTables(c, c.rules, scopes))
  {
    TablesKeep(c, c.rules, scopes);
  }

  lemma SavedRuleIsValid(r: Rule, builtinIds: set<string>, patternOk: bool, textOk: bool)
    requires SaveRuleError(r, builtinIds, patternOk, textOk) == None
    requires forall id :: id in builtinIds ==> id != "" && id != HUMAN_RULE
    ensures ValidRule(r.(builtin := r.id in builtinIds))
  {
    if r.id !in builtinIds {
      assert r.id[0] == r.id[..2][0] == 'U';
      assert HUMAN_RULE[0] == 'H';
    }
  }

  lemma SaveRuleKeeps(c: State, r: Rule, builtinIds: set<string>, patternOk: bool, textOk: bool)
    requires Inv(c) && SaveRuleError(r, builtinIds, patternOk, textOk) == None
    requires forall id :: id in builtinIds ==> id != "" && id != HUMAN_RULE
    ensures Inv(AfterSaveRule(c, r, builtinIds)) && Evolves(c, AfterSaveRule(c, r, builtinIds))
    ensures KeepsBacking(c, AfterSaveRule(c, r, builtinIds))
  {
    var rules := c.rules[r.id := r.(builtin := r.id in builtinIds)];
    SavedRuleIsValid(r, builtinIds, patternOk, textOk);
    var k :| k in c.rules && !("U_" <= k);
    assert k in rules;
    TablesKeep(c, rules, c.scopes);
  }

  lemma DeleteRuleKeeps(c: State, id: string)
    requires Inv(c) && DeleteRuleError(id) == None
    ensures Inv(AfterDeleteRule(c, id)) && Evolves(c, AfterDeleteRule(c, id))
    ensures KeepsBacking(c, AfterDeleteRule(c, id))
  {
    var k :| k in c.rules && !("U_" <= k);
    assert k in c.rules - {id};
    TablesKeep(c, c.rules - {id}, c.scopes);
  }

  /** A failed commit whose key rollback failed too leaves a key on disk that is not the one in use. */
  predicate LeavesForeignKey(c: State, key: Option<string>, w: Writes) {
    w == RollbackFailed && key.Some? && key.value != c.settings.apiKey
  }

  /** Whether the key file agrees with memory after a save that validation let through. */
  predicate KeyAgreesAfter(c: State, key: Option<string>, w: Writes) {
    match w
    case KeyFailed => KeyAgrees(c)
    case RollbackFailed => if key.Some? then !LeavesForeignKey(c, key, w) else KeyAgrees(c)
    case _ => key.Some? || KeyAgrees(c)
  }

  /** However its writes end, a save keeps the tested flag backed in memory; which of them leave the
      key in memory on disk. */
  lemma SaveSettingsKeeps(c: State, s: Settings, key: Option<string>, urlOk: bool, w: Writes)
    requires Inv(c) && SaveSettingsError(c, s, key, urlOk) == None
    ensures Inv(AfterSaveSettings(c, s, key, w)) && Evolves(c, AfterSaveSettings(c, s, key, w))
    ensures TestBacked(c) ==> TestBacked(AfterSaveSettings(c, s, key, w))
    ensures KeyAgrees(AfterSaveSettings(c, s, key, w)) <==> KeyAgreesAfter(c, key, w)
  {
    var d := AfterSaveSettings(c, s, key, w);
    if w == Written {
      var k := if key.Some? then key.value else c.keyFile;
      CommitSettingsKeeps(c, Merged(c, s, key), c.rules, c.scopes, k);
      assert d == CommitSettings(c.(rules := c.rules, scopes := c.scopes, keyFile := k), Merged(c, s, key));
      assert RulesValid(d.rules) && Agrees(d) && (TestBacked(c) ==> TestBacked(d));
      hide VersionsNamed, TestsCurrent, Evolves, RulesValid, HasBuiltin, TestBacked;
    }
  }

  /** After a save whose commit and key rollback both failed, a restart runs with the refused key,
      still marked tested; that is backed exactly when this very configuration passed a test before. */
  lemma FailedRollbackLosesBacking(c: State, s: Settings, key: string, urlOk: bool)
    requires Inv(c) && c.settings.tested && SaveSettingsError(c, s, Some(key), urlOk) == None
    ensures var d := AfterReload(AfterSaveSettings(c, s, Some(key), RollbackFailed));
            d.settings.tested && (TestBacked(d) <==> ModelOf(c.settings).(apiKey := key) in c.passed)
  {
  }

  lemma BeginTestKeeps(c: State, id: nat)
    requires Inv(c)
    ensures Inv(AfterBeginTest(c, id)) && Evolves(c, AfterBeginTest(c, id))
    ensures KeepsBacking(c, AfterBeginTest(c, id))
  {
    hide RulesValid;
  }

  lemma FinishTestKeeps(c: State, id: nat, success: bool, committed: bool)
    requires Inv(c) && id in c.tests
    ensures Inv(AfterFinishTest(c, id, success, committed)) && Evolves(c, AfterFinishTest(c, id, success, committed))
    ensures KeepsBacking(c, AfterFinishTest(c, id, success, committed))
  {
    hide RulesValid;
    var s, d := c.tests[id], AfterFinishTest(c, id, success, committed);
    if FinishTestError(c, id, success, committed) == None {
      assert d.settings == s.(tested := true) == c.settings.(tested := true);
      assert d.named == c.named;
    }
  }

  lemma ReloadKeeps(c: State)
    requires Inv(c)
    ensures Inv(AfterReload(c)) && Evolves(c, AfterReload(c))
    ensures AfterReload(c).settings == c.settings.(apiKey := c.keyFile)
    ensures TestBacked(AfterReload(c)) <==> KeyFileBacked(c)
    ensures KeyAgrees(AfterReload(c)) && (KeyAgrees(c) && TestBacked(c) ==> KeyFileBacked(c))
  {
    hide RulesValid;
  }

  lemma PreservedVersionKeeps(c: State)
    requires Inv(c)
    ensures var kept := c.(versions := AddVersion(c.versions, c.settings));
            Inv(kept) && Evolves(c, kept) && KeepsBacking(c, kept)
  {
    hide RulesValid, HasBuiltin;
  }

  lemma NewPromptKeeps(c: State, prompt: string)
    requires Inv(c)
    ensures var d := CommitSettings(c, c.settings.(prompt := prompt, version := c.settings.version + 1));
            Inv(d) && Evolves(c, d) && KeepsBacking(c, d)
  {
    CommitSettingsKeeps(c, c.settings.(prompt := prompt, version := c.settings.version + 1), c.rules, c.scopes,
                        c.keyFile);
    hide VersionsNamed, TestsCurrent, RulesValid, HasBuiltin, Evolves;
  }

  lemma UpgradePromptKeeps(c: State, prompt: string, committed: bool)
    requires Inv(c)
    ensures Inv(AfterUpgradePrompt(c, prompt, committed)) && Evolves(c, AfterUpgradePrompt(c, prompt, committed))
    ensures KeepsBacking(c, AfterUpgradePrompt(c, prompt, committed))
  {
    var kept := c.(versions := AddVersion(c.versions, c.settings));
    PreservedVersionKeeps(c);
    NewPromptKeeps(kept, prompt);
    var d := AfterUpgradePrompt(c, prompt, committed);
    hide Inv, TestBacked, KeyAgrees;
    assert d == c || d == kept
        || d == CommitSettings(kept, kept.settings.(prompt := prompt, version := kept.settings.version + 1));
  }

  // ---------------------------------------------------------------- catalog upgrade

  lemma {:induction false} AddedMembers(rules: map<string, Rule>, catalog: seq<Preset>)
    ensures forall r :: r in Added(rules, catalog) <==>
              exists i :: 0 <= i < |catalog| && catalog[i].rule.id !in rules && r == PresetFor(rules, catalog[i])
  {
    if catalog != [] {
      AddedMembers(rules, catalog[1..]);
      var tail := Added(rules, catalog[1..]);
      forall r
        ensures r in Added(rules, catalog) <==>
                exists i :: 0 <= i < |catalog| && catalog[i].rule.id !in rules && r == PresetFor(rules, catalog[i])
      {
        if r in tail {
          var i :| 0 <= i < |catalog[1..]| && catalog[1..][i].rule.id !in rules
              && r == PresetFor(rules, catalog[1..][i]);
          assert catalog[i + 1] == catalog[1..][i];
        }
        if i :| 0 < i < |catalog| && catalog[i].rule.id !in rules && r == PresetFor(rules, catalog[i]) {
          assert catalog[1..][i - 1] == catalog[i];
        }
      }
    }
  }

  lemma {:induction false} PutAllEffect(rules: map<string, Rule>, added: seq<Rule>)
    requires forall i, j :: 0 <= i < j < |added| ==> added[i].id != added[j].id
    requires forall i :: 0 <= i < |added| ==> added[i].id !in rules
    ensures forall k :: k in PutAll(rules, added) <==> k in rules || exists i :: 0 <= i < |added| && added[i].id == k
    ensures forall k :: k in rules ==> PutAll(rules, added)[k] == rules[k]
    ensures forall i :: 0 <= i < |added| ==> PutAll(rules, added)[added[i].id] == added[i]
    decreases |added|
  {
    if added != [] {
      var next := rules[added[0].id := added[0]];
      PutAllEffect(next, added[1..]);
      forall i | 0 <= i < |added|
        ensures added[i].id in PutAll(rules, added) && PutAll(rules, added)[added[i].id] == added[i]
      {
        if i > 0 { assert added[1..][i - 1] == added[i]; }
      }
      forall k | k in PutAll(rules, added)
        ensures k in rules || exists i :: 0 <= i < |added| && added[i].id == k
      {
        if k !in rules && k != added[0].id {
          assert k !in next;
          var i :| 0 <= i < |added[1..]| && added[1..][i].id == k;
          assert added[i + 1].id == k;
        }
      }
    }
  }

  lemma {:induction false} AddedDistinct(rules: map<string, Rule>, catalog: seq<Preset>)
    requires forall i, j :: 0 <= i < j < |catalog| ==> catalog[i].rule.id != catalog[j].rule.id
    ensures forall i, j :: 0 <= i < j < |Added(rules, catalog)| ==>
              Added(rules, catalog)[i].id != Added(rules, catalog)[j].id
    ensures forall i :: 0 <= i < |Added(rules, catalog)| ==> Added(rules, catalog)[i].id !in rules
    decreases |catalog|
  {
    if catalog != [] {
      AddedDistinct(rules, catalog[1..]);
      AddedMembers(rules, catalog[1..]);
      var tail := Added(rules, catalog[1..]);
      forall j | 0 <= j < |tail|
        ensures tail[j].id != catalog[0].rule.id
      {
        assert tail[j] in tail;
        var i :| 0 <= i < |catalog[1..]| && catalog[1..][i].rule.id !in rules
            && tail[j] == PresetFor(rules, catalog[1..][i]);
        assert catalog[i + 1] == catalog[1..][i];
      }
    }
  }

  /** Upgrading keeps every stored rule as it is and adds exactly the missing presets, switched
      off under a customised category. */
  lemma UpgradeRulesEffect(c: State, catalog: seq<Preset>)
    requires ValidCatalog(catalog)
    ensures var d := AfterUpgradeRules(c, catalog);
            && (forall k :: k in c.rules ==> k in d.rules && d.rules[k] == c.rules[k])
            && (forall k :: k in d.rules ==> k in c.rules || exists i :: 0 <= i < |catalog| && catalog[i].rule.id == k)
            && (forall i :: 0 <= i < |catalog| && catalog[i].rule.id !in c.rules ==>
                  && catalog[i].rule.id in d.rules
                  && d.rules[catalog[i].rule.id] == PresetFor(c.rules, catalog[i]))
  {
    var added := Added(c.rules, catalog);
    var rules := PutAll(c.rules, added);
    assert AfterUpgradeRules(c, catalog).rules == rules;
    AddedMembers(c.rules, catalog);
    AddedDistinct(c.rules, catalog);
    PutAllEffect(c.rules, added);
    hide AfterUpgradeRules, PutAll, Added;
    forall i | 0 <= i < |catalog| && catalog[i].rule.id !in c.rules
      ensures catalog[i].rule.id in rules && rules[catalog[i].rule.id] == PresetFor(c.rules, catalog[i])
    {
      var p := PresetFor(c.rules, catalog[i]);
      assert p in added;
      var j :| 0 <= j < |added| && added[j] == p;
    }
    forall k | k in rules && k !in c.rules
      ensures exists i :: 0 <= i < |catalog| && catalog[i].rule.id == k
    {
      var j :| 0 <= j < |added| && added[j].id == k;
      assert added[j] in added;
    }
  }

  /** Starting the same program again finds nothing to add and takes no new version. */
  lemma UpgradeRulesIdempotent(c: State, catalog: seq<Preset>)
    requires ValidCatalog(catalog)
    ensures AfterUpgradeRules(AfterUpgradeRules(c, catalog), catalog) == AfterUpgradeRules(c, catalog)
  {
    var d := AfterUpgradeRules(c, catalog);
    UpgradeRulesEffect(c, catalog);
    AddedMembers(d.rules, catalog);
    NonEmptyHasMember(Added(d.rules, catalog));
  }

  lemma UpgradedRulesAreValid(c: State, catalog: seq<Preset>)
    requires RulesValid(c.rules) && ValidCatalog(catalog)
    ensures RulesValid(AfterUpgradeRules(c, catalog).rules)
  {
    var d := AfterUpgradeRules(c, catalog);
    UpgradeRulesEffect(c, catalog);
    hide AfterUpgradeRules;
    forall k | k in d.rules
      ensures d.rules[k].id == k && ValidRule(d.rules[k])
    {
      if k !in c.rules {
        var i :| 0 <= i < |catalog| && catalog[i].rule.id == k;
      }
    }
  }

  lemma UpgradeRulesKeeps(c: State, catalog: seq<Preset>)
    requires Inv(c) && ValidCatalog(catalog)
    ensures Inv(AfterUpgradeRules(c, catalog)) && Evolves(c, AfterUpgradeRules(c, catalog))
    ensures KeepsBacking(c, AfterUpgradeRules(c, catalog))
  {
    var d := AfterUpgradeRules(c, catalog);
    UpgradeRulesEffect(c, catalog);
    if Added(c.rules, catalog) != [] {
      UpgradedRulesAreValid(c, catalog);
      var k :| k in c.rules && !("U_" <= k);
      assert k in d.rules;
      CommitSettingsKeeps(c, d.settings, d.rules, c.scopes, c.keyFile);
      assert d == CommitSettings(c.(rules := d.rules, scopes := c.scopes, keyFile := c.keyFile), d.settings);
      hide VersionsNamed, TestsCurrent, Evolves, RulesValid, AfterUpgradeRules;
    }
  }

  lemma FreshRules(catalog: seq<Preset>)
    requires ValidCatalog(catalog)
    ensures RulesValid(PutAll(map[], Added(map[], catalog))) && HasBuiltin(PutAll(map[], Added(map[], catalog)))
  {
    var added := Added(map[], catalog);
    var rules := PutAll(map[], added);
    AddedMembers(map[], catalog);
    AddedDistinct(map[], catalog);
    PutAllEffect(map[], added);
    hide PutAll, Added;
    forall k | k in rules
      ensures rules[k].id == k && ValidRule(rules[k])
    {
      var j :| 0 <= j < |added| && added[j].id == k;
      assert added[j] in added;
    }
    var p := PresetFor(map[], catalog[0]);
    assert p in added;
    var j :| 0 <= j < |added| && added[j] == p;
    assert p.id in rules;
  }

  lemma FreshHolds(catalog: seq<Preset>, prompt: string)
    requires ValidCatalog(catalog)
    ensures Inv(Fresh(catalog, prompt)) && TestBacked(Fresh(catalog, prompt)) && KeyAgrees(Fresh(catalog, prompt))
  {
    FreshRules(catalog);
    hide RulesValid, HasBuiltin, PutAll, Added;
  }
}
