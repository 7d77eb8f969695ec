/** Runs of the whole system: the engine's operations interleaved with any number of hook runs. */
module System {
  import opened Common
  import opened Policy
  import opened Reviews
  import RL = ReviewLemmas
  import C = Config
  import opened Bridge

  /** One hook process: the call it asks about and where its exchange with the engine stands. */
  datatype HookRun = HookRun(input: Input, stage: Stage)

  datatype Sys = Sys(store: Store, config: C.State, runs: map<nat, HookRun>)

  datatype Op =
    | Register(instance: Instance, remoteOk: bool, hookVersion: string, now: int, committed: bool)
    | Heartbeat(id: string, activity: Activity, now: int, committed: bool)
    | Disconnect(id: string, done: set<string>, now: int, committed: bool)
    | Submit(input: Input, listing: seq<Rule>, hit: Option<ScopeHit>, facts: Call, now: int, committed: bool)
    | Decide(id: string, digest: Digest, verdict: Verdict, comment: string, now: int, committed: bool)
    | ModelReply(id: string, ruling: Ruling, now: int, committed: bool)
    | Result(id: string, instanceId: string, state: Option<Execution>, text: string, committed: bool)
    | Expire(done: set<string>, now: int)
    | RestartCancel(done: set<string>, now: int)
    | RestartInstances(gone: set<string>)
    | Reload
    | UpgradePrompt(prompt: string, committed: bool)
    | UpgradeRules(catalog: seq<C.Preset>, committed: bool)
    | SaveRule(rule: Rule, builtinIds: set<string>, patternOk: bool, textOk: bool, committed: bool)
    | DeleteRule(id: string, committed: bool)
    | SaveScope(scope: Scope, valid: bool, committed: bool)
    | DeleteScope(id: string, committed: bool)
    | SaveSettings(settings: C.Settings, key: Option<string>, urlOk: bool, writes: C.Writes)
    | BeginTest(test: nat)
    | FinishTest(test: nat, success: bool, committed: bool)
    | HookStart(run: nat, input: Input)
    | HookSubmit(run: nat, listing: seq<Rule>, hit: Option<ScopeHit>, facts: Call, now: int, committed: bool)
    | HookPoll(run: nat)
    | HookAct(run: nat)
    | HookGiveUp(run: nat)

  function SnapshotOf(c: C.State, listing: seq<Rule>): Snapshot {
    Snapshot(c.settings.mode, c.settings.version, c.settings.prompt, c.settings.modelName,
             c.settings.approvalSeconds, c.settings.modelSeconds, listing, set k | k in c.scopes :: c.scopes[k])
  }

  /** The parts of an operation its environment fixes: a listing lists the rule table, sweeps
      close only what they target, verdicts come from running goroutines and pass the parser. */
  ghost predicate Enabled(s: Sys, op: Op) {
    match op
    case Disconnect(id, done, _, _) => done <= PendingOf(s.store, id)
    case Submit(_, listing, _, _, _, _) => IsListing(listing, s.config.rules)
    case ModelReply(id, ruling, _, _) => id in s.store.tasks && ValidModelRuling(ruling)
    case Expire(done, now) => done <= DueKeys(s.store, now)
    case RestartCancel(done, _) => done <= PendingKeys(s.store)
    case RestartInstances(_) => PendingKeys(s.store) == {}
    case UpgradeRules(catalog, _) => C.ValidCatalog(catalog)
    case SaveRule(_, builtinIds, _, _, _) => forall id :: id in builtinIds ==> id != "" && id != HUMAN_RULE
    case BeginTest(t) => t !in s.config.tests
    case FinishTest(t, _, _) => t in s.config.tests
    case HookStart(run, _) => run !in s.runs
    case HookSubmit(run, listing, _, _, _, _) =>
      run in s.runs && s.runs[run].stage == Starting && IsListing(listing, s.config.rules)
    case HookPoll(run) => run in s.runs && s.runs[run].stage == Waiting
    case HookAct(run) => run in s.runs && s.runs[run].stage.Fetched?
    case HookGiveUp(run) => run in s.runs && s.runs[run].stage != Allowed && s.runs[run].stage != Denied
    case _ => true
  }

  /** The store after an operation; refused or uncommitted operations change nothing. */
  ghost function StoreAfter(s: Sys, op: Op): Store
    requires Enabled(s, op)
  {
    var t := s.store;
    match op
    case Register(i, ok, version, now, committed) =>
      if committed && RegisterError(t, i, ok, version) == None then AfterRegister(t, i, now) else t
    case Heartbeat(id, activity, now, committed) =>
      if committed && HeartbeatError(t, id) == None then AfterHeartbeat(t, id, activity, now) else t
    case Disconnect(id, done, now, committed) =>
      if committed && id in t.instances then AfterDisconnect(t, id, done, now) else t
    case Submit(input, listing, hit, facts, now, committed) =>
      if committed && SubmitError(t, input, now) == None
      then AfterSubmit(t, SnapshotOf(s.config, listing), input, hit, facts, now) else t
    case Decide(id, digest, v, comment, now, committed) =>
      if committed && DecideError(t, id, digest, v, comment, now) == None
      then AfterDecide(t, id, digest, v, comment, now) else t
    case ModelReply(id, ruling, now, committed) => AfterModel(t, id, ruling, now, committed)
    case Result(id, instance, state, text, committed) =>
      if committed && ResultError(t, id, instance, state) == None
      then AfterResult(t, id, instance, state, text) else t
    case Expire(done, now) => AfterExpire(t, done, now)
    case RestartCancel(done, now) => AfterRestart(t, done, now)
    case RestartInstances(gone) => AfterInstancesLost(t, gone)
    case HookSubmit(run, listing, hit, facts, now, committed) =>
      if committed && SubmitError(t, s.runs[run].input, now) == None
      then AfterSubmit(t, SnapshotOf(s.config, listing), s.runs[run].input, hit, facts, now) else t
    case _ => t
  }

  ghost function ConfigAfter(s: Sys, op: Op): C.State
    requires Enabled(s, op)
  {
    var c := s.config;
    match op
    case Reload => C.AfterReload(c)
    case UpgradePrompt(prompt, committed) => C.AfterUpgradePrompt(c, prompt, committed)
    case UpgradeRules(catalog, committed) => if committed then C.AfterUpgradeRules(c, catalog) else c
    case SaveRule(r, ids, patternOk, textOk, committed) =>
      if committed && C.SaveRuleError(r, ids, patternOk, textOk) == None then C.AfterSaveRule(c, r, ids) else c
    case DeleteRule(id, committed) =>
      if committed && C.DeleteRuleError(id) == None then C.AfterDeleteRule(c, id) else c
    case SaveScope(scope, valid, committed) => if committed && valid then C.AfterSaveScope(c, scope) else c
    case DeleteScope(id, committed) => if committed then C.AfterDeleteScope(c, id) else c
    case SaveSettings(settings, key, urlOk, writes) =>
      if C.SaveSettingsError(c, settings, key, urlOk) == None then C.AfterSaveSettings(c, settings, key, writes) else c
    case BeginTest(t) => C.AfterBeginTest(c, t)
    case FinishTest(t, success, committed) => C.AfterFinishTest(c, t, success, committed)
    case _ => c
  }

  /** The reply a submission puts on its way: an error, or the view of the stored review. */
  ghost function SubmitStage(s: Sys, op: Op): Stage
    requires op.HookSubmit? && Enabled(s, op)
  {
    var i := s.runs[op.run].input;
    if SubmitError(s.store, i, op.now) != None then Denied
    else
      var id := Key(i.instance, i.call);
      var t := AfterSubmit(s.store, SnapshotOf(s.config, op.listing), i, op.hit, op.facts, op.now);
      if id !in s.store.reviews && !op.committed then Denied
      else Fetched(ViewOf(t.reviews[id]))
  }

  /** The reply to a poll, which names the review by key and must own its instance. */
  function PollStage(s: Sys, run: nat): Stage
    requires run in s.runs
  {
    var i := s.runs[run].input;
    var id := Key(i.instance, i.call);
    if id !in s.store.reviews || s.store.reviews[id].instance != i.instance then Denied
    else Fetched(ViewOf(s.store.reviews[id]))
  }

  /** The hook judges the reply in hand, however long ago the engine computed it. */
  function ActStage(s: Sys, run: nat): Stage
    requires run in s.runs
  {
    var i := s.runs[run].input;
    Acted(Key(i.instance, i.call), s.runs[run].stage)
  }

  ghost function RunsAfter(s: Sys, op: Op): map<nat, HookRun>
    requires Enabled(s, op)
  {
    match op
    case HookStart(run, input) => s.runs[run := HookRun(input, Starting)]
    case HookSubmit(run, _, _, _, _, _) => s.runs[run := s.runs[run].(stage := SubmitStage(s, op))]
    case HookPoll(run) => s.runs[run := s.runs[run].(stage := PollStage(s, run))]
    case HookAct(run) => s.runs[run := s.runs[run].(stage := ActStage(s, run))]
    case HookGiveUp(run) => s.runs[run := s.runs[run].(stage := Denied)]
    case _ => s.runs
  }

  ghost function Next(s: Sys, op: Op): Sys
    requires Enabled(s, op)
  {
    Sys(StoreAfter(s, op), ConfigAfter(s, op), RunsAfter(s, op))
  }

  /** A run from the first start on an empty data directory. */
  ghost predicate IsRun(states: seq<Sys>, ops: seq<Op>) {
    && |states| == |ops| + 1
    && (exists catalog, prompt ::
          C.ValidCatalog(catalog) && states[0] == Sys(EMPTY_STORE, C.Fresh(catalog, prompt), map[]))
    && forall i :: 0 <= i < |ops| ==> Enabled(states[i], ops[i]) && states[i + 1] == Next(states[i], ops[i])
  }

  // ================================================================ the invariant

  /** A stored review carries the configuration its version number names. */
  ghost predicate Named(c: C.State, r: Review) {
    && r.version in c.named
    && r.mode == c.named[r.version].settings.mode && r.modelName == c.named[r.version].settings.modelName
    && (r.prompt == c.named[r.version].settings.prompt || r.prompt == ModelPrompt(c.named[r.version].settings.prompt))
    && IsListing(r.rules, c.named[r.version].rules)
    && r.scopes == set k | k in c.named[r.version].scopes && c.named[r.version].scopes[k].node == r.node
                    :: c.named[r.version].scopes[k]
  }

  /** A hook run past its submission has a stored review with exactly its digest; an approval it was
      shown is still one. */
  predicate RunOk(store: Store, h: HookRun) {
    h.stage != Starting && h.stage != Denied ==>
      var id := Key(h.input.instance, h.input.call);
      && h.input.arguments.Some? && id in store.reviews
      && store.reviews[id].digest == DigestOf(h.input)
      && (h.stage == Allowed || (h.stage.Fetched? && h.stage.view.decision == Some(Approved)) ==>
            store.reviews[id].decision == Approved)
  }

  ghost predicate Inv(s: Sys) {
    && RL.Inv(s.store) && C.Inv(s.config)
    && (forall k :: k in s.store.reviews ==> Named(s.config, s.store.reviews[k]))
    && (forall n :: n in s.runs ==> RunOk(s.store, s.runs[n]))
  }

  lemma ListingIsSafe(listing: seq<Rule>, rules: map<string, Rule>)
    requires C.RulesValid(rules) && IsListing(listing, rules)
    ensures WellFormed(listing) && RL.SafeRuleIds(listing)
  {
    forall i | 0 <= i < |listing|
      ensures listing[i].id != "" && listing[i].id != HUMAN_RULE
    {
      assert listing[i] in listing;
    }
  }

  /** What a store step keeps; pending reviews keep their owners unless a disconnect left some behind. */
  ghost predicate StoreKept(s: Store, t: Store, owned: bool) {
    RL.Inv(t) && RL.StoreEvolves(s, t) && (owned && RL.PendingIsOwned(s) ==> RL.PendingIsOwned(t))
  }

  predicate LeavesNoneBehind(s: Sys, op: Op) {
    op.Disconnect? && op.committed ==> op.done == PendingOf(s.store, op.id)
  }

  lemma KeptStore(s: Store, t: Store, owned: bool)
    requires StoreKept(s, t, owned)
    ensures RL.Inv(t) && RL.StoreEvolves(s, t) && (owned && RL.PendingIsOwned(s) ==> RL.PendingIsOwned(t))
  {
    hide RL.Inv, RL.StoreEvolves, RL.PendingIsOwned;
  }

  lemma SameStoreKept(t: Store)
    requires RL.Inv(t)
    ensures StoreKept(t, t, true)
  {
    RL.Reflexive(t);
    hide RL.Inv, RL.StoreEvolves, RL.PendingIsOwned;
  }

  lemma RegisterStep(s: Sys, op: Op)
    requires RL.Inv(s.store) && Enabled(s, op) && op.Register?
    ensures StoreKept(s.store, StoreAfter(s, op), true)
  {
    SameStoreKept(s.store);
    hide RL.Inv, RL.StoreEvolves, RL.PendingIsOwned, RegisterError, AfterRegister;
    if op.committed && RegisterError(s.store, op.instance, op.remoteOk, op.hookVersion) == None {
      RL.RegisterKeeps(s.store, op.instance, op.remoteOk, op.hookVersion, op.now);
    }
  }

  lemma HeartbeatStep(s: Sys, op: Op)
    requires RL.Inv(s.store) && Enabled(s, op) && op.Heartbeat?
    ensures StoreKept(s.store, StoreAfter(s, op), true)
  {
    SameStoreKept(s.store);
    hide RL.Inv, RL.StoreEvolves, RL.PendingIsOwned, HeartbeatError, AfterHeartbeat;
    if op.committed && HeartbeatError(s.store, op.id) == None {
      RL.HeartbeatKeeps(s.store, op.id, op.activity, op.now);
    }
  }

  lemma LostStep(s: Sys, op: Op)
    requires RL.Inv(s.store) && Enabled(s, op) && op.RestartInstances?
    ensures StoreKept(s.store, StoreAfter(s, op), true)
  {
    hide RL.Inv, RL.StoreEvolves, RL.PendingIsOwned, PendingKeys, AfterInstancesLost;
    RL.InstancesLostKeeps(s.store, op.gone);
  }

  lemma DisconnectStep(s: Sys, op: Op)
    requires RL.Inv(s.store) && Enabled(s, op) && op.Disconnect?
    ensures StoreKept(s.store, StoreAfter(s, op), LeavesNoneBehind(s, op))
  {
    SameStoreKept(s.store);
    hide RL.Inv, RL.StoreEvolves, RL.PendingIsOwned, PendingOf, AfterDisconnect;
    if op.committed && op.id in s.store.instances {
      RL.DisconnectKeeps(s.store, op.id, op.done, op.now);
      if RL.PendingIsOwned(s.store) {
        RL.DisconnectOwnership(s.store, op.id, op.done, op.now);
      }
    }
  }

  lemma DecideStore(s: Sys, op: Op)
    requires Enabled(s, op) && op.Decide?
    ensures StoreAfter(s, op)
         == if op.committed && DecideError(s.store, op.id, op.digest, op.verdict, op.comment, op.now) == None
            then AfterDecide(s.store, op.id, op.digest, op.verdict, op.comment, op.now)
            else s.store
  {
    hide DecideError, AfterDecide, Enabled;
  }

  lemma DecideStep(s: Sys, op: Op)
    requires RL.Inv(s.store) && Enabled(s, op) && op.Decide?
    ensures StoreKept(s.store, StoreAfter(s, op), true)
  {
    hide *;
    var t := s.store;
    DecideStore(s, op);
    SameStoreKept(t);
    if op.committed && DecideError(t, op.id, op.digest, op.verdict, op.comment, op.now) == None {
      RL.DecideKeeps(t, op.id, op.digest, op.verdict, op.comment, op.now);
      StoreKeptFrom(t, AfterDecide(t, op.id, op.digest, op.verdict, op.comment, op.now));
    }
  }

  lemma StoreKeptFrom(s: Store, t: Store)
    requires RL.Inv(t) && RL.StoreEvolves(s, t) && (RL.PendingIsOwned(s) ==> RL.PendingIsOwned(t))
    ensures StoreKept(s, t, true)
  {
    hide RL.Inv, RL.StoreEvolves, RL.PendingIsOwned;
  }

  lemma ModelStep(s: Sys, op: Op)
    requires RL.Inv(s.store) && Enabled(s, op) && op.ModelReply?
    ensures StoreKept(s.store, StoreAfter(s, op), true)
  {
    hide RL.Inv, RL.StoreEvolves, RL.PendingIsOwned, AfterModel, ValidModelRuling;
    RL.ModelKeeps(s.store, op.id, op.ruling, op.now, op.committed);
  }

  lemma ResultStep(s: Sys, op: Op)
    requires RL.Inv(s.store) && Enabled(s, op) && op.Result?
    ensures StoreKept(s.store, StoreAfter(s, op), true)
  {
    var t := s.store;
    SameStoreKept(t);
    hide RL.Inv, RL.StoreEvolves, RL.PendingIsOwned, ResultError, AfterResult, Enabled;
    if op.committed && ResultError(t, op.id, op.instanceId, op.state) == None {
      RL.ResultKeeps(t, op.id, op.instanceId, op.state, op.text);
    }
  }

  lemma SweepStep(s: Sys, op: Op)
    requires RL.Inv(s.store) && Enabled(s, op) && (op.Expire? || op.RestartCancel?)
    ensures StoreKept(s.store, StoreAfter(s, op), true)
  {
    hide RL.Inv, RL.StoreEvolves, RL.PendingIsOwned, DueKeys, PendingKeys, AfterExpire, AfterRestart;
    match op {
      case Expire(done, now) => RL.ExpireKeeps(s.store, done, now);
      case RestartCancel(done, now) => RL.RestartKeeps(s.store, done, now);
    }
  }

  lemma SubmissionStep(s: Sys, op: Op)
    requires RL.Inv(s.store) && C.Inv(s.config) && Enabled(s, op) && (op.Submit? || op.HookSubmit?)
    ensures StoreKept(s.store, StoreAfter(s, op), true)
  {
    var t, input := s.store, if op.Submit? then op.input else s.runs[op.run].input;
    SameStoreKept(t);
    hide RL.Inv, C.Inv, RL.StoreEvolves, RL.PendingIsOwned, SubmitError, AfterSubmit, SnapshotOf, IsListing;
    if op.committed && SubmitError(t, input, op.now) == None {
      SubmitStep(s, op.listing, input, op.hit, op.facts, op.now);
    }
  }

  predicate TouchesStore(op: Op) {
    || op.Register? || op.Heartbeat? || op.Disconnect? || op.RestartInstances? || op.Decide? || op.ModelReply?
    || op.Result? || op.Expire? || op.RestartCancel? || op.Submit? || op.HookSubmit?
  }

  lemma StoreUntouched(s: Sys, op: Op)
    requires Enabled(s, op) && !TouchesStore(op)
    ensures StoreAfter(s, op) == s.store
  {
    hide Enabled;
  }

  lemma StoreStep(s: Sys, op: Op)
    requires RL.Inv(s.store) && C.Inv(s.config) && Enabled(s, op)
    ensures StoreKept(s.store, StoreAfter(s, op), LeavesNoneBehind(s, op))
  {
    SameStoreKept(s.store);
    hide RL.Inv, C.Inv, Enabled, StoreAfter, StoreKept, PendingOf;
    if op.Register? {
      RegisterStep(s, op);
    } else if op.Heartbeat? {
      HeartbeatStep(s, op);
    } else if op.RestartInstances? {
      LostStep(s, op);
    } else if op.Disconnect? {
      DisconnectStep(s, op);
    } else if op.Decide? {
      DecideStep(s, op);
    } else if op.ModelReply? {
      ModelStep(s, op);
    } else if op.Result? {
      ResultStep(s, op);
    } else if op.Expire? || op.RestartCancel? {
      SweepStep(s, op);
    } else if op.Submit? || op.HookSubmit? {
      SubmissionStep(s, op);
    } else {
      StoreUntouched(s, op);
    }
  }

  lemma SubmitStep(s: Sys, listing: seq<Rule>, input: Input, hit: Option<ScopeHit>, facts: Call, now: int)
    requires RL.Inv(s.store) && C.Inv(s.config) && IsListing(listing, s.config.rules)
    requires SubmitError(s.store, input, now) == None
    ensures var t := AfterSubmit(s.store, SnapshotOf(s.config, listing), input, hit, facts, now);
            StoreKept(s.store, t, true)
  {
    ListingIsSafe(listing, s.config.rules);
    var snap := SnapshotOf(s.config, listing);
    assert snap.rules == listing;
    hide RL.Inv, C.Inv, SnapshotOf, IsListing, RL.StoreEvolves, AfterSubmit, SubmitError, RL.PendingIsOwned,
         WellFormed, RL.SafeRuleIds;
    RL.SubmitKeeps(s.store, snap, input, hit, facts, now);
    if RL.PendingIsOwned(s.store) {
      RL.SubmitKeepsOwnership(s.store, snap, input, hit, facts, now);
    }
  }

  /** What a configuration step keeps: the flag stays backed unless a restart finds another key on disk. */
  ghost predicate ConfigKept(c: C.State, d: C.State, reload: bool) {
    && C.Inv(d) && C.Evolves(c, d)
    && (C.TestBacked(c) && (reload ==> C.KeyFileBacked(c)) ==> C.TestBacked(d))
    && (reload ==> (C.TestBacked(d) <==> C.KeyFileBacked(c)))
  }

  predicate EditsTables(op: Op) {
    op.SaveRule? || op.DeleteRule? || op.SaveScope? || op.DeleteScope?
  }

  lemma KeptParts(c: C.State, d: C.State, reload: bool)
    requires ConfigKept(c, d, reload)
    ensures C.Inv(d) && C.Evolves(c, d)
    ensures C.TestBacked(c) && (reload ==> C.KeyFileBacked(c)) ==> C.TestBacked(d)
    ensures reload ==> (C.TestBacked(d) <==> C.KeyFileBacked(c))
  {
    hide C.Inv, C.Evolves, C.TestBacked, C.KeyFileBacked;
  }

  lemma RuleStep(s: Sys, op: Op)
    requires C.Inv(s.config) && Enabled(s, op) && (op.SaveRule? || op.DeleteRule?)
    ensures ConfigKept(s.config, ConfigAfter(s, op), false)
  {
    var c := s.config;
    assert C.Evolves(c, c);
    hide C.Inv, C.Evolves, C.TestBacked, C.KeyAgrees, C.SaveRuleError, C.CommitTables, C.AfterSaveRule,
         C.AfterDeleteRule;
    match op {
      case SaveRule(r, ids, patternOk, textOk, committed) =>
        if committed && C.SaveRuleError(r, ids, patternOk, textOk) == None {
          C.SaveRuleKeeps(c, r, ids, patternOk, textOk);
        }
      case DeleteRule(id, committed) =>
        if committed && C.DeleteRuleError(id) == None { C.DeleteRuleKeeps(c, id); }
    }
  }

  lemma ScopeConfig(s: Sys, op: Op)
    requires Enabled(s, op) && (op.SaveScope? || op.DeleteScope?)
    ensures ConfigAfter(s, op) == s.config
         || ConfigAfter(s, op) == C.CommitTables(s.config, s.config.rules,
              if op.SaveScope? then s.config.scopes[op.scope.id := op.scope] else s.config.scopes - {op.id})
  {
    hide C.CommitTables;
  }

  lemma ScopeStep(s: Sys, op: Op)
    requires C.Inv(s.config) && Enabled(s, op) && (op.SaveScope? || op.DeleteScope?)
    ensures ConfigKept(s.config, ConfigAfter(s, op), false)
  {
    hide C.Inv, C.Evolves, C.TestBacked, C.KeyFileBacked, C.KeyAgrees, C.LeavesForeignKey, C.CommitTables, Enabled,
         ConfigAfter;
    var c := s.config;
    ScopeConfig(s, op);
    C.EvolvesReflexive(c);
    C.ScopesKeep(c, if op.SaveScope? then c.scopes[op.scope.id := op.scope] else c.scopes - {op.id});
  }

  predicate Upgrades(op: Op) {
    op.UpgradePrompt? || op.UpgradeRules?
  }

  lemma UpgradeStep(s: Sys, op: Op)
    requires C.Inv(s.config) && Enabled(s, op) && Upgrades(op)
    ensures ConfigKept(s.config, ConfigAfter(s, op), false)
  {
    var c := s.config;
    assert C.Evolves(c, c);
    hide C.Inv, C.Evolves, C.TestBacked, C.KeyAgrees, C.ValidCatalog, C.AfterUpgradePrompt, C.AfterUpgradeRules;
    match op {
      case UpgradePrompt(prompt, committed) => C.UpgradePromptKeeps(c, prompt, committed);
      case UpgradeRules(catalog, committed) => if committed { C.UpgradeRulesKeeps(c, catalog); }
    }
  }

  lemma SettingsStep(s: Sys, op: Op)
    requires C.Inv(s.config) && Enabled(s, op) && op.SaveSettings?
    ensures ConfigKept(s.config, ConfigAfter(s, op), false)
  {
    var c := s.config;
    assert C.Evolves(c, c);
    hide C.Inv, C.Evolves, C.TestBacked, C.KeyAgrees, C.SaveSettingsError, C.AfterSaveSettings;
    if C.SaveSettingsError(c, op.settings, op.key, op.urlOk) == None {
      C.SaveSettingsKeeps(c, op.settings, op.key, op.urlOk, op.writes);
    }
  }

  lemma TestStep(s: Sys, op: Op)
    requires C.Inv(s.config) && Enabled(s, op) && (op.BeginTest? || op.FinishTest?)
    ensures ConfigKept(s.config, ConfigAfter(s, op), false)
  {
    var c := s.config;
    assert C.Evolves(c, c);
    hide C.Inv, C.Evolves, C.TestBacked, C.KeyAgrees, C.AfterBeginTest, C.AfterFinishTest;
    match op {
      case BeginTest(t) => C.BeginTestKeeps(c, t);
      case FinishTest(t, success, committed) => C.FinishTestKeeps(c, t, success, committed);
    }
  }

  lemma ReloadStep(s: Sys, op: Op)
    requires C.Inv(s.config) && Enabled(s, op) && op.Reload?
    ensures ConfigKept(s.config, ConfigAfter(s, op), true)
  {
    hide C.Inv, C.Evolves, C.TestBacked, C.KeyFileBacked, C.AfterReload;
    C.ReloadKeeps(s.config);
  }

  predicate Configures(op: Op) {
    EditsTables(op) || Upgrades(op) || op.SaveSettings? || op.BeginTest? || op.FinishTest? || op.Reload?
  }

  lemma OtherStep(s: Sys, op: Op)
    requires Enabled(s, op) && !Configures(op)
    ensures ConfigAfter(s, op) == s.config
  {
    hide Enabled;
  }

  lemma ConfigStep(s: Sys, op: Op)
    requires C.Inv(s.config) && Enabled(s, op)
    ensures ConfigKept(s.config, ConfigAfter(s, op), op.Reload?)
  {
    assert C.Evolves(s.config, s.config);
    hide ConfigAfter, Enabled, C.Inv, C.Evolves, C.TestBacked, C.KeyFileBacked;
    if op.SaveRule? || op.DeleteRule? {
      RuleStep(s, op);
    } else if op.SaveScope? || op.DeleteScope? {
      ScopeStep(s, op);
    } else if Upgrades(op) {
      UpgradeStep(s, op);
    } else if op.SaveSettings? {
      SettingsStep(s, op);
    } else if op.BeginTest? || op.FinishTest? {
      TestStep(s, op);
    } else if op.Reload? {
      ReloadStep(s, op);
    } else {
      OtherStep(s, op);
    }
  }

  /** A review carries the configuration of a snapshot. */
  predicate Records(r: Review, snap: Snapshot) {
    && r.version == snap.version && r.mode == snap.mode && r.rules == snap.rules && r.modelName == snap.modelName
    && (r.prompt == snap.prompt || r.prompt == ModelPrompt(snap.prompt))
    && r.scopes == set c | c in snap.scopes && c.node == r.node
  }

  lemma NewReviewRecords(t: Store, snap: Snapshot, i: Input, hit: Option<ScopeHit>, facts: Call, now: int)
    requires i.instance in t.instances && i.arguments.Some?
    ensures var r := NewReview(t, snap, i, hit, facts, now);
            && r.id == Key(i.instance, i.call) && r.instance == i.instance && r.call == i.call
            && r.digest == DigestOf(i)
            && Records(r, snap)
  {
    hide PolicyRuling, Key, ModelPrompt;
  }

  lemma SubmissionUsesSnapshot(t: Store, snap: Snapshot, i: Input, hit: Option<ScopeHit>, facts: Call, now: int)
    requires SubmitError(t, i, now) == None
    ensures var u := AfterSubmit(t, snap, i, hit, facts, now);
            forall k :: k in u.reviews && k !in t.reviews
                ==> k == Key(i.instance, i.call) && Records(u.reviews[k], snap)
  {
    NewReviewRecords(t, snap, i, hit, facts, now);
    hide NewReview, Key, TrailOf, Records;
  }

  lemma VerdictsAddNoReviews(s: Sys, op: Op)
    requires RL.Inv(s.store) && Enabled(s, op) && (op.Decide? || op.ModelReply? || op.Result?)
    ensures StoreAfter(s, op).reviews.Keys == s.store.reviews.Keys
  {
    hide RL.Inv, RL.Holds, RL.Sound, TrailOf;
    if op.id in s.store.reviews {
      StoredHolds(s.store, op.id);
    }
  }

  lemma SweepsAddNoReviews(s: Sys, op: Op)
    requires Enabled(s, op) && (op.Disconnect? || op.Expire? || op.RestartCancel?)
    ensures StoreAfter(s, op).reviews.Keys == s.store.reviews.Keys
  {
    hide TrailOf, SweepReason, Closed;
  }

  lemma OthersKeepReviews(s: Sys, op: Op)
    requires Enabled(s, op) && !op.Submit? && !op.HookSubmit? && !op.Decide? && !op.ModelReply? && !op.Result?
    requires !op.Disconnect? && !op.Expire? && !op.RestartCancel?
    ensures StoreAfter(s, op).reviews == s.store.reviews
  {
    hide Enabled, Registered;
  }

  lemma OthersAddNoReviews(s: Sys, op: Op)
    requires RL.Inv(s.store) && Enabled(s, op) && !op.Submit? && !op.HookSubmit?
    ensures StoreAfter(s, op).reviews.Keys == s.store.reviews.Keys
  {
    hide *;
    if op.Decide? || op.ModelReply? || op.Result? {
      VerdictsAddNoReviews(s, op);
    } else if op.Disconnect? || op.Expire? || op.RestartCancel? {
      SweepsAddNoReviews(s, op);
    } else {
      OthersKeepReviews(s, op);
    }
  }

  /** Only a submission adds a review, and it records the configuration it read. */
  lemma NewReviewsAreSubmissions(s: Sys, op: Op)
    requires RL.Inv(s.store) && Enabled(s, op)
    ensures forall k :: k in StoreAfter(s, op).reviews && k !in s.store.reviews ==>
              (op.Submit? || op.HookSubmit?) && Records(StoreAfter(s, op).reviews[k], SnapshotOf(s.config, op.listing))
  {
    hide RL.Inv, AfterSubmit, SubmitError, Records, SnapshotOf;
    if op.Submit? {
      if SubmitError(s.store, op.input, op.now) == None {
        SubmissionUsesSnapshot(s.store, SnapshotOf(s.config, op.listing), op.input, op.hit, op.facts, op.now);
      }
    } else if op.HookSubmit? {
      if SubmitError(s.store, s.runs[op.run].input, op.now) == None {
        SubmissionUsesSnapshot(s.store, SnapshotOf(s.config, op.listing), s.runs[op.run].input, op.hit, op.facts,
                               op.now);
      }
    } else {
      hide StoreAfter;
      OthersAddNoReviews(s, op);
    }
  }

  lemma NamedPersists(c: C.State, d: C.State, r: Review, t: Review)
    requires C.Evolves(c, d) && Named(c, r) && RL.Evolves(r, t)
    ensures Named(d, t)
  {
    hide ModelPrompt;
  }

  /** A fresh submission is named by the configuration in force. */
  lemma SubmissionIsNamed(c: C.State, r: Review, listing: seq<Rule>)
    requires C.Inv(c) && IsListing(listing, c.rules)
    requires Records(r, SnapshotOf(c, listing))
    ensures Named(c, r)
  {
    assert c.named[c.settings.version] == C.Named(c.rules, c.scopes, C.Bare(c.settings));
    SameScopes(c.scopes, r.node);
    hide ModelPrompt;
  }

  lemma ReviewEvolves(s: Store, t: Store, k: string)
    requires RL.StoreEvolves(s, t) && k in s.reviews
    ensures k in t.reviews && RL.Evolves(s.reviews[k], t.reviews[k])
  {
    hide RL.Evolves;
  }

  lemma NamedStep(s: Sys, op: Op, k: string)
    requires Inv(s) && Enabled(s, op) && k in StoreAfter(s, op).reviews
    ensures Named(ConfigAfter(s, op), StoreAfter(s, op).reviews[k])
  {
    var t := StoreAfter(s, op).reviews[k];
    if k in s.store.reviews {
      hide *;
      InvParts(s);
      StoreStep(s, op);
      KeptStore(s.store, StoreAfter(s, op), LeavesNoneBehind(s, op));
      ReviewEvolves(s.store, StoreAfter(s, op), k);
      ConfigStep(s, op);
      KeptParts(s.config, ConfigAfter(s, op), op.Reload?);
      NamedPersists(s.config, ConfigAfter(s, op), s.store.reviews[k], t);
    } else {
      NewReviewsAreSubmissions(s, op);
      assert op.Submit? || op.HookSubmit?;
      assert ConfigAfter(s, op) == s.config;
      hide StoreAfter, ConfigAfter, RL.Inv, C.Inv, Named, RunOk, Records;
      SubmissionIsNamed(s.config, t, op.listing);
    }
  }

  lemma SameScopes(scopes: map<string, Scope>, node: string)
    ensures (set c | c in (set k | k in scopes :: scopes[k]) && c.node == node)
         == set k | k in scopes && scopes[k].node == node :: scopes[k]
  {
  }

  // ---------------------------------------------------------------- hook runs

  lemma RunPersists(s: Store, t: Store, h: HookRun)
    requires RunOk(s, h) && RL.StoreEvolves(s, t)
    ensures RunOk(t, h)
  {
    if h.stage != Starting && h.stage != Denied {
      var id := Key(h.input.instance, h.input.call);
      assert RL.Evolves(s.reviews[id], t.reviews[id]);
    }
  }

  /** The stored review of a call's key has the call's digest. */
  predicate Stored(store: Store, i: Input) {
    && i.arguments.Some? && Key(i.instance, i.call) in store.reviews
    && store.reviews[Key(i.instance, i.call)].digest == DigestOf(i)
  }

  /** The review a submission is answered from. */
  lemma SubmissionAnswer(t: Store, snap: Snapshot, i: Input, hit: Option<ScopeHit>, facts: Call, now: int)
    requires SubmitError(t, i, now) == None
    ensures Stored(AfterSubmit(t, snap, i, hit, facts, now), i)
  {
    var r := NewReview(t, snap, i, hit, facts, now);
    NewReviewRecords(t, snap, i, hit, facts, now);
    hide NewReview, Records;
  }

  lemma HookStore(s: Sys, op: Op)
    requires op.HookSubmit? && Enabled(s, op)
    ensures StoreAfter(s, op)
         == if op.committed && SubmitError(s.store, s.runs[op.run].input, op.now) == None
            then AfterSubmit(s.store, SnapshotOf(s.config, op.listing), s.runs[op.run].input, op.hit, op.facts, op.now)
            else s.store
  {
    hide SubmitError, AfterSubmit, SnapshotOf;
  }

  lemma SubmitReply(s: Sys, op: Op)
    requires op.HookSubmit? && Enabled(s, op) && SubmitStage(s, op).Fetched?
    ensures var i := s.runs[op.run].input;
            && SubmitError(s.store, i, op.now) == None
            && (op.committed || Key(i.instance, i.call) in s.store.reviews)
            && var t := AfterSubmit(s.store, SnapshotOf(s.config, op.listing), i, op.hit, op.facts, op.now);
               Key(i.instance, i.call) in t.reviews
               && SubmitStage(s, op).view == ViewOf(t.reviews[Key(i.instance, i.call)])
  {
    var i := s.runs[op.run].input;
    hide SubmitError, AfterSubmit, SnapshotOf, ViewOf, Key, Enabled;
    assert SubmitError(s.store, i, op.now) == None;
    SubmissionAnswer(s.store, SnapshotOf(s.config, op.listing), i, op.hit, op.facts, op.now);
  }

  lemma StoredIsAnswered(t: Store, snap: Snapshot, i: Input, hit: Option<ScopeHit>, facts: Call, now: int)
    requires SubmitError(t, i, now) == None && Key(i.instance, i.call) in t.reviews
    ensures AfterSubmit(t, snap, i, hit, facts, now) == t
  {
    hide SubmitError, Key;
  }

  /** A reply in hand shows the review stored under the run's key as it was when it was fetched. */
  lemma FetchShows(s: Sys, op: Op)
    requires op.HookSubmit? && Enabled(s, op) && SubmitStage(s, op).Fetched?
    ensures var i := s.runs[op.run].input;
            && Stored(StoreAfter(s, op), i)
            && SubmitStage(s, op).view == ViewOf(StoreAfter(s, op).reviews[Key(i.instance, i.call)])
  {
    hide *;
    FetchIsEnabled(s, op);
    var i, snap := s.runs[op.run].input, SnapshotOf(s.config, op.listing);
    HookStore(s, op);
    SubmitReply(s, op);
    SubmissionAnswer(s.store, snap, i, op.hit, op.facts, op.now);
    if Key(i.instance, i.call) in s.store.reviews {
      StoredIsAnswered(s.store, snap, i, op.hit, op.facts, op.now);
    }
  }

  lemma PollShows(s: Sys, run: nat)
    requires run in s.runs && RunOk(s.store, s.runs[run]) && s.runs[run].stage == Waiting && PollStage(s, run).Fetched?
    ensures var i := s.runs[run].input;
            && Stored(s.store, i)
            && PollStage(s, run).view == ViewOf(s.store.reviews[Key(i.instance, i.call)])
            && s.store.reviews[Key(i.instance, i.call)].instance == i.instance
  {
  }

  lemma FetchedIsOk(t: Store, h: HookRun)
    requires h.stage.Fetched? && Stored(t, h.input)
    requires h.stage.view == ViewOf(t.reviews[Key(h.input.instance, h.input.call)])
    ensures RunOk(t, h)
  {
  }

  lemma ActIsOk(t: Store, h: HookRun, expected: string)
    requires RunOk(t, h) && h.stage.Fetched?
    ensures RunOk(t, h.(stage := Acted(expected, h.stage)))
  {
  }

  /** How a step changes one run: a fetch, an act, giving up, starting, or not at all. */
  lemma RunCases(s: Sys, op: Op, n: nat)
    requires Enabled(s, op) && n in RunsAfter(s, op)
    ensures var h := RunsAfter(s, op)[n];
            || h.stage == Denied || h.stage == Starting
            || (n in s.runs && h == s.runs[n])
            || (op.HookSubmit? && op.run == n && h == s.runs[n].(stage := SubmitStage(s, op)) && h.stage.Fetched?)
            || (op.HookPoll? && op.run == n && h == s.runs[n].(stage := PollStage(s, n)) && h.stage.Fetched?)
            || (op.HookAct? && op.run == n && h == s.runs[n].(stage := ActStage(s, n)))
  {
    if op.HookSubmit? {
      SubmitStages(s, op);
    }
    if op.HookPoll? {
      PollStages(s, op.run);
    }
    hide SubmitStage, PollStage, ActStage;
  }

  lemma RunStep(s: Sys, op: Op, n: nat)
    requires Inv(s) && Enabled(s, op) && n in RunsAfter(s, op)
    ensures RunOk(StoreAfter(s, op), RunsAfter(s, op)[n])
  {
    hide Inv, StoreAfter, RunsAfter, ConfigAfter, StoreKept, LeavesNoneBehind, RL.Inv, C.Inv, RL.StoreEvolves, Named,
         RunOk;
    hide ViewOf, Stored, SubmitStage, PollStage, Acted, Enabled;
    InvParts(s);
    StoreStep(s, op);
    KeptStore(s.store, StoreAfter(s, op), LeavesNoneBehind(s, op));
    RunCases(s, op, n);
    var t, h := StoreAfter(s, op), RunsAfter(s, op)[n];
    if h.stage == Denied || h.stage == Starting {
      DeniedIsOk(t, h.input);
    } else {
      FetchIsEnabled(s, op);
      RunPersists(s.store, t, s.runs[n]);
      if h != s.runs[n] {
        if op.HookSubmit? {
          FetchShows(s, op);
          FetchedIsOk(t, h);
        } else if op.HookPoll? {
          PollShows(s, n);
          FetchedIsOk(s.store, h);
          RunPersists(s.store, t, h);
        } else {
          ActIsOk(t, s.runs[n], Key(s.runs[n].input.instance, s.runs[n].input.call));
        }
      }
    }
  }

  lemma FetchIsEnabled(s: Sys, op: Op)
    requires Enabled(s, op)
    ensures op.HookPoll? ==> op.run in s.runs && s.runs[op.run].stage == Waiting
    ensures op.HookSubmit? ==> op.run in s.runs && s.runs[op.run].stage == Starting
    ensures op.HookAct? ==> op.run in s.runs && s.runs[op.run].stage.Fetched?
  {
  }

  lemma SubmitStages(s: Sys, op: Op)
    requires op.HookSubmit? && Enabled(s, op)
    ensures SubmitStage(s, op).Fetched? || SubmitStage(s, op) == Denied
  {
  }

  lemma PollStages(s: Sys, run: nat)
    requires run in s.runs
    ensures PollStage(s, run).Fetched? || PollStage(s, run) == Denied
  {
  }

  lemma DeniedIsOk(t: Store, i: Input)
    ensures RunOk(t, HookRun(i, Denied)) && RunOk(t, HookRun(i, Starting))
  {
  }

  lemma FromParts(s: Sys)
    requires RL.Inv(s.store) && C.Inv(s.config)
    requires forall k :: k in s.store.reviews ==> Named(s.config, s.store.reviews[k])
    requires forall n :: n in s.runs ==> RunOk(s.store, s.runs[n])
    ensures Inv(s)
  {
    hide RL.Inv, C.Inv, Named, RunOk;
  }

  lemma StepKeeps(s: Sys, op: Op)
    requires Inv(s) && Enabled(s, op)
    ensures Inv(Next(s, op))
  {
    InvParts(s);
    hide Inv, Enabled, StoreAfter, ConfigAfter, RunsAfter, RL.Inv, C.Inv, Named, RunOk, StoreKept, ConfigKept,
         RL.StoreEvolves, C.Evolves;
    StoreStep(s, op);
    KeptStore(s.store, StoreAfter(s, op), LeavesNoneBehind(s, op));
    ConfigStep(s, op);
    KeptParts(s.config, ConfigAfter(s, op), op.Reload?);
    var t := Next(s, op);
    forall k | k in t.store.reviews
      ensures Named(t.config, t.store.reviews[k])
    {
      NamedStep(s, op, k);
    }
    forall n | n in t.runs
      ensures RunOk(t.store, t.runs[n])
    {
      RunStep(s, op, n);
    }
    FromParts(t);
  }

  // ================================================================ theorems over whole runs

  /** One step of a run, taken apart. */
  lemma StepOf(states: seq<Sys>, ops: seq<Op>, i: nat)
    requires IsRun(states, ops) && i < |ops|
    ensures |states| == |ops| + 1 && Enabled(states[i], ops[i])
    ensures states[i + 1]
            == Sys(StoreAfter(states[i], ops[i]), ConfigAfter(states[i], ops[i]), RunsAfter(states[i], ops[i]))
  {
    hide Enabled, StoreAfter, ConfigAfter, RunsAfter;
  }

  lemma RunLength(states: seq<Sys>, ops: seq<Op>)
    requires IsRun(states, ops)
    ensures |states| == |ops| + 1 && states[0].runs == map[]
  {
  }

  lemma InvParts(s: Sys)
    requires Inv(s)
    ensures RL.Inv(s.store) && C.Inv(s.config)
    ensures forall k :: k in s.store.reviews ==> Named(s.config, s.store.reviews[k])
    ensures forall n :: n in s.runs ==> RunOk(s.store, s.runs[n])
  {
    hide RL.Inv, C.Inv, Named, RunOk;
  }

  /** A stored review is sound, and its audit trail agrees with it. */
  lemma StoredHolds(t: Store, id: string)
    requires RL.Inv(t) && id in t.reviews
    ensures RL.Holds(t.reviews[id], TrailOf(t, id), id) && t.reviews[id].instance in t.instances
    ensures t.reviews[id].id == id && RL.Sound(t.reviews[id])
  {
    hide RL.Sound, RL.TrailAgrees;
  }

  lemma StartHolds(states: seq<Sys>, ops: seq<Op>)
    requires IsRun(states, ops)
    ensures Inv(states[0]) && C.TestBacked(states[0].config) && C.KeyAgrees(states[0].config)
    ensures RL.PendingIsOwned(states[0].store)
  {
    var catalog, prompt :| C.ValidCatalog(catalog) && states[0] == Sys(EMPTY_STORE, C.Fresh(catalog, prompt), map[]);
    C.FreshHolds(catalog, prompt);
    hide C.Inv, C.TestBacked, C.KeyAgrees, C.Fresh;
  }

  lemma {:induction false} RunKeepsInv(states: seq<Sys>, ops: seq<Op>, n: nat)
    requires IsRun(states, ops) && n < |states|
    ensures Inv(states[n])
  {
    hide *;
    RunLength(states, ops);
    if n == 0 {
      StartHolds(states, ops);
    } else {
      RunKeepsInv(states, ops, n - 1);
      StepOf(states, ops, n - 1);
      StepKeeps(states[n - 1], ops[n - 1]);
      NextParts(states[n - 1], ops[n - 1]);
    }
  }

  lemma NextParts(s: Sys, op: Op)
    requires Enabled(s, op)
    ensures Next(s, op) == Sys(StoreAfter(s, op), ConfigAfter(s, op), RunsAfter(s, op))
  {
    hide Enabled, StoreAfter, ConfigAfter, RunsAfter;
  }

  /** Review lifecycle over any stretch of any run: nothing is lost, a submission never changes,
      a decision is taken at most once and an execution result is recorded at most once; and the
      configuration history is only extended. */
  lemma {:induction false} Lifecycle(states: seq<Sys>, ops: seq<Op>, i: nat, j: nat)
    requires IsRun(states, ops) && i <= j < |states|
    ensures RL.StoreEvolves(states[i].store, states[j].store)
    ensures C.Evolves(states[i].config, states[j].config)
    decreases j
  {
    hide *;
    RunLength(states, ops);
    if i == j {
      RL.Reflexive(states[i].store);
      C.EvolvesReflexive(states[i].config);
    } else {
      var s, op := states[j - 1], ops[j - 1];
      Lifecycle(states, ops, i, j - 1);
      RunKeepsInv(states, ops, j - 1);
      StepOf(states, ops, j - 1);
      InvParts(s);
      StoreStep(s, op);
      KeptStore(s.store, StoreAfter(s, op), LeavesNoneBehind(s, op));
      ConfigStep(s, op);
      KeptParts(s.config, ConfigAfter(s, op), op.Reload?);
      RL.StoreEvolvesTransitive(states[i].store, s.store, states[j].store);
      C.EvolvesTransitive(states[i].config, s.config, states[j].config);
    }
  }

  /** Prompts that differ at most by the input boundary added for the model. */
  predicate SamePrompt(a: string, b: string) {
    a == b || a == ModelPrompt(b) || b == ModelPrompt(a)
  }

  lemma SameNamed(c: C.State, d: C.State, r: Review, t: Review)
    requires C.Evolves(c, d) && Named(c, r) && Named(d, t) && r.version == t.version
    ensures r.rules == t.rules && r.mode == t.mode && r.modelName == t.modelName && SamePrompt(r.prompt, t.prompt)
    ensures r.node == t.node ==> r.scopes == t.scopes
  {
    hide ModelPrompt;
    ListingIsUnique(r.rules, t.rules);
  }

  /** A configuration version names one configuration: reviews of equal version, seen at any two
      moments of a run, carry the same rules, mode, model and prompt, and on the same node the same scopes. */
  lemma VersionNamesConfiguration(states: seq<Sys>, ops: seq<Op>, i: nat, j: nat, a: string, b: string)
    requires IsRun(states, ops) && i <= j < |states|
    requires a in states[i].store.reviews && b in states[j].store.reviews
    requires states[i].store.reviews[a].version == states[j].store.reviews[b].version
    ensures var r, t := states[i].store.reviews[a], states[j].store.reviews[b];
            && r.rules == t.rules && r.mode == t.mode && r.modelName == t.modelName && SamePrompt(r.prompt, t.prompt)
            && (r.node == t.node ==> r.scopes == t.scopes)
  {
    hide *;
    RunKeepsInv(states, ops, i);
    RunKeepsInv(states, ops, j);
    InvParts(states[i]);
    InvParts(states[j]);
    Lifecycle(states, ops, i, j);
    SameNamed(states[i].config, states[j].config, states[i].store.reviews[a], states[j].store.reviews[b]);
  }

  /** Equal version numbers of stored snapshots and of the settings in force, at any two moments of a
      run, mean equal settings up to the key and the tested flag. */
  lemma VersionNamesSettings(states: seq<Sys>, ops: seq<Op>, i: nat, j: nat, v: int)
    requires IsRun(states, ops) && i <= j < |states|
    requires v in states[i].config.named
    ensures v in states[j].config.named && states[j].config.named[v] == states[i].config.named[v]
    ensures v in states[i].config.versions ==>
              v in states[j].config.versions && states[j].config.versions[v] == states[i].config.versions[v]
              && C.Bare(states[j].config.versions[v]) == states[i].config.named[v].settings
    ensures states[j].config.settings.version == v
            ==> C.Bare(states[j].config.settings) == states[i].config.named[v].settings
  {
    hide *;
    Lifecycle(states, ops, i, j);
    RunKeepsInv(states, ops, i);
    RunKeepsInv(states, ops, j);
    InvParts(states[i]);
    InvParts(states[j]);
    SameSettings(states[i].config, states[j].config, v);
  }

  lemma SameSettings(c: C.State, d: C.State, v: int)
    requires C.Evolves(c, d) && C.Inv(c) && C.Inv(d) && v in c.named
    ensures v in d.named && d.named[v] == c.named[v]
    ensures v in c.versions
            ==> v in d.versions && d.versions[v] == c.versions[v] && C.Bare(d.versions[v]) == c.named[v].settings
    ensures d.settings.version == v ==> C.Bare(d.settings) == c.named[v].settings
  {
    hide C.RulesValid, C.HasBuiltin, C.TestsCurrent;
  }

  /** The audit trail of every stored review holds at most one verdict row and at most one result
      row, and the result row is there exactly when a result is recorded. */
  lemma AuditedOnce(states: seq<Sys>, ops: seq<Op>, n: nat, k: string)
    requires IsRun(states, ops) && n < |states| && k in states[n].store.reviews
    ensures var trail, r := TrailOf(states[n].store, k), states[n].store.reviews[k];
            && RL.CountVerdicts(trail) <= 1 && RL.CountResults(trail) <= 1
            && (r.decision == Pending ==> RL.CountVerdicts(trail) == 0)
            && (RL.CountResults(trail) == 1 <==> r.decision == Approved && r.execution != AwaitingExecution)
  {
    hide IsRun, Inv, RL.Inv, C.Inv, Named, RunOk, RL.Sound, RL.Replay, RL.CountVerdicts, RL.CountResults, TrailOf;
    RunKeepsInv(states, ops, n);
    InvParts(states[n]);
    StoredHolds(states[n].store, k);
    RL.CleanTrailRulesOnce(TrailOf(states[n].store, k));
  }

  /** In every reachable state an approved call whose scripts were not fully captured was approved by a human. */
  lemma IncompleteScriptsNeedHuman(states: seq<Sys>, ops: seq<Op>, n: nat, k: string)
    requires IsRun(states, ops) && n < |states| && k in states[n].store.reviews
    ensures var r := states[n].store.reviews[k];
            && (r.digest.capture == Incomplete && r.decision == Approved
                ==> r.ruleId == HUMAN_RULE && r.path == HumanPath)
            && (r.ruleId == HUMAN_RULE ==> r.path == HumanPath)
            && (r.needsHuman <==> r.decision == Pending && r.path == HumanPath)
            && (r.decidedAt == None <==> r.decision == Pending)
            && (r.decision != Approved ==> r.execution == NotExecuted)
  {
    hide IsRun, Inv, RL.Inv, C.Inv, Named, RunOk, RL.Holds, Key;
    RunKeepsInv(states, ops, n);
    InvParts(states[n]);
    StoredHolds(states[n].store, k);
  }

  /** A restart with a key file that this configuration was tested with, or without the tested flag. */
  ghost predicate SafeReloads(states: seq<Sys>, ops: seq<Op>, n: nat)
    requires n <= |ops| < |states|
  {
    forall i :: 0 <= i < n && ops[i].Reload? ==> C.KeyFileBacked(states[i].config)
  }

  lemma {:induction false} SafeReloadsKeepBacking(states: seq<Sys>, ops: seq<Op>, n: nat)
    requires IsRun(states, ops) && n <= |ops| && SafeReloads(states, ops, n)
    ensures C.TestBacked(states[n].config)
  {
    hide IsRun, Inv, C.TestBacked, C.KeyFileBacked, Enabled, ConfigKept;
    RunLength(states, ops);
    if n == 0 {
      StartHolds(states, ops);
    } else {
      SafeReloadsKeepBacking(states, ops, n - 1);
      RunKeepsInv(states, ops, n - 1);
      StepOf(states, ops, n - 1);
      hide StoreAfter, ConfigAfter, RunsAfter, C.Inv, C.Evolves;
      InvParts(states[n - 1]);
      ConfigStep(states[n - 1], ops[n - 1]);
      KeptParts(states[n - 1].config, states[n].config, ops[n - 1].Reload?);
    }
  }

  /** Up to any moment of a run the tested flag has always been backed by a successful test of exactly
      the configuration in use, however tests and saves interleave, if and only if every restart so
      far found a key file that the flag was backed for. */
  lemma TestedIsBackedIff(states: seq<Sys>, ops: seq<Op>, n: nat)
    requires IsRun(states, ops) && n <= |ops|
    ensures SafeReloads(states, ops, n) <==> forall i :: 0 <= i <= n ==> C.TestBacked(states[i].config)
  {
    hide IsRun, C.TestBacked, C.KeyFileBacked;
    RunLength(states, ops);
    if SafeReloads(states, ops, n) {
      forall i | 0 <= i <= n
        ensures C.TestBacked(states[i].config)
      {
        SafeReloadsKeepBacking(states, ops, i);
      }
    }
    if forall i :: 0 <= i <= n ==> C.TestBacked(states[i].config) {
      forall i | 0 <= i < n && ops[i].Reload?
        ensures C.KeyFileBacked(states[i].config)
      {
        assert C.TestBacked(states[i + 1].config);
        ReloadIsJudged(states, ops, i);
      }
    }
  }

  lemma ReloadIsJudged(states: seq<Sys>, ops: seq<Op>, i: nat)
    requires IsRun(states, ops) && i < |ops| && ops[i].Reload? && C.TestBacked(states[i + 1].config)
    ensures C.KeyFileBacked(states[i].config)
  {
    hide *;
    StepOf(states, ops, i);
    RunKeepsInv(states, ops, i);
    InvParts(states[i]);
    ConfigStep(states[i], ops[i]);
    KeptParts(states[i].config, ConfigAfter(states[i], ops[i]), true);
  }

  /** Model mode is only ever on for a configuration that passed a test, as long as restarts are safe. */
  lemma ModelModeIsTested(states: seq<Sys>, ops: seq<Op>, n: nat)
    requires IsRun(states, ops) && n <= |ops| && SafeReloads(states, ops, n)
    ensures states[n].config.settings.mode == ModelMode ==>
              C.ModelOf(states[n].config.settings) in states[n].config.passed
  {
    SafeReloadsKeepBacking(states, ops, n);
    RunKeepsInv(states, ops, n);
    hide IsRun, RL.Inv, Named, RunOk, SafeReloads;
  }

  /** A save whose commit and key rollback both fail is the only step that takes the key in memory off the disk. */
  predicate LosesKey(s: Sys, op: Op) {
    op.SaveSettings? && C.LeavesForeignKey(s.config, op.key, op.writes)
  }

  lemma KeyStep(s: Sys, op: Op)
    requires C.Inv(s.config) && Enabled(s, op) && C.KeyAgrees(s.config) && !LosesKey(s, op)
    ensures C.KeyAgrees(ConfigAfter(s, op))
  {
    var c := s.config;
    hide C.Inv;
    match op
    case SaveSettings(settings, key, urlOk, writes) =>
      if C.SaveSettingsError(c, settings, key, urlOk) == None {
        hide C.SaveSettingsError, C.AfterSaveSettings, C.TestBacked, C.Evolves;
        C.SaveSettingsKeeps(c, settings, key, urlOk, writes);
      }
    case FinishTest(t, success, committed) =>
      hide C.AfterFinishTest, C.TestBacked, C.Evolves;
      C.FinishTestKeeps(c, t, success, committed);
    case _ =>
  }

  /** Without such a save every restart is safe. */
  lemma {:induction false} KeyOnDiskIsSafe(states: seq<Sys>, ops: seq<Op>, n: nat)
    requires IsRun(states, ops) && n <= |ops| && forall i :: 0 <= i < n ==> !LosesKey(states[i], ops[i])
    ensures C.KeyAgrees(states[n].config) && SafeReloads(states, ops, n)
  {
    if n == 0 {
      StartHolds(states, ops);
    } else {
      KeyOnDiskIsSafe(states, ops, n - 1);
      SafeReloadsKeepBacking(states, ops, n - 1);
      RunKeepsInv(states, ops, n - 1);
      assert Enabled(states[n - 1], ops[n - 1]) && states[n] == Next(states[n - 1], ops[n - 1]);
      assert C.Inv(states[n - 1].config) && C.KeyFileBacked(states[n - 1].config);
      hide C.Inv, Enabled, IsRun, Inv, C.KeyAgrees, C.TestBacked, C.KeyFileBacked, StoreAfter, ConfigAfter, RunsAfter,
           LosesKey;
      KeyStep(states[n - 1], ops[n - 1]);
    }
  }

  /** While disconnects commit all their cancellations, every pending review of every reachable
      state belongs to a registered instance that is not disconnected. */
  lemma {:induction false} PendingReviewsAreOwned(states: seq<Sys>, ops: seq<Op>, n: nat)
    requires IsRun(states, ops) && n < |states|
    requires forall i :: 0 <= i < n && ops[i].Disconnect? && ops[i].committed ==>
               ops[i].done == PendingOf(states[i].store, ops[i].id)
    ensures RL.PendingIsOwned(states[n].store)
  {
    hide IsRun, Inv, Enabled, StoreAfter, ConfigAfter, RunsAfter, StoreKept, PendingOf, RL.PendingIsOwned, RL.Inv,
         C.Inv, RL.StoreEvolves;
    RunLength(states, ops);
    if n == 0 {
      StartHolds(states, ops);
    } else {
      var s, op := states[n - 1], ops[n - 1];
      PendingReviewsAreOwned(states, ops, n - 1);
      RunKeepsInv(states, ops, n - 1);
      StepOf(states, ops, n - 1);
      InvParts(s);
      StoreStep(s, op);
      assert LeavesNoneBehind(s, op);
      KeptStore(s.store, states[n].store, LeavesNoneBehind(s, op));
    }
  }
}
