/** The engine's methods are the steps of a run: each moves an engine object exactly as System.Next says. */
module EngineSteps {
  import opened Common
  import opened Policy
  import opened Reviews
  import C = Config
  import S = System
  import opened EngineObject

  /** An engine as the state of a run without hooks. */
  ghost function StateOf(e: Engine): S.Sys
    reads e
  {
    S.Sys(e.Records(), e.Settled(), map[])
  }

  method PerformInstance(e: Engine, op: S.Op)
    requires e.Valid() && S.Enabled(StateOf(e), op) && (op.Register? || op.Heartbeat?)
    modifies e
    ensures e.Valid() && StateOf(e) == S.Next(old(StateOf(e)), op)
  {
    hide RegisterError, HeartbeatError, AfterRegister, AfterHeartbeat, C.RulesValid;
    match op {
      case Register(i, remoteOk, version, now, committed) => var _ := e.Register(i, remoteOk, version, now, committed);
      case Heartbeat(id, activity, now, committed) => var _ := e.Heartbeat(id, activity, now, committed);
    }
  }

  lemma RepeatChangesNothing(t: Store, id: string, digest: Digest, v: Verdict, comment: string, now: int)
    requires DecideError(t, id, digest, v, comment, now) == None && t.reviews[id].decision != Pending
    ensures AfterDecide(t, id, digest, v, comment, now) == t
  {
  }

  method PerformDecide(e: Engine, op: S.Op)
    requires e.Valid() && S.Enabled(StateOf(e), op) && op.Decide?
    modifies e
    ensures e.Valid() && StateOf(e) == S.Next(old(StateOf(e)), op)
  {
    ghost var t := e.Records();
    if DecideError(t, op.id, op.digest, op.verdict, op.comment, op.now) == None
      && t.reviews[op.id].decision != Pending {
      RepeatChangesNothing(t, op.id, op.digest, op.verdict, op.comment, op.now);
    }
    hide DecideError, AfterDecide, C.RulesValid;
    var _ := e.Decide(op.id, op.digest, op.verdict, op.comment, op.now, op.committed);
  }

  method PerformVerdict(e: Engine, op: S.Op)
    requires e.Valid() && S.Enabled(StateOf(e), op) && (op.ModelReply? || op.Result?)
    modifies e
    ensures e.Valid() && StateOf(e) == S.Next(old(StateOf(e)), op)
  {
    hide ResultError, AfterModel, AfterResult, C.RulesValid, ValidModelRuling;
    match op {
      case ModelReply(id, ruling, now, committed) => e.FinishModelReview(id, ruling, now, true, committed);
      case Result(id, instance, state, text, committed) => var _ := e.Result(id, instance, state, text, committed);
    }
  }

  lemma StoredIsReplayed(t: Store, snap: Snapshot, i: Input, hit: Option<ScopeHit>, facts: Call, now: int)
    requires SubmitError(t, i, now) == None && Key(i.instance, i.call) in t.reviews
    ensures AfterSubmit(t, snap, i, hit, facts, now) == t
  {
  }

  method PerformSubmit(e: Engine, op: S.Op)
    requires e.Valid() && S.Enabled(StateOf(e), op) && op.Submit?
    modifies e
    ensures e.Valid() && StateOf(e) == S.Next(old(StateOf(e)), op)
  {
    ghost var t, snap := e.Records(), S.SnapshotOf(e.Settled(), op.listing);
    if SubmitError(t, op.input, op.now) == None && Key(op.input.instance, op.input.call) in t.reviews {
      StoredIsReplayed(t, snap, op.input, op.hit, op.facts, op.now);
    }
    hide SubmitError, AfterSubmit, Key, C.RulesValid, S.SnapshotOf;
    var _, _, listing := e.Submit(op.input, op.hit, op.facts, op.now, op.committed);
    assert listing == op.listing by {
      ListingIsUnique(listing, op.listing);
    }
  }

  /** Which cancellations of a disconnect, a sweep or a restart are committed decides the step. */
  method PerformDisconnect(e: Engine, id: string, now: int, committed: bool, failing: set<string>)
    returns (ghost op: S.Op)
    requires e.Valid()
    modifies e
    ensures op.Disconnect? && op.id == id && S.Enabled(old(StateOf(e)), op)
    ensures e.Valid() && StateOf(e) == S.Next(old(StateOf(e)), op)
  {
    hide AfterDisconnect, PendingOf, C.RulesValid;
    var _, done := e.Disconnect(id, now, committed, failing);
    op := S.Disconnect(id, done, now, committed);
  }

  method PerformExpire(e: Engine, now: int, failing: set<string>) returns (ghost op: S.Op)
    requires e.Valid()
    modifies e
    ensures op.Expire? && op.now == now && S.Enabled(old(StateOf(e)), op)
    ensures e.Valid() && StateOf(e) == S.Next(old(StateOf(e)), op)
  {
    op := S.Expire(DueKeys(e.Records(), now) - failing, now);
    hide AfterExpire, DueKeys, C.RulesValid;
    e.Expire(now, failing);
  }

  method PerformRestart(e: Engine, now: int, failing: set<string>) returns (finished: bool, ghost op: S.Op)
    requires e.Valid()
    modifies e
    ensures op.RestartCancel? && op.now == now && S.Enabled(old(StateOf(e)), op)
    ensures e.Valid() && StateOf(e) == S.Next(old(StateOf(e)), op)
  {
    hide AfterRestart, PendingKeys, C.RulesValid;
    ghost var done;
    finished, done := e.CancelPending(now, failing);
    op := S.RestartCancel(done, now);
  }

  method PerformLost(e: Engine, stuck: set<string>) returns (ghost op: S.Op)
    requires e.Valid() && PendingKeys(e.Records()) == {}
    modifies e
    ensures op.RestartInstances? && S.Enabled(old(StateOf(e)), op)
    ensures e.Valid() && StateOf(e) == S.Next(old(StateOf(e)), op)
  {
    op := S.RestartInstances(e.instances.Keys - stuck);
    hide AfterInstancesLost, PendingKeys, C.RulesValid;
    e.MarkInstancesLost(stuck);
  }

  method PerformRules(e: Engine, op: S.Op)
    requires e.Valid() && S.Enabled(StateOf(e), op) && (op.SaveRule? || op.DeleteRule?)
    modifies e
    ensures e.Valid() && StateOf(e) == S.Next(old(StateOf(e)), op)
  {
    hide C.SaveRuleError, C.AfterSaveRule, C.AfterDeleteRule, C.RulesValid;
    match op {
      case SaveRule(r, ids, patternOk, textOk, committed) => var _ := e.SaveRule(r, ids, patternOk, textOk, committed);
      case DeleteRule(id, committed) => var _ := e.DeleteRule(id, committed);
    }
  }

  method PerformScopes(e: Engine, op: S.Op)
    requires e.Valid() && S.Enabled(StateOf(e), op) && (op.SaveScope? || op.DeleteScope?)
    modifies e
    ensures e.Valid() && StateOf(e) == S.Next(old(StateOf(e)), op)
  {
    hide C.AfterSaveScope, C.AfterDeleteScope, C.RulesValid;
    match op {
      case SaveScope(scope, valid, committed) => var _ := e.SaveScope(scope, valid, committed);
      case DeleteScope(id, committed) => var _ := e.DeleteScope(id, committed);
    }
  }

  method PerformSave(e: Engine, op: S.Op)
    requires e.Valid() && S.Enabled(StateOf(e), op) && op.SaveSettings? && (op.writes == C.KeyFailed ==> op.key.Some?)
    modifies e
    ensures e.Valid() && StateOf(e) == S.Next(old(StateOf(e)), op)
  {
    hide C.SaveSettingsError, C.AfterSaveSettings, C.RulesValid;
    var _ := e.SaveSettings(op.settings, op.key, op.urlOk, op.writes != C.KeyFailed,
                            op.writes == C.Written, op.writes == C.CommitRolledBack);
  }

  method PerformTest(e: Engine, op: S.Op)
    requires e.Valid() && S.Enabled(StateOf(e), op) && (op.BeginTest? || op.FinishTest?)
    modifies e
    ensures e.Valid() && StateOf(e) == S.Next(old(StateOf(e)), op)
  {
    hide C.FinishTestError, C.AfterFinishTest, C.AfterBeginTest, C.RulesValid;
    match op {
      case BeginTest(t) => e.BeginTest(t);
      case FinishTest(t, success, committed) => var _ := e.FinishTest(t, success, true, committed);
    }
  }

  /** A start begins with a reload and the prompt migration, two steps of a run. */
  method PerformReload(e: Engine, prompt: string, committed: bool) returns (migrated: bool)
    requires e.Valid()
    modifies e
    ensures e.Valid()
    ensures S.Enabled(old(StateOf(e)), S.Reload)
    ensures var mid := S.Next(old(StateOf(e)), S.Reload);
            && S.Enabled(mid, S.UpgradePrompt(prompt, migrated))
            && StateOf(e) == S.Next(mid, S.UpgradePrompt(prompt, migrated))
  {
    hide C.AfterReload, C.AfterUpgradePrompt, C.RulesValid;
    migrated := e.Reload(prompt, committed);
  }

  lemma NothingToAdd(c: C.State, catalog: seq<C.Preset>)
    requires C.Added(c.rules, catalog) == []
    ensures C.AfterUpgradeRules(c, catalog) == c
  {
  }

  method PerformCatalog(e: Engine, op: S.Op)
    requires e.Valid() && S.Enabled(StateOf(e), op) && op.UpgradeRules?
    modifies e
    ensures e.Valid() && StateOf(e) == S.Next(old(StateOf(e)), op)
  {
    if C.Added(e.rules, op.catalog) == [] {
      NothingToAdd(e.Settled(), op.catalog);
    }
    hide C.AfterUpgradeRules, C.Added, C.RulesValid, C.ValidCatalog;
    var _ := e.UpgradeRules(op.catalog, op.committed);
  }
}
