/** What operations bring about: live sessions, verdicts in time, and edits that the next submission reads. */
module Effects {
  import opened Common
  import opened Policy
  import opened Reviews
  import RL = ReviewLemmas
  import C = Config
  import opened Bridge
  import opened System
  import opened Rulings

  // ---------------------------------------------------------------- sessions

  /** A registration or heartbeat of the instance that goes through. */
  ghost predicate SeesInstance(s: Sys, op: Op, id: string) {
    || (op.Register? && op.instance.id == id && op.committed
        && RegisterError(s.store, op.instance, op.remoteOk, op.hookVersion) == None)
    || (op.Heartbeat? && op.id == id && op.committed
        && id in s.store.instances && s.store.instances[id].state != Disconnected)
  }

  lemma SeenIsStored(s: Sys, op: Op, id: string)
    requires Enabled(s, op) && SeesInstance(s, op, id)
    ensures var t := StoreAfter(s, op);
            && id in t.instances && t.instances[id].state != Disconnected && t.instances[id].heartbeat == op.now
            && t.reviews == s.store.reviews
  {
    hide RegisterError;
  }

  /** A call with all its fields. */
  predicate CompleteCall(i: Input) {
    i.call != "" && i.tool != "" && i.arguments.Some?
  }

  lemma LiveIsAdmitted(t: Store, i: Input, seen: int, now: int)
    requires i.instance in t.instances && t.instances[i.instance].state != Disconnected
    requires t.instances[i.instance].heartbeat == seen && CompleteCall(i) && Key(i.instance, i.call) !in t.reviews
    ensures SubmitError(t, i, now) == None <==> now <= seen + 30_000_000_000
  {
    hide Key;
  }

  lemma LiveIsNotSwept(t: Store, k: string, seen: int, now: int)
    requires k in t.reviews && t.reviews[k].instance in t.instances
    requires t.instances[t.reviews[k].instance].state != Disconnected
    requires t.instances[t.reviews[k].instance].heartbeat == seen && now < seen + 30_000_000_000
    ensures k in DueKeys(t, now) <==> t.reviews[k].decision == Pending && now > t.reviews[k].deadline
  {
  }

  lemma SeenIsTimed(s: Sys, op: Op, id: string)
    requires SeesInstance(s, op, id)
    ensures op.Register? || op.Heartbeat?
  {
    hide RegisterError;
  }

  /** A registration or heartbeat keeps the instance admitted for thirty seconds: a complete new call of
      it is accepted exactly until then. */
  lemma SeenIsAdmitted(states: seq<Sys>, ops: seq<Op>, n: nat, i: Input, now: int)
    requires IsRun(states, ops) && n < |ops| && SeesInstance(states[n], ops[n], i.instance)
    requires CompleteCall(i) && Key(i.instance, i.call) !in states[n].store.reviews
    ensures ops[n].Register? || ops[n].Heartbeat?
    ensures SubmitError(states[n + 1].store, i, now) == None <==> now <= ops[n].now + 30_000_000_000
  {
    hide *;
    RunLength(states, ops);
    StepOf(states, ops, n);
    SeenIsTimed(states[n], ops[n], i.instance);
    SeenIsStored(states[n], ops[n], i.instance);
    LiveIsAdmitted(states[n + 1].store, i, ops[n].now, now);
  }

  /** And until then no sweep closes a review of it before the review's own deadline. */
  lemma SeenKeepsReviews(states: seq<Sys>, ops: seq<Op>, n: nat, k: string, now: int)
    requires IsRun(states, ops) && n < |ops| && k in states[n].store.reviews
    requires SeesInstance(states[n], ops[n], states[n].store.reviews[k].instance)
    ensures ops[n].Register? || ops[n].Heartbeat?
    ensures now < ops[n].now + 30_000_000_000 ==>
              (k in DueKeys(states[n + 1].store, now) <==>
                 states[n].store.reviews[k].decision == Pending && now > states[n].store.reviews[k].deadline)
  {
    hide *;
    RunLength(states, ops);
    StepOf(states, ops, n);
    SeenIsTimed(states[n], ops[n], states[n].store.reviews[k].instance);
    SeenIsStored(states[n], ops[n], states[n].store.reviews[k].instance);
    if now < ops[n].now + 30_000_000_000 {
      LiveIsNotSwept(states[n + 1].store, k, ops[n].now, now);
    }
  }

  /** Which registrations of a new instance go through. */
  lemma NewInstanceIsRegistered(t: Store, i: Instance, remoteOk: bool, version: string)
    requires i.id !in t.instances
    ensures RegisterError(t, i, remoteOk, version) == None <==>
              && i.id != "" && i.session != "" && version == "0.1.0"
              && i.agent in {"", "pi", "claude", "codex", "opencode", "grok"}
              && (if i.node == "" then i.cwd != "" && i.cwd[0] == '/' else remoteOk)
  {
    assert "/" <= i.cwd <==> i.cwd != "" && i.cwd[0] == '/';
  }

  /** One session of one agent in one directory of one machine. */
  predicate Alike(a: Instance, b: Instance) {
    a.session == b.session && a.cwd == b.cwd && a.agent == b.agent && a.node == b.node
  }

  /** A known instance can only register again as what it was; a remote one on the same platform too. */
  lemma KnownInstanceIsRegistered(t: Store, i: Instance, remoteOk: bool, version: string)
    requires i.id in t.instances && t.instances[i.id].agent != ""
    ensures RegisterError(t, i, remoteOk, version) == None <==>
              && i.id != "" && i.session != "" && version == "0.1.0"
              && i.agent in {"", "pi", "claude", "codex", "opencode", "grok"}
              && (if i.node == "" then i.cwd != "" && i.cwd[0] == '/' else remoteOk)
              && Alike(t.instances[i.id], i.(agent := if i.agent == "" then "pi" else i.agent))
              && (i.node != "" ==> t.instances[i.id].platform == i.platform)
  {
    assert "/" <= i.cwd <==> i.cwd != "" && i.cwd[0] == '/';
  }

  /** What a registration stores: the installations named now, none for a remote agent, everything seen so
      far as observed, each once, and an idle live instance with the identity it first had. */
  lemma RegistrationRecords(t: Store, i: Instance, now: int)
    ensures var u := AfterRegister(t, i, now).instances[i.id];
            && u.installations == (if i.node == "" then i.installations else [])
            && (forall x :: x in u.observed <==>
                  || x in u.installations
                  || (i.id in t.instances && (x in t.instances[i.id].observed || x in t.instances[i.id].installations)))
            && (i.id in t.instances && Distinct(t.instances[i.id].observed) ==> Distinct(u.observed))
            && (i.id !in t.instances ==> Distinct(u.observed))
            && u.state == Idle && u.heartbeat == now && u.reason == NoReason && u.online
            && (i.id in t.instances ==> Alike(t.instances[i.id], u) && t.instances[i.id].platform == u.platform)
            && (i.id !in t.instances ==>
                  && u.id == i.id && u.session == i.session && u.cwd == i.cwd && u.node == i.node
                  && u.platform == i.platform && u.agent == if i.agent == "" then "pi" else i.agent)
  {
  }

  /** A disconnected instance can only come back by registering. */
  lemma DisconnectedIsRefused(t: Store, i: Input, now: int)
    requires i.instance in t.instances && t.instances[i.instance].state == Disconnected
    ensures SubmitError(t, i, now) == Some(InstanceGone)
    ensures HeartbeatError(t, i.instance) == Some(InstanceGone)
  {
    hide Key;
  }

  // ---------------------------------------------------------------- verdicts

  /** A step that takes the decision on a review. */
  predicate TakesDecision(s: Store, t: Store, k: string) {
    k in s.reviews && s.reviews[k].decision == Pending && k in t.reviews && t.reviews[k].decision != Pending
  }

  lemma DecideInTime(t: Store, op: Op, k: string)
    requires op.Decide? && DecideError(t, op.id, op.digest, op.verdict, op.comment, op.now) == None
    requires TakesDecision(t, AfterDecide(t, op.id, op.digest, op.verdict, op.comment, op.now), k) && RL.Inv(t)
    ensures var r := AfterDecide(t, op.id, op.digest, op.verdict, op.comment, op.now).reviews[k];
            op.id == k && op.now <= t.reviews[k].deadline && r.decidedAt == Some(op.now)
  {
    StoredHolds(t, op.id);
    hide RL.Inv, RL.Holds, RL.Sound;
  }

  lemma ModelInTime(t: Store, op: Op, k: string)
    requires op.ModelReply? && op.id in t.tasks && RL.Inv(t)
    requires TakesDecision(t, AfterModel(t, op.id, op.ruling, op.now, op.committed), k)
    ensures var r := AfterModel(t, op.id, op.ruling, op.now, op.committed).reviews[k];
            op.id == k && op.now <= t.reviews[k].deadline && r.decidedAt == Some(op.now)
  {
    TaskIsStored(t, op.id);
    StoredHolds(t, op.id);
    hide RL.Inv, RL.Holds, RL.Sound;
  }

  lemma TaskIsStored(t: Store, id: string)
    requires RL.Inv(t) && id in t.tasks
    ensures id in t.reviews
  {
    hide RL.Holds;
  }

  /** No human and no model verdict lands after the review's deadline. */
  lemma VerdictIsInTime(states: seq<Sys>, ops: seq<Op>, n: nat, k: string)
    requires IsRun(states, ops) && n < |ops| && TakesDecision(states[n].store, states[n + 1].store, k)
    requires ops[n].Decide? || ops[n].ModelReply?
    ensures ops[n].id == k && ops[n].now <= states[n].store.reviews[k].deadline
    ensures states[n + 1].store.reviews[k].decidedAt == Some(ops[n].now)
  {
    hide *;
    RunLength(states, ops);
    StepOf(states, ops, n);
    RunKeepsInv(states, ops, n);
    InvParts(states[n]);
    VerdictStore(states[n], ops[n]);
    if ops[n].Decide? {
      StillPending(states[n].store, k);
      if DecideError(states[n].store, ops[n].id, ops[n].digest, ops[n].verdict, ops[n].comment, ops[n].now) == None
         && ops[n].committed {
        DecideInTime(states[n].store, ops[n], k);
      }
    } else {
      ModelInTime(states[n].store, ops[n], k);
    }
  }

  lemma StillPending(t: Store, k: string)
    ensures !TakesDecision(t, t, k)
  {
  }

  lemma VerdictStore(s: Sys, op: Op)
    requires Enabled(s, op)
    ensures op.Decide? ==>
              StoreAfter(s, op)
              == if op.committed && DecideError(s.store, op.id, op.digest, op.verdict, op.comment, op.now) == None
                 then AfterDecide(s.store, op.id, op.digest, op.verdict, op.comment, op.now)
                 else s.store
    ensures op.ModelReply? ==>
              op.id in s.store.tasks && StoreAfter(s, op) == AfterModel(s.store, op.id, op.ruling, op.now, op.committed)
  {
    hide DecideError, AfterDecide, AfterModel, ValidModelRuling;
  }

  /** A human's answer to exactly this call, with a reason if it is a rejection. */
  predicate Answers(op: Op, r: Review) {
    && op.Decide? && op.committed && op.id == r.id && op.digest == r.digest
    && (op.verdict == Approve || (op.verdict == Reject && op.comment != ""))
  }

  lemma AnswerDecides(t: Store, op: Op)
    requires op.Decide? && op.id in t.reviews && Answers(op, t.reviews[op.id])
    requires t.reviews[op.id].decision == Pending && t.reviews[op.id].path == HumanPath
    ensures op.now > t.reviews[op.id].deadline ==>
              DecideError(t, op.id, op.digest, op.verdict, op.comment, op.now) == Some(DeadlinePassed)
    ensures op.now <= t.reviews[op.id].deadline ==>
              && DecideError(t, op.id, op.digest, op.verdict, op.comment, op.now) == None
              && var r := AfterDecide(t, op.id, op.digest, op.verdict, op.comment, op.now).reviews[op.id];
                 && r.decision == (if op.verdict == Approve then Approved else Rejected)
                 && (r.execution == AwaitingExecution <==>
                       op.verdict == Approve || t.reviews[op.id].execution == AwaitingExecution)
                 && r.ruleId == "HUMAN" && r.comment != "" && (op.comment != "" ==> r.comment == op.comment)
                 && r.decidedAt == Some(op.now) && !r.needsHuman
  {
  }

  /** A human's answer decides a review left to humans exactly when it comes by the deadline. */
  lemma HumanAnswerTakesEffect(states: seq<Sys>, ops: seq<Op>, n: nat)
    requires IsRun(states, ops) && n < |ops| && ops[n].Decide? && ops[n].id in states[n].store.reviews
    requires var r := states[n].store.reviews[ops[n].id];
             Answers(ops[n], r) && r.decision == Pending && r.path == HumanPath
    ensures ops[n].now > states[n].store.reviews[ops[n].id].deadline ==> states[n + 1].store == states[n].store
    ensures ops[n].now <= states[n].store.reviews[ops[n].id].deadline ==>
              && ops[n].id in states[n + 1].store.reviews
              && var r := states[n + 1].store.reviews[ops[n].id];
                 && r.decision == (if ops[n].verdict == Approve then Approved else Rejected)
                 && (r.execution == AwaitingExecution <==> ops[n].verdict == Approve)
                 && r.ruleId == "HUMAN" && (ops[n].comment != "" ==> r.comment == ops[n].comment)
  {
    hide *;
    RunLength(states, ops);
    StepOf(states, ops, n);
    RunKeepsInv(states, ops, n);
    InvParts(states[n]);
    IsCommitted(ops[n], states[n].store.reviews[ops[n].id]);
    NotAwaiting(states[n].store, ops[n].id);
    VerdictStore(states[n], ops[n]);
    AnswerDecides(states[n].store, ops[n]);
    DecideKeepsKeys(states[n].store, ops[n]);
  }

  lemma IsCommitted(op: Op, r: Review)
    requires Answers(op, r)
    ensures op.Decide? && op.committed
  {
  }

  lemma NotAwaiting(t: Store, k: string)
    requires RL.Inv(t) && k in t.reviews && t.reviews[k].decision == Pending
    ensures t.reviews[k].execution != AwaitingExecution
  {
    StoredHolds(t, k);
    hide RL.Inv, RL.Holds;
  }

  lemma DecideKeepsKeys(t: Store, op: Op)
    requires op.Decide? && op.id in t.reviews
    ensures DecideError(t, op.id, op.digest, op.verdict, op.comment, op.now) == None ==>
              op.id in AfterDecide(t, op.id, op.digest, op.verdict, op.comment, op.now).reviews
  {
    hide DecideError;
  }

  lemma ReplyDecides(t: Store, op: Op)
    requires op.ModelReply? && op.committed && op.id in t.tasks && op.id in t.reviews && t.reviews[op.id].id == op.id
    requires t.reviews[op.id].decision == Pending && !t.reviews[op.id].needsHuman && ValidModelRuling(op.ruling)
    ensures var u := AfterModel(t, op.id, op.ruling, op.now, true);
            && op.id in u.reviews && op.id !in u.tasks
            && ModelOutcome(t.reviews[op.id], u.reviews[op.id], op.ruling, op.now)
  {
  }

  /** In time, a rejection rejects, an approval approves what was captured completely and hands anything
      else to a human; too late, nothing changes. */
  predicate ModelOutcome(r: Review, t: Review, d: Ruling, now: int) {
    && (now > r.deadline ==> t == r)
    && (now <= r.deadline && d.verdict == Reject ==>
          t.decision == Rejected && t.ruleId == d.ruleId && t.comment == d.comment && t.decidedAt == Some(now))
    && (now <= r.deadline && d.verdict == Approve && r.digest.capture != Incomplete ==>
          && t.decision == Approved && t.execution == AwaitingExecution && t.ruleId == d.ruleId
          && t.comment == d.comment && t.decidedAt == Some(now))
    && (now <= r.deadline && d.verdict == Approve && r.digest.capture == Incomplete ==>
          && t.decision == Pending && t.needsHuman && t.path == HumanPath && t.deadline == r.deadline
          && t.decidedAt == None)
  }

  /** What the end of a model request does to its review. */
  lemma ModelReplyTakesEffect(states: seq<Sys>, ops: seq<Op>, n: nat)
    requires IsRun(states, ops) && n < |ops| && ops[n].ModelReply? && ops[n].committed
    requires ops[n].id in states[n].store.reviews
    requires var r := states[n].store.reviews[ops[n].id]; r.decision == Pending && !r.needsHuman
    ensures ops[n].id in states[n + 1].store.reviews
    ensures ModelOutcome(states[n].store.reviews[ops[n].id], states[n + 1].store.reviews[ops[n].id],
                         ops[n].ruling, ops[n].now)
  {
    hide *;
    RunLength(states, ops);
    StepOf(states, ops, n);
    RunKeepsInv(states, ops, n);
    InvParts(states[n]);
    StoredHolds(states[n].store, ops[n].id);
    VerdictStore(states[n], ops[n]);
    RulingIsValid(states[n], ops[n]);
    ReplyDecides(states[n].store, ops[n]);
  }

  lemma RulingIsValid(s: Sys, op: Op)
    requires Enabled(s, op) && op.ModelReply?
    ensures ValidModelRuling(op.ruling)
  {
    hide ValidModelRuling;
  }

  // ---------------------------------------------------------------- edits in force

  /** The operations that can change rules, scopes or settings. */
  predicate EditsConfig(op: Op) {
    || op.Reload? || op.UpgradePrompt? || op.UpgradeRules? || op.SaveRule? || op.DeleteRule? || op.SaveScope?
    || op.DeleteScope? || op.SaveSettings? || op.FinishTest?
  }

  /** The tables and settings a submission reads. */
  predicate SameConfig(c: C.State, d: C.State) {
    c.rules == d.rules && c.scopes == d.scopes && c.settings == d.settings
  }

  lemma UneditedStays(s: Sys, op: Op)
    requires Enabled(s, op) && !EditsConfig(op)
    ensures SameConfig(s.config, ConfigAfter(s, op))
  {
    hide Enabled;
  }

  lemma {:induction false} ConfigStays(states: seq<Sys>, ops: seq<Op>, i: nat, j: nat)
    requires IsRun(states, ops) && i <= j <= |ops| && forall m :: i <= m < j ==> !EditsConfig(ops[m])
    ensures i < |states| && j < |states| && SameConfig(states[i].config, states[j].config)
    decreases j
  {
    RunLength(states, ops);
    hide IsRun, EditsConfig, Enabled, StoreAfter, ConfigAfter, RunsAfter;
    if i < j {
      ConfigStays(states, ops, i, j - 1);
      StepOf(states, ops, j - 1);
      UneditedStays(states[j - 1], ops[j - 1]);
    }
  }

  /** What a fresh review carries of the configuration it was submitted under: all rules of the table,
      the scopes of its node, and the settings. */
  ghost predicate CarriesConfig(r: Review, c: C.State) {
    && (forall q :: q in r.rules <==> q.id in c.rules && c.rules[q.id] == q)
    && (forall sc :: sc in r.scopes <==> sc.node == r.node && exists id :: id in c.scopes && c.scopes[id] == sc)
    && r.mode == c.settings.mode && r.version == c.settings.version && r.modelName == c.settings.modelName
    && (r.path != ModelPath ==> r.prompt == c.settings.prompt)
    && (r.path == ModelPath ==>
          && |r.prompt| >= |c.settings.prompt| && r.prompt[..|c.settings.prompt|] == c.settings.prompt
          && exists i :: 0 <= i <= |r.prompt| && OccursAt(r.prompt, i, REVIEW_INPUT_BOUNDARY))
  }

  lemma NewReviewCarries(t: Store, c: C.State, listing: seq<Rule>, i: Input, hit: Option<ScopeHit>, facts: Call,
                         now: int)
    requires i.instance in t.instances && i.arguments.Some? && IsListing(listing, c.rules)
    ensures CarriesConfig(NewReview(t, SnapshotOf(c, listing), i, hit, facts, now), c)
  {
    BoundaryIsThere(c.settings.prompt);
    hide PolicyRuling, Key, InOrder, WellFormed, ModelPrompt, OccursAt;
  }

  lemma BoundaryIsThere(prompt: string)
    ensures |ModelPrompt(prompt)| >= |prompt| && ModelPrompt(prompt)[..|prompt|] == prompt
    ensures exists i :: 0 <= i <= |ModelPrompt(prompt)| && OccursAt(ModelPrompt(prompt), i, REVIEW_INPUT_BOUNDARY)
  {
    var whole := prompt + "\n\n" + REVIEW_INPUT_BOUNDARY;
    assert whole[|prompt| + 2..|prompt| + 2 + |REVIEW_INPUT_BOUNDARY|] == REVIEW_INPUT_BOUNDARY;
    assert OccursAt(whole, |prompt| + 2, REVIEW_INPUT_BOUNDARY);
    assert prompt[..|prompt|] == prompt && whole[..|prompt|] == prompt;
  }

  lemma SubmissionCarries(states: seq<Sys>, ops: seq<Op>, n: nat, k: string)
    requires IsRun(states, ops) && n < |ops| && Adds(states[n], ops[n], k)
    ensures k in states[n + 1].store.reviews && CarriesConfig(states[n + 1].store.reviews[k], states[n].config)
  {
    hide *;
    RunLength(states, ops);
    var s, op := states[n], ops[n];
    StepOf(states, ops, n);
    AddsParts(s, op, k);
    AddedReview(s, op, k);
    NewReviewCarries(s.store, s.config, op.listing, InputOf(s, op), op.hit, op.facts, op.now);
  }

  /** What an edit that goes through changes, and that it changes nothing else. */
  ghost predicate EditHolds(c: C.State, op: Op, d: C.State) {
    match op
    case SaveRule(r, ids, patternOk, textOk, committed) =>
      committed && C.SaveRuleError(r, ids, patternOk, textOk) == None ==>
        && r.id in d.rules && d.rules[r.id] == r.(builtin := r.id in ids)
        && (forall id :: id != r.id ==>
              (id in d.rules <==> id in c.rules) && (id in c.rules ==> d.rules[id] == c.rules[id]))
        && d.scopes == c.scopes && d.settings == c.settings.(version := c.settings.version + 1)
    case DeleteRule(id, committed) =>
      committed && |id| >= 2 && id[..2] == "U_" ==>
        && id !in d.rules
        && (forall k :: k != id ==> (k in d.rules <==> k in c.rules) && (k in c.rules ==> d.rules[k] == c.rules[k]))
        && d.scopes == c.scopes && d.settings == c.settings.(version := c.settings.version + 1)
    case SaveScope(scope, valid, committed) =>
      committed && valid ==>
        && scope.id in d.scopes && d.scopes[scope.id] == scope
        && (forall k :: k != scope.id ==>
              (k in d.scopes <==> k in c.scopes) && (k in c.scopes ==> d.scopes[k] == c.scopes[k]))
        && d.rules == c.rules && d.settings == c.settings.(version := c.settings.version + 1)
    case DeleteScope(id, committed) =>
      committed ==>
        && id !in d.scopes
        && (forall k :: k != id ==>
              (k in d.scopes <==> k in c.scopes) && (k in c.scopes ==> d.scopes[k] == c.scopes[k]))
        && d.rules == c.rules && d.settings == c.settings.(version := c.settings.version + 1)
    case SaveSettings(s, key, urlOk, writes) =>
      writes == C.Written && C.SaveSettingsError(c, s, key, urlOk) == None ==>
        SettingsHold(c, s, key, d) && d.rules == c.rules && d.scopes == c.scopes
    case _ => true
  }

  /** Settings as requested; the key stays unless one is given, and changing anything a model test
      exercises clears the tested flag. */
  predicate SettingsHold(c: C.State, s: C.Settings, key: Option<string>, d: C.State) {
    && d.settings.mode == s.mode && d.settings.prompt == s.prompt && d.settings.baseUrl == s.baseUrl
    && d.settings.modelName == s.modelName && d.settings.approvalSeconds == s.approvalSeconds
    && d.settings.modelSeconds == s.modelSeconds && d.settings.version == c.settings.version + 1
    && d.settings.protocol == (if s.protocol == C.Unspecified then C.OpenAI else s.protocol)
    && d.settings.apiKey == (if key.Some? then key.value else c.settings.apiKey)
    && (key.Some? ==> d.keyFile == key.value) && (key == None ==> d.keyFile == c.keyFile)
    && (d.settings.tested <==>
          && c.settings.tested && d.settings.protocol == c.settings.protocol && d.settings.baseUrl == c.settings.baseUrl
          && d.settings.modelName == c.settings.modelName && d.settings.apiKey == c.settings.apiKey)
    && (d.settings.mode == ModelMode ==> d.settings.tested)
    && 10 <= d.settings.approvalSeconds <= 86400 && 1 <= d.settings.modelSeconds <= 120
    && 20 <= |d.settings.prompt| <= 32000 && !d.settings.protocol.OtherProtocol?
  }

  lemma SettingsTakeHold(c: C.State, s: C.Settings, key: Option<string>, urlOk: bool)
    requires C.SaveSettingsError(c, s, key, urlOk) == None
    ensures var d := C.AfterSaveSettings(c, s, key, C.Written);
            SettingsHold(c, s, key, d) && d.rules == c.rules && d.scopes == c.scopes
  {
  }

  lemma RuleTakesHold(s: Sys, op: Op)
    requires Enabled(s, op) && (op.SaveRule? || op.DeleteRule?)
    ensures EditHolds(s.config, op, ConfigAfter(s, op))
  {
    hide C.SaveRuleError, SettingsHold;
  }

  lemma ScopeTakesHold(s: Sys, op: Op)
    requires Enabled(s, op) && (op.SaveScope? || op.DeleteScope?)
    ensures EditHolds(s.config, op, ConfigAfter(s, op))
  {
    hide SettingsHold;
  }

  lemma EditTakesHold(s: Sys, op: Op)
    requires Enabled(s, op)
    ensures EditHolds(s.config, op, ConfigAfter(s, op))
  {
    if op.SaveRule? || op.DeleteRule? {
      RuleTakesHold(s, op);
    } else if op.SaveScope? || op.DeleteScope? {
      ScopeTakesHold(s, op);
    } else if op.SaveSettings? {
      hide C.SaveSettingsError, SettingsHold, C.AfterSaveSettings;
      if op.writes == C.Written && C.SaveSettingsError(s.config, op.settings, op.key, op.urlOk) == None {
        SettingsTakeHold(s.config, op.settings, op.key, op.urlOk);
      }
    }
  }

  /** Which settings a save lets through: model mode only with a configuration that has been tested. */
  lemma AcceptedSettings(c: C.State, s: C.Settings, key: Option<string>, urlOk: bool)
    ensures C.SaveSettingsError(c, s, key, urlOk) == None <==>
              && 10 <= s.approvalSeconds <= 86400 && 1 <= s.modelSeconds <= 120 && 20 <= |s.prompt| <= 32000
              && !s.protocol.OtherProtocol? && (s.baseUrl != "" ==> urlOk)
              && (s.mode == ModelMode ==>
                    && c.settings.tested && s.baseUrl == c.settings.baseUrl && s.modelName == c.settings.modelName
                    && (if s.protocol == C.Unspecified then c.settings.protocol == C.OpenAI
                        else s.protocol == c.settings.protocol)
                    && (key == None || key == Some(c.settings.apiKey)))
  {
  }

  /** Which rules a save lets through: builtin ids and well-formed custom ids only. */
  lemma AcceptedRule(r: Rule, builtinIds: set<string>, patternOk: bool, textOk: bool)
    ensures C.SaveRuleError(r, builtinIds, patternOk, textOk) == None <==>
              && (r.decision == Approve || r.decision == Reject) && textOk && patternOk
              && (r.id in builtinIds || (C.IsCustomId(r.id) && !r.builtin && r.matcher != Semantic))
              && (r.matcher == Semantic || r.matcher == Regex || r.matcher == Contains)
  {
    hide C.IsCustomId;
  }

  /** An edit that goes through is what every submission reads until the next edit. */
  lemma EditIsRead(states: seq<Sys>, ops: seq<Op>, n: nat, j: nat, k: string)
    requires IsRun(states, ops) && n < j < |ops| && (forall m :: n < m < j ==> !EditsConfig(ops[m]))
    requires Adds(states[j], ops[j], k)
    ensures EditHolds(states[n].config, ops[n], states[n + 1].config)
    ensures k in states[j + 1].store.reviews && CarriesConfig(states[j + 1].store.reviews[k], states[n + 1].config)
  {
    hide *;
    RunLength(states, ops);
    StepOf(states, ops, n);
    EditTakesHold(states[n], ops[n]);
    ConfigStays(states, ops, n + 1, j);
    SubmissionCarries(states, ops, j, k);
    CarriesSame(states[j + 1].store.reviews[k], states[j].config, states[n + 1].config);
  }

  lemma CarriesSame(r: Review, c: C.State, d: C.State)
    requires SameConfig(d, c) && CarriesConfig(r, c)
    ensures CarriesConfig(r, d)
  {
  }

  /** A category the operator changed: switched off, turned into an approval, given another expression, or
      narrowed to one tool. */
  predicate Customised(rules: map<string, Rule>, parent: string) {
    && parent != "" && parent in rules
    && !(rules[parent].enabled && rules[parent].decision == Reject && rules[parent].matcher == Semantic
         && rules[parent].tool == "")
  }

  /** A program upgrade adds a missing builtin as the catalog has it, switched off exactly when it was off
      there or the operator has customised its category. */
  lemma UpgradeRespectsCategories(c: C.State, catalog: seq<C.Preset>, i: nat)
    requires C.ValidCatalog(catalog) && i < |catalog| && catalog[i].rule.id !in c.rules
    ensures var d, preset := C.AfterUpgradeRules(c, catalog), catalog[i];
            && preset.rule.id in d.rules
            && d.rules[preset.rule.id]
               == preset.rule.(enabled := preset.rule.enabled && !Customised(c.rules, preset.parent))
  {
    C.UpgradeRulesEffect(c, catalog);
    hide C.AfterUpgradeRules, C.ValidCatalog;
  }

  // ---------------------------------------------------------------- results

  /** The result a client reports for its own approved call. */
  lemma ReportIsRecorded(states: seq<Sys>, ops: seq<Op>, n: nat)
    requires IsRun(states, ops) && n < |ops| && ops[n].Result? && ops[n].committed
    requires ops[n].id in states[n].store.reviews
    requires var r := states[n].store.reviews[ops[n].id];
             r.decision == Approved && r.execution == AwaitingExecution && r.instance == ops[n].instanceId
    ensures ops[n].id in states[n + 1].store.reviews
    ensures var r := states[n + 1].store.reviews[ops[n].id];
            if ops[n].state == Some(Succeeded) || ops[n].state == Some(Failed) || ops[n].state == Some(NotExecuted)
            then Some(r.execution) == ops[n].state && r.result == ops[n].text
            else r == states[n].store.reviews[ops[n].id]
  {
    hide *;
    RunLength(states, ops);
    StepOf(states, ops, n);
    RunKeepsInv(states, ops, n);
    InvParts(states[n]);
    StoredHolds(states[n].store, ops[n].id);
    ReportStored(states[n], ops[n]);
  }

  lemma ReportStored(s: Sys, op: Op)
    requires Enabled(s, op) && op.Result? && op.committed && op.id in s.store.reviews
    requires s.store.reviews[op.id].id == op.id && s.store.reviews[op.id].decision == Approved
    requires s.store.reviews[op.id].execution == AwaitingExecution && s.store.reviews[op.id].instance == op.instanceId
    ensures op.id in StoreAfter(s, op).reviews
    ensures var r := StoreAfter(s, op).reviews[op.id];
            if op.state == Some(Succeeded) || op.state == Some(Failed) || op.state == Some(NotExecuted)
            then Some(r.execution) == op.state && r.result == op.text
            else r == s.store.reviews[op.id]
  {
    if op.state.Some? {
      assert op.state.value.NotExecuted? || op.state.value.AwaitingExecution? || op.state.value.Succeeded?
             || op.state.value.Failed?;
    }
  }
}
