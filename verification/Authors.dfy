/** Who decided: where every approval, rejection and result of a run comes from. */
module Authors {
  import opened Common
  import opened Policy
  import opened Reviews
  import RL = ReviewLemmas
  import C = Config
  import opened Bridge
  import opened System

  // ---------------------------------------------------------------- where approvals come from

  /** A rule said approve, no scope objected, and every script was captured. */
  predicate RuleApproves(listing: seq<Rule>, hit: Option<ScopeHit>, facts: Call, r: Review) {
    && hit == None && Evaluate(listing, facts) == Some(Ruling(Approve, r.ruleId, r.comment))
    && r.rules == listing && r.digest.capture != Incomplete && r.path == RulePath
  }

  /** A human approved exactly this digest. */
  predicate HumanApproves(op: Op, k: string, r: Review) {
    op.Decide? && op.id == k && op.verdict == Approve && op.digest == r.digest && r.path == HumanPath
  }

  /** The model approved a completely captured call that was submitted in model mode. */
  predicate ModelApproves(op: Op, k: string, r: Review) {
    && op.ModelReply? && op.id == k && op.ruling.verdict == Approve && op.ruling.ruleId == r.ruleId
    && r.digest.capture != Incomplete && r.mode == ModelMode && r.path == ModelPath
  }

  predicate Authored(op: Op, k: string, r: Review) {
    || ((op.Submit? || op.HookSubmit?) && RuleApproves(op.listing, op.hit, op.facts, r))
    || HumanApproves(op, k, r)
    || ModelApproves(op, k, r)
  }

  predicate ApprovedIn(t: Store, k: string) {
    k in t.reviews && t.reviews[k].decision == Approved
  }

  lemma SubmittedApproval(t: Store, snap: Snapshot, i: Input, hit: Option<ScopeHit>, facts: Call, now: int, k: string)
    requires SubmitError(t, i, now) == None
    requires var u := AfterSubmit(t, snap, i, hit, facts, now); ApprovedIn(u, k) && !ApprovedIn(t, k)
    ensures RuleApproves(snap.rules, hit, facts, AfterSubmit(t, snap, i, hit, facts, now).reviews[k])
  {
    var r := NewReview(t, snap, i, hit, facts, now);
    assert AfterSubmit(t, snap, i, hit, facts, now).reviews[k] == r by {
      hide NewReview;
      NewReviewRecords(t, snap, i, hit, facts, now);
    }
    assert r.decision == Approved ==> RuleApproves(snap.rules, hit, facts, r) by {
      hide Evaluate, Key;
    }
  }

  lemma DecidedApproval(t: Store, id: string, digest: Digest, v: Verdict, comment: string, now: int, k: string)
    requires RL.Inv(t) && DecideError(t, id, digest, v, comment, now) == None
    requires var u := AfterDecide(t, id, digest, v, comment, now); ApprovedIn(u, k) && !ApprovedIn(t, k)
    ensures var r := AfterDecide(t, id, digest, v, comment, now).reviews[k];
            id == k && v == Approve && digest == r.digest && r.path == HumanPath
  {
    assert RL.Holds(t.reviews[id], TrailOf(t, id), id);
    hide RL.Inv, RL.TrailAgrees;
  }

  lemma ModelApproval(t: Store, id: string, d: Ruling, now: int, recorded: bool, k: string)
    requires RL.Inv(t) && id in t.tasks && ValidModelRuling(d)
    requires var u := AfterModel(t, id, d, now, recorded); ApprovedIn(u, k) && !ApprovedIn(t, k)
    ensures var r := AfterModel(t, id, d, now, recorded).reviews[k];
            && id == k && d.verdict == Approve && d.ruleId == r.ruleId
            && r.digest.capture != Incomplete && r.mode == ModelMode && r.path == ModelPath
  {
    assert id in t.reviews;
    assert RL.Holds(t.reviews[id], TrailOf(t, id), id);
    hide RL.Inv, RL.TrailAgrees, ValidModelRuling;
  }

  lemma NoOtherApproval(s: Sys, op: Op, k: string)
    requires RL.Inv(s.store) && Enabled(s, op) && ApprovedIn(StoreAfter(s, op), k)
    requires !op.Submit? && !op.HookSubmit? && !op.Decide? && !op.ModelReply?
    ensures ApprovedIn(s.store, k)
  {
    hide RL.Inv, RL.Holds, RL.Sound, TrailOf, SweepReason, Registered, PendingOf, DueKeys, PendingKeys;
    if op.Result? && op.id in s.store.reviews {
      StoredHolds(s.store, op.id);
    }
  }

  lemma ApprovalStep(s: Sys, op: Op, k: string)
    requires RL.Inv(s.store) && Enabled(s, op) && ApprovedIn(StoreAfter(s, op), k) && !ApprovedIn(s.store, k)
    ensures Authored(op, k, StoreAfter(s, op).reviews[k])
  {
    hide RL.Inv, RuleApproves;
    if op.Submit? {
      SubmittedApproval(s.store, SnapshotOf(s.config, op.listing), op.input, op.hit, op.facts, op.now, k);
    } else if op.HookSubmit? {
      SubmittedApproval(s.store, SnapshotOf(s.config, op.listing), s.runs[op.run].input, op.hit, op.facts, op.now, k);
    } else if op.Decide? {
      DecidedApproval(s.store, op.id, op.digest, op.verdict, op.comment, op.now, k);
    } else if op.ModelReply? {
      ModelApproval(s.store, op.id, op.ruling, op.now, op.committed, k);
    } else {
      NoOtherApproval(s, op, k);
    }
  }

  /** Every approval in every run has an author: the winning approve rule at submission, a human who
      approved exactly that digest, or the model on a completely captured call of model mode. */
  lemma ApprovalHasAuthor(states: seq<Sys>, ops: seq<Op>, n: nat, k: string)
    requires IsRun(states, ops) && n < |ops|
    requires ApprovedIn(states[n + 1].store, k) && !ApprovedIn(states[n].store, k)
    ensures Authored(ops[n], k, states[n + 1].store.reviews[k])
  {
    hide *;
    StepOf(states, ops, n);
    RunKeepsInv(states, ops, n);
    InvParts(states[n]);
    ApprovalStep(states[n], ops[n], k);
  }

  // ---------------------------------------------------------------- where rejections and results come from

  predicate RejectedIn(t: Store, k: string) {
    k in t.reviews && t.reviews[k].decision == Rejected
  }

  /** A scope or the winning reject rule. */
  predicate PolicyRejects(listing: seq<Rule>, hit: Option<ScopeHit>, facts: Call, r: Review) {
    || (hit.Some? && Ruling(Reject, r.ruleId, r.comment) == ScopeRuling(hit.value) && r.path == ScopePath)
    || (hit == None && Evaluate(listing, facts).Some? && Evaluate(listing, facts).value.verdict != Approve
        && Evaluate(listing, facts).value.ruleId == r.ruleId && r.path == RulePath)
  }

  /** A human who gave a reason and named exactly this digest, or the model's own rejection. */
  predicate ReviewerRejects(op: Op, k: string, r: Review) {
    || (op.Decide? && op.id == k && op.verdict == Reject && op.comment != "" && op.comment == r.comment
        && op.digest == r.digest && r.ruleId == HUMAN_RULE)
    || (op.ModelReply? && op.id == k && op.ruling == Ruling(Reject, r.ruleId, r.comment) && r.path == ModelPath)
  }

  /** The engine itself: the owner disconnected, the sweep found the review due, or a restart. */
  predicate EngineRejects(t: Store, op: Op, k: string, r: Review) {
    && k in t.reviews
    && ( || (op.Disconnect? && op.id == r.instance && r.ruleId == SESSION_RULE)
         || (op.Expire? && Due(t, t.reviews[k], op.now)
             && r.ruleId == if op.now > r.deadline then TIMEOUT_RULE else SESSION_RULE)
         || (op.RestartCancel? && r.ruleId == RESTART_RULE))
  }

  predicate RejectionAuthored(t: Store, op: Op, k: string, r: Review) {
    || ((op.Submit? || op.HookSubmit?) && PolicyRejects(op.listing, op.hit, op.facts, r))
    || ReviewerRejects(op, k, r)
    || EngineRejects(t, op, k, r)
  }

  lemma SubmittedRejection(t: Store, snap: Snapshot, i: Input, hit: Option<ScopeHit>, facts: Call, now: int, k: string)
    requires SubmitError(t, i, now) == None
    requires var u := AfterSubmit(t, snap, i, hit, facts, now); RejectedIn(u, k) && !RejectedIn(t, k)
    ensures PolicyRejects(snap.rules, hit, facts, AfterSubmit(t, snap, i, hit, facts, now).reviews[k])
  {
    var r := NewReview(t, snap, i, hit, facts, now);
    assert AfterSubmit(t, snap, i, hit, facts, now).reviews[k] == r by {
      hide NewReview;
      NewReviewRecords(t, snap, i, hit, facts, now);
    }
    assert r.decision == Rejected ==> PolicyRejects(snap.rules, hit, facts, r) by {
      hide Evaluate, Key;
    }
  }

  lemma DecidedRejection(t: Store, id: string, digest: Digest, v: Verdict, comment: string, now: int, k: string)
    requires RL.Inv(t) && DecideError(t, id, digest, v, comment, now) == None
    requires var u := AfterDecide(t, id, digest, v, comment, now); RejectedIn(u, k) && !RejectedIn(t, k)
    ensures var r := AfterDecide(t, id, digest, v, comment, now).reviews[k];
            && id == k && v == Reject && comment != "" && comment == r.comment && digest == r.digest
            && r.ruleId == HUMAN_RULE
  {
    assert RL.Holds(t.reviews[id], TrailOf(t, id), id);
    hide RL.Inv, RL.TrailAgrees;
  }

  lemma ModelRejection(t: Store, id: string, d: Ruling, now: int, recorded: bool, k: string)
    requires RL.Inv(t) && id in t.tasks && ValidModelRuling(d)
    requires var u := AfterModel(t, id, d, now, recorded); RejectedIn(u, k) && !RejectedIn(t, k)
    ensures var r := AfterModel(t, id, d, now, recorded).reviews[k];
            id == k && d == Ruling(Reject, r.ruleId, r.comment) && r.path == ModelPath
  {
    assert id in t.reviews;
    assert RL.Holds(t.reviews[id], TrailOf(t, id), id);
    assert d.verdict == Approve || d.verdict == Reject;
    hide RL.Inv, RL.TrailAgrees, ValidModelRuling;
  }

  lemma SweptRejection(s: Sys, op: Op, k: string)
    requires Enabled(s, op) && RejectedIn(StoreAfter(s, op), k) && !RejectedIn(s.store, k)
    requires op.Disconnect? || op.Expire? || op.RestartCancel?
    ensures EngineRejects(s.store, op, k, StoreAfter(s, op).reviews[k])
  {
    hide TrailOf;
  }

  lemma NoOtherRejection(s: Sys, op: Op, k: string)
    requires RL.Inv(s.store) && Enabled(s, op) && RejectedIn(StoreAfter(s, op), k)
    requires !op.Submit? && !op.HookSubmit? && !op.Decide? && !op.ModelReply? && !op.Disconnect? && !op.Expire?
             && !op.RestartCancel?
    ensures RejectedIn(s.store, k)
  {
    if op.Result? && op.id in s.store.reviews {
      assert RL.Holds(s.store.reviews[op.id], TrailOf(s.store, op.id), op.id);
    }
    hide RL.Inv, RL.Sound, RL.TrailAgrees, TrailOf, Registered, PendingOf, DueKeys, PendingKeys;
  }

  lemma RejectionStep(s: Sys, op: Op, k: string)
    requires RL.Inv(s.store) && Enabled(s, op) && RejectedIn(StoreAfter(s, op), k) && !RejectedIn(s.store, k)
    ensures RejectionAuthored(s.store, op, k, StoreAfter(s, op).reviews[k])
  {
    hide RL.Inv, PolicyRejects;
    if op.Submit? {
      SubmittedRejection(s.store, SnapshotOf(s.config, op.listing), op.input, op.hit, op.facts, op.now, k);
    } else if op.HookSubmit? {
      SubmittedRejection(s.store, SnapshotOf(s.config, op.listing), s.runs[op.run].input, op.hit, op.facts, op.now, k);
    } else if op.Decide? {
      DecidedRejection(s.store, op.id, op.digest, op.verdict, op.comment, op.now, k);
    } else if op.ModelReply? {
      ModelRejection(s.store, op.id, op.ruling, op.now, op.committed, k);
    } else if op.Disconnect? || op.Expire? || op.RestartCancel? {
      hide EngineRejects;
      SweptRejection(s, op, k);
    } else {
      NoOtherRejection(s, op, k);
    }
  }

  /** Every rejection in every run has an author: a scope or the winning reject rule, a human with a
      reason, the model, the end of the owning session, the sweep on a due review, or a restart. */
  lemma RejectionHasAuthor(states: seq<Sys>, ops: seq<Op>, n: nat, k: string)
    requires IsRun(states, ops) && n < |ops|
    requires RejectedIn(states[n + 1].store, k) && !RejectedIn(states[n].store, k)
    ensures RejectionAuthored(states[n].store, ops[n], k, states[n + 1].store.reviews[k])
  {
    hide *;
    StepOf(states, ops, n);
    RunKeepsInv(states, ops, n);
    InvParts(states[n]);
    RejectionStep(states[n], ops[n], k);
  }

  predicate ReportedBy(op: Op, k: string, r: Review) {
    op.Result? && op.id == k && op.instanceId == r.instance && op.state == Some(r.execution) && op.text == r.result
  }

  predicate AwaitsIn(t: Store, k: string) {
    k in t.reviews && t.reviews[k].decision == Approved && t.reviews[k].execution == AwaitingExecution
  }

  lemma ResultReported(t: Store, op: Op, k: string)
    requires RL.Inv(t) && op.Result? && ResultError(t, op.id, op.instanceId, op.state) == None
    requires var u := AfterResult(t, op.id, op.instanceId, op.state, op.text); AwaitsIn(t, k) && !AwaitsIn(u, k)
    ensures var u := AfterResult(t, op.id, op.instanceId, op.state, op.text);
            k in u.reviews && ReportedBy(op, k, u.reviews[k])
  {
    assert RL.Holds(t.reviews[op.id], TrailOf(t, op.id), op.id);
    hide RL.Inv, RL.Sound, RL.TrailAgrees, TrailOf;
  }

  lemma DecidesKeepAwaiting(t: Store, id: string, digest: Digest, v: Verdict, comment: string, now: int, k: string)
    requires RL.Inv(t) && DecideError(t, id, digest, v, comment, now) == None && AwaitsIn(t, k)
    ensures AwaitsIn(AfterDecide(t, id, digest, v, comment, now), k)
  {
    assert RL.Holds(t.reviews[id], TrailOf(t, id), id);
    hide RL.Inv, RL.Sound, RL.TrailAgrees, TrailOf;
  }

  lemma ModelKeepsAwaiting(t: Store, id: string, d: Ruling, now: int, recorded: bool, k: string)
    requires RL.Inv(t) && id in t.tasks && AwaitsIn(t, k)
    ensures AwaitsIn(AfterModel(t, id, d, now, recorded), k)
  {
    assert id in t.reviews;
    assert RL.Holds(t.reviews[id], TrailOf(t, id), id);
    hide RL.Inv, RL.Sound, RL.TrailAgrees, TrailOf;
  }

  lemma SweepsKeepAwaiting(s: Sys, op: Op, k: string)
    requires Enabled(s, op) && AwaitsIn(s.store, k)
    requires !op.Result? && !op.Decide? && !op.ModelReply? && !op.Submit? && !op.HookSubmit?
    ensures AwaitsIn(StoreAfter(s, op), k)
  {
    hide TrailOf, Registered, SweepReason;
  }

  lemma SubmissionsKeepStored(s: Sys, op: Op, k: string)
    requires Enabled(s, op) && (op.Submit? || op.HookSubmit?) && k in s.store.reviews
    ensures k in StoreAfter(s, op).reviews && StoreAfter(s, op).reviews[k] == s.store.reviews[k]
  {
    var i := if op.Submit? then op.input else s.runs[op.run].input;
    if SubmitError(s.store, i, op.now) == None {
      NewReviewRecords(s.store, SnapshotOf(s.config, op.listing), i, op.hit, op.facts, op.now);
    }
    hide NewReview, SnapshotOf, TrailOf, Key;
  }

  lemma OthersKeepAwaiting(s: Sys, op: Op, k: string)
    requires Enabled(s, op) && AwaitsIn(s.store, k) && !op.Result? && !op.Decide? && !op.ModelReply?
    ensures AwaitsIn(StoreAfter(s, op), k)
  {
    hide StoreAfter, Enabled;
    if op.Submit? || op.HookSubmit? {
      SubmissionsKeepStored(s, op, k);
    } else {
      SweepsKeepAwaiting(s, op, k);
    }
  }

  lemma ResultStep(s: Sys, op: Op, k: string)
    requires RL.Inv(s.store) && Enabled(s, op) && AwaitsIn(s.store, k) && !AwaitsIn(StoreAfter(s, op), k)
    ensures k in StoreAfter(s, op).reviews && ReportedBy(op, k, StoreAfter(s, op).reviews[k])
  {
    hide RL.Inv, AwaitsIn, ReportedBy, AfterResult, AfterDecide, AfterModel;
    if op.Result? {
      ResultReported(s.store, op, k);
    } else if op.Decide? {
      DecidesKeepAwaiting(s.store, op.id, op.digest, op.verdict, op.comment, op.now, k);
    } else if op.ModelReply? {
      ModelKeepsAwaiting(s.store, op.id, op.ruling, op.now, op.committed, k);
    } else {
      hide StoreAfter;
      OthersKeepAwaiting(s, op, k);
    }
  }

  /** An approved call stops awaiting execution only by a result that its own instance reported, and
      the stored execution and text are the reported ones. */
  lemma ResultIsReported(states: seq<Sys>, ops: seq<Op>, n: nat, k: string)
    requires IsRun(states, ops) && n < |ops|
    requires AwaitsIn(states[n].store, k) && !AwaitsIn(states[n + 1].store, k)
    ensures k in states[n + 1].store.reviews && ReportedBy(ops[n], k, states[n + 1].store.reviews[k])
  {
    hide *;
    StepOf(states, ops, n);
    RunKeepsInv(states, ops, n);
    InvParts(states[n]);
    ResultStep(states[n], ops[n], k);
  }
}
