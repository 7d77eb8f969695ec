/** What becomes of a submission: scope, rules, human or model, with the deadline each of them has,
    and what that means for the rest of the run. */
module Rulings {
  import opened Common
  import opened Policy
  import opened PolicyLaws
  import opened Reviews
  import RL = ReviewLemmas
  import C = Config
  import opened Bridge
  import opened System
  import opened Permits

  // ---------------------------------------------------------------- the fresh record

  /** The rule of the table in force that decides a call. */
  ghost predicate DecidesIn(table: map<string, Rule>, call: Call, w: Rule) {
    && w.id in table && table[w.id] == w && Hits(w, call)
    && (forall id :: id in table && Hits(table[id], call) && table[id].decision == Reject ==> w.decision == Reject)
    && (forall id :: id in table && Hits(table[id], call) && table[id].decision == w.decision && table[id] != w ==>
          Outranks(w, table[id]))
  }

  predicate NothingHits(table: map<string, Rule>, call: Call) {
    forall id :: id in table ==> !Hits(table[id], call)
  }

  predicate IsSubmission(op: Op) {
    op.Submit? || op.HookSubmit?
  }

  function InputOf(s: Sys, op: Op): Input
    requires IsSubmission(op) && (op.HookSubmit? ==> op.run in s.runs)
  {
    if op.Submit? then op.input else s.runs[op.run].input
  }

  /** A submission that stores a new review under k. */
  ghost predicate Adds(s: Sys, op: Op, k: string) {
    && Enabled(s, op) && IsSubmission(op) && (op.HookSubmit? ==> op.run in s.runs)
    && k in StoreAfter(s, op).reviews && k !in s.store.reviews
  }

  lemma AddedReview(s: Sys, op: Op, k: string)
    requires Adds(s, op, k)
    ensures var i, snap := InputOf(s, op), SnapshotOf(s.config, op.listing);
            && SubmitError(s.store, i, op.now) == None && k == Key(i.instance, i.call)
            && i.instance in s.store.instances && i.arguments.Some?
            && StoreAfter(s, op) == WithSubmission(s.store, NewReview(s.store, snap, i, op.hit, op.facts, op.now))
            && StoreAfter(s, op).reviews[k] == NewReview(s.store, snap, i, op.hit, op.facts, op.now)
            && IsListing(op.listing, s.config.rules)
  {
    var i, snap := InputOf(s, op), SnapshotOf(s.config, op.listing);
    hide NewReview, SnapshotOf, Key, TrailOf, IsListing;
    NewReviewKey(s.store, snap, i, op.hit, op.facts, op.now);
  }

  lemma NewReviewKey(t: Store, snap: Snapshot, i: Input, hit: Option<ScopeHit>, facts: Call, now: int)
    ensures SubmitError(t, i, now) == None ==>
              NewReview(t, snap, i, hit, facts, now).id == Key(i.instance, i.call)
  {
    hide PolicyRuling, Key, ModelPrompt;
  }

  lemma ListedIsInTable(listing: seq<Rule>, table: map<string, Rule>, call: Call, w: Rule)
    requires IsListing(listing, table) && forall id :: id in table ==> table[id].id == id
    ensures DecidesIn(table, call, w) <==> Decides(listing, call, w)
    ensures NothingHits(table, call) <==> forall q :: q in listing ==> !Hits(q, call)
  {
    hide Hits, Outranks, InOrder, WellFormed;
    assert forall id :: id in table ==> table[id] in listing;
  }

  /** Rejected at once. */
  predicate RejectedAs(r: Review, path: Path, rule: string, now: int) {
    && r.decision == Rejected && r.path == path && r.ruleId == rule && r.comment != ""
    && r.execution == NotExecuted && r.decidedAt == Some(now) && !r.needsHuman
  }

  predicate ApprovedAs(r: Review, rule: string, now: int) {
    && r.decision == Approved && r.path == RulePath && r.ruleId == rule && r.comment != ""
    && r.execution == AwaitingExecution && r.decidedAt == Some(now) && !r.needsHuman
  }

  /** Left to a human until the approval time is over. */
  predicate LeftToHuman(r: Review, now: int, seconds: int) {
    && r.decision == Pending && r.path == HumanPath && r.needsHuman && r.execution == NotExecuted
    && r.decidedAt == None && r.deadline == now + seconds * 1_000_000_000
  }

  /** Left to the model until five seconds after its request times out. */
  predicate LeftToModel(r: Review, now: int, seconds: int) {
    && r.decision == Pending && r.path == ModelPath && !r.needsHuman && r.execution == NotExecuted
    && r.decidedAt == None && r.deadline == now + (seconds + 5) * 1_000_000_000
  }

  /** What a fresh record says, case by case: a scope violation first, then the rule that decides, then
      the configured mode. */
  ghost predicate FollowsPolicy(c: C.State, hit: Option<ScopeHit>, facts: Call, i: Input, now: int, r: Review) {
    && (hit == Some(PathOutside) ==> RejectedAs(r, ScopePath, "SCOPE_PATH", now))
    && (hit == Some(TargetOutside) ==> RejectedAs(r, ScopePath, "SCOPE_TARGET", now))
    && (hit == None ==> forall w :: DecidesIn(c.rules, facts, w) ==> FollowsRule(c, w, i, now, r))
    && (hit == None && NothingHits(c.rules, facts) ==> FollowsMode(c, now, r))
  }

  /** A rejecting rule rejects; an approving one approves unless scripts are missing, which a human must see. */
  predicate FollowsRule(c: C.State, w: Rule, i: Input, now: int, r: Review) {
    && (w.decision == Reject || w.decision == Approve)
    && (w.decision == Reject ==> RejectedAs(r, RulePath, w.id, now) && Names(r.comment, w))
    && (w.decision == Approve && i.capture != Incomplete ==> ApprovedAs(r, w.id, now) && Names(r.comment, w))
    && (w.decision == Approve && i.capture == Incomplete ==> LeftToHuman(r, now, c.settings.approvalSeconds))
  }

  predicate FollowsMode(c: C.State, now: int, r: Review) {
    && (c.settings.mode == HumanMode ==> LeftToHuman(r, now, c.settings.approvalSeconds))
    && (c.settings.mode == ModelMode ==> LeftToModel(r, now, c.settings.modelSeconds))
  }

  lemma HitIsRejected(s: Store, snap: Snapshot, i: Input, h: ScopeHit, facts: Call, now: int)
    requires i.instance in s.instances && i.arguments.Some?
    ensures var r := NewReview(s, snap, i, Some(h), facts, now);
            RejectedAs(r, ScopePath, if h == PathOutside then "SCOPE_PATH" else "SCOPE_TARGET", now)
  {
    hide Key, ModelPrompt;
  }

  lemma RulingIsApplied(s: Store, snap: Snapshot, i: Input, facts: Call, now: int, d: Ruling)
    requires i.instance in s.instances && i.arguments.Some? && Evaluate(snap.rules, facts) == Some(d)
    requires d.comment != "" && !d.verdict.OtherVerdict?
    ensures var r := NewReview(s, snap, i, None, facts, now);
            && (d.verdict == Reject ==> RejectedAs(r, RulePath, d.ruleId, now) && r.comment == d.comment)
            && (d.verdict == Approve && i.capture != Incomplete ==>
                  ApprovedAs(r, d.ruleId, now) && r.comment == d.comment)
            && (d.verdict == Approve && i.capture == Incomplete ==> LeftToHuman(r, now, snap.approvalSeconds))
  {
    hide Key, ModelPrompt, Evaluate;
  }

  lemma NoRulingIsPending(s: Store, snap: Snapshot, i: Input, facts: Call, now: int)
    requires i.instance in s.instances && i.arguments.Some? && Evaluate(snap.rules, facts) == None
    ensures var r := NewReview(s, snap, i, None, facts, now);
            && (snap.mode == HumanMode ==> LeftToHuman(r, now, snap.approvalSeconds))
            && (snap.mode == ModelMode ==> LeftToModel(r, now, snap.modelSeconds))
  {
    hide Key, ModelPrompt, Evaluate;
  }

  lemma NamesIsText(comment: string, w: Rule)
    requires Names(comment, w)
    ensures comment != ""
  {
    assert "；命中规则："[0] == '；';
  }

  /** Evaluating the listing finds the rule that decides in the table, if anything hits. */
  lemma TableRuling(listing: seq<Rule>, table: map<string, Rule>, facts: Call) returns (w: Option<Rule>)
    requires IsListing(listing, table) && forall id :: id in table ==> table[id].id == id
    ensures w == None ==>
              Evaluate(listing, facts) == None && NothingHits(table, facts) && forall v :: !DecidesIn(table, facts, v)
    ensures w != None ==>
              && DecidesIn(table, facts, w.value) && (forall v :: DecidesIn(table, facts, v) ==> v == w.value)
              && !NothingHits(table, facts) && !w.value.decision.OtherVerdict?
              && Evaluate(listing, facts).Some? && Evaluate(listing, facts).value.verdict == w.value.decision
              && Evaluate(listing, facts).value.ruleId == w.value.id
              && Names(Evaluate(listing, facts).value.comment, w.value)
  {
    assert WellFormed(listing);
    EvaluateByFields(listing, facts);
    hide DecidesIn, Decides, NothingHits, Evaluate, Names, Hits, InOrder, WellFormed, IsListing;
    forall v
      ensures DecidesIn(table, facts, v) <==> Decides(listing, facts, v)
      ensures NothingHits(table, facts) <==> forall q :: q in listing ==> !Hits(q, facts)
    {
      ListedIsInTable(listing, table, facts, v);
    }
    w := None;
    if Evaluate(listing, facts) != None {
      var d :| Decides(listing, facts, d);
      w := Some(d);
      DeciderHasVerdict(listing, facts, d);
      forall v | Decides(listing, facts, v)
        ensures v == d
      {
        DeciderIsUnique(listing, facts, v, d);
      }
    } else {
      forall v
        ensures !Decides(listing, facts, v)
      {
        DeciderHits(listing, facts, v);
      }
    }
  }

  lemma NewReviewFollows(s: Store, c: C.State, listing: seq<Rule>, i: Input, hit: Option<ScopeHit>, facts: Call,
                         now: int)
    requires i.instance in s.instances && i.arguments.Some?
    requires IsListing(listing, c.rules) && forall id :: id in c.rules ==> c.rules[id].id == id
    ensures FollowsPolicy(c, hit, facts, i, now, NewReview(s, SnapshotOf(c, listing), i, hit, facts, now))
  {
    var snap := SnapshotOf(c, listing);
    var r := NewReview(s, snap, i, hit, facts, now);
    hide NewReview, DecidesIn, NothingHits, Evaluate, Names, IsListing, Hits, RejectedAs, ApprovedAs, LeftToHuman,
         LeftToModel;
    if hit.Some? {
      HitIsRejected(s, snap, i, hit.value, facts, now);
    } else {
      var w := TableRuling(listing, c.rules, facts);
      if w == None {
        NoRulingIsPending(s, snap, i, facts, now);
        assert FollowsMode(c, now, r);
      } else {
        NamesIsText(Evaluate(listing, facts).value.comment, w.value);
        RulingIsApplied(s, snap, i, facts, now, Evaluate(listing, facts).value);
        assert FollowsRule(c, w.value, i, now, r);
      }
      hide FollowsRule, FollowsMode;
    }
  }

  lemma DeciderHasVerdict(rules: seq<Rule>, call: Call, w: Rule)
    requires WellFormed(rules) && Decides(rules, call, w)
    ensures !w.decision.OtherVerdict?
  {
    hide Hits, Outranks;
  }

  // ---------------------------------------------------------------- over whole runs

  /** What a record keeps of the call and of the moment it was submitted. */
  predicate RecordsCall(r: Review, c: C.State, i: Input, now: int) {
    && r.instance == i.instance && r.call == i.call && r.createdAt == now && r.result == ""
    && i.arguments.Some? && r.digest == Digest(i.tool, i.arguments.value, i.capture, i.scripts)
    && (r.path != ModelPath ==> r.deadline == now + c.settings.approvalSeconds * 1_000_000_000)
  }

  lemma NewReviewRecordsCall(s: Store, c: C.State, listing: seq<Rule>, i: Input, hit: Option<ScopeHit>, facts: Call,
                             now: int)
    requires i.instance in s.instances && i.arguments.Some?
    ensures RecordsCall(NewReview(s, SnapshotOf(c, listing), i, hit, facts, now), c, i, now)
  {
    hide PolicyRuling, Key, ModelPrompt;
  }

  lemma ConfigIds(c: C.State)
    requires C.Inv(c)
    ensures forall id :: id in c.rules ==> c.rules[id].id == id
  {
    hide C.ValidRule;
  }

  /** Every review a run ever stores was taken in as the policy in force demands: a scope violation is
      rejected, the deciding rule is applied, and otherwise a human or the model is asked in time. */
  lemma SubmissionFollowsPolicy(states: seq<Sys>, ops: seq<Op>, n: nat, k: string)
    requires IsRun(states, ops) && n < |ops| && Adds(states[n], ops[n], k)
    ensures k in states[n + 1].store.reviews
    ensures var s, op, r := states[n], ops[n], states[n + 1].store.reviews[k];
            && FollowsPolicy(s.config, op.hit, op.facts, InputOf(s, op), op.now, r)
            && RecordsCall(r, s.config, InputOf(s, op), op.now)
            && states[n + 1].store.tasks == s.store.tasks + (if r.path == ModelPath then {k} else {})
  {
    hide *;
    RunLength(states, ops);
    var s, op := states[n], ops[n];
    StepOf(states, ops, n);
    RunKeepsInv(states, ops, n);
    InvParts(s);
    ConfigIds(s.config);
    AddsParts(s, op, k);
    AddedReview(s, op, k);
    var i := InputOf(s, op);
    NewReviewFollows(s.store, s.config, op.listing, i, op.hit, op.facts, op.now);
    NewReviewRecordsCall(s.store, s.config, op.listing, i, op.hit, op.facts, op.now);
    NewReviewKey(s.store, SnapshotOf(s.config, op.listing), i, op.hit, op.facts, op.now);
    SubmissionTasks(s.store, NewReview(s.store, SnapshotOf(s.config, op.listing), i, op.hit, op.facts, op.now), k);
  }

  lemma AddsParts(s: Sys, op: Op, k: string)
    requires Adds(s, op, k)
    ensures Enabled(s, op) && IsSubmission(op) && (op.HookSubmit? ==> op.run in s.runs)
    ensures op.Submit? || op.HookSubmit?
    ensures k in StoreAfter(s, op).reviews && k !in s.store.reviews
  {
    hide Enabled, StoreAfter;
  }

  lemma SubmissionTasks(t: Store, r: Review, k: string)
    requires r.id == k
    ensures WithSubmission(t, r).tasks == t.tasks + (if r.path == ModelPath then {k} else {})
  {
  }

  /** The submission has to be refused: a scope objects, or an enabled rejecting rule hits. */
  ghost predicate MustBeRefused(s: Sys, op: Op) {
    IsSubmission(op) && (op.hit.Some? || exists id :: id in s.config.rules && RefusedBy(s.config.rules[id], op.facts))
  }

  predicate RefusedBy(r: Rule, facts: Call) {
    Hits(r, facts) && r.decision == Reject
  }

  lemma RefusedIsRejected(c: C.State, listing: seq<Rule>, hit: Option<ScopeHit>, facts: Call, i: Input, now: int,
                          r: Review)
    requires FollowsPolicy(c, hit, facts, i, now, r) && IsListing(listing, c.rules)
    requires forall id :: id in c.rules ==> c.rules[id].id == id
    requires hit.Some? || exists id :: id in c.rules && RefusedBy(c.rules[id], facts)
    ensures r.decision == Rejected && (r.path == ScopePath || r.path == RulePath)
  {
    if hit == None {
      var w := TableRuling(listing, c.rules, facts);
      hide Hits, Names, ApprovedAs, LeftToHuman, FollowsMode, IsListing, Outranks;
      var id :| id in c.rules && RefusedBy(c.rules[id], facts);
      assert w.Some? && w.value.decision == Reject;
    } else {
      hide DecidesIn, NothingHits, FollowsRule, FollowsMode, RefusedBy;
      assert hit.value == PathOutside || hit.value == TargetOutside;
    }
  }

  /** A call whose submission had to be refused is rejected for good. */
  lemma RefusedStaysRefused(states: seq<Sys>, ops: seq<Op>, n: nat, j: nat, k: string)
    requires IsRun(states, ops) && n < j < |states|
    requires Adds(states[n], ops[n], k) && MustBeRefused(states[n], ops[n])
    ensures k in states[j].store.reviews && states[j].store.reviews[k].decision == Rejected
    ensures states[j].store.reviews[k].ruleId == states[n + 1].store.reviews[k].ruleId
  {
    hide *;
    RunLength(states, ops);
    var s, op := states[n], ops[n];
    SubmissionFollowsPolicy(states, ops, n, k);
    RunKeepsInv(states, ops, n);
    InvParts(s);
    ConfigIds(s.config);
    AddsParts(s, op, k);
    AddedReview(s, op, k);
    RefusalCause(s, op);
    RefusedIsRejected(s.config, op.listing, op.hit, op.facts, InputOf(s, op), op.now, states[n + 1].store.reviews[k]);
    Lifecycle(states, ops, n + 1, j);
    ReviewEvolves(states[n + 1].store, states[j].store, k);
    RejectedStays(states[n + 1].store.reviews[k], states[j].store.reviews[k]);
  }

  lemma RefusalCause(s: Sys, op: Op)
    requires MustBeRefused(s, op)
    ensures IsSubmission(op)
    ensures op.hit.Some? || exists id :: id in s.config.rules && RefusedBy(s.config.rules[id], op.facts)
  {
    hide RefusedBy;
  }

  lemma RejectedStays(r: Review, t: Review)
    requires RL.Evolves(r, t) && r.decision == Rejected
    ensures t.decision == Rejected && t.ruleId == r.ruleId
  {
  }

  lemma NotStoredBefore(states: seq<Sys>, ops: seq<Op>, m: nat, n: nat, k: string)
    requires IsRun(states, ops) && m <= n < |states| && k !in states[n].store.reviews
    ensures k !in states[m].store.reviews
  {
    Lifecycle(states, ops, m, n);
    hide IsRun, RL.Evolves, C.Evolves;
  }

  /** And no hook is ever permitted under its key, before or after. */
  lemma RefusedIsNeverPermitted(states: seq<Sys>, ops: seq<Op>, n: nat, j: nat, k: string, run: nat)
    requires IsRun(states, ops) && n < |ops| && j < |ops|
    requires Adds(states[n], ops[n], k) && MustBeRefused(states[n], ops[n])
    requires run in states[j].runs && k == Key(states[j].runs[run].input.instance, states[j].runs[run].input.call)
    ensures !GivesPermit(states[j], ops[j], run)
  {
    hide *;
    RunLength(states, ops);
    if GivesPermit(states[j], ops[j], run) {
      var m := PermitIsBacked(states, ops, j, run);
      FetchedBefore(ops, run, m, j);
      ApprovedUnder(states[m + 1].store, states[j].runs[run].input, k);
      AddsParts(states[n], ops[n], k);
      if m + 1 <= n {
        NotStoredBefore(states, ops, m + 1, n, k);
      } else {
        RefusedStaysRefused(states, ops, n, m + 1, k);
      }
    }
  }

  lemma FetchedBefore(ops: seq<Op>, run: nat, m: nat, n: nat)
    requires LastFetch(ops, run, m, n)
    ensures m < n <= |ops|
  {
  }

  lemma ApprovedUnder(t: Store, i: Input, k: string)
    requires ApprovedCall(t, i) && k == Key(i.instance, i.call)
    ensures k in t.reviews && t.reviews[k].decision == Approved
  {
    hide Key;
  }

  /** The other way: a call that an approving rule decides, completely captured, is permitted at once
      when its hook acts on the reply to its own submission. */
  lemma ApprovedByRuleIsPermitted(states: seq<Sys>, ops: seq<Op>, n: nat, j: nat, k: string, w: Rule)
    requires IsRun(states, ops) && n < j < |ops| && Adds(states[n], ops[n], k) && ops[n].HookSubmit?
    requires ops[n].hit == None && DecidesIn(states[n].config.rules, ops[n].facts, w) && w.decision == Approve
    requires InputOf(states[n], ops[n]).capture != Incomplete
    requires ops[n].now + states[n].config.settings.approvalSeconds * 1_000_000_000 != 0
    requires ops[j] == HookAct(ops[n].run) && LastFetch(ops, ops[n].run, n, j)
    ensures GivesPermit(states[j], ops[j], ops[n].run)
  {
    hide *;
    RunLength(states, ops);
    var s, op := states[n], ops[n];
    SubmissionFollowsPolicy(states, ops, n, k);
    AddsParts(s, op, k);
    AddedReview(s, op, k);
    var r := states[n + 1].store.reviews[k];
    RuleFollowed(s.config, op.facts, InputOf(s, op), op.now, r, w);
    HookInput(s, op);
    PermitIff(states, ops, n, j, op.run);
    InputStays(states, ops, n, j, op.run);
    ApprovedNow(states[n + 1].store, InputOf(s, op), k, w, op.now);
    RecordedDeadline(r, s.config, InputOf(s, op), op.now);
  }

  lemma HookInput(s: Sys, op: Op)
    requires op.HookSubmit? && op.run in s.runs
    ensures IsSubmission(op) && InputOf(s, op) == s.runs[op.run].input
  {
  }

  lemma RuleFollowed(c: C.State, facts: Call, i: Input, now: int, r: Review, w: Rule)
    requires FollowsPolicy(c, None, facts, i, now, r) && DecidesIn(c.rules, facts, w)
    ensures w.decision == Approve && i.capture != Incomplete ==> ApprovedAs(r, w.id, now)
  {
    hide DecidesIn, Names, ApprovedAs, RejectedAs, LeftToHuman, FollowsMode, NothingHits;
  }

  lemma RecordedDeadline(r: Review, c: C.State, i: Input, now: int)
    requires RecordsCall(r, c, i, now) && r.path == RulePath
    ensures r.deadline == now + c.settings.approvalSeconds * 1_000_000_000
  {
  }

  lemma ApprovedNow(t: Store, i: Input, k: string, w: Rule, now: int)
    requires k in t.reviews && ApprovedAs(t.reviews[k], w.id, now) && k == Key(i.instance, i.call) && Stored(t, i)
    ensures ApprovedCall(t, i) && t.reviews[k].path == RulePath
  {
    hide Key;
  }

  /** A hook run never changes what it asks about. */
  lemma {:induction false} InputStays(states: seq<Sys>, ops: seq<Op>, i: nat, j: nat, run: nat)
    requires IsRun(states, ops) && i <= j < |states| && run in states[i].runs
    ensures run in states[j].runs && states[j].runs[run].input == states[i].runs[run].input
    decreases j
  {
    hide *;
    RunLength(states, ops);
    if i < j {
      InputStays(states, ops, i, j - 1, run);
      StepOf(states, ops, j - 1);
      InputKept(states[j - 1], ops[j - 1], run);
    }
  }

  lemma InputKept(s: Sys, op: Op, run: nat)
    requires Enabled(s, op) && run in s.runs
    ensures run in RunsAfter(s, op) && RunsAfter(s, op)[run].input == s.runs[run].input
  {
    hide SubmitStage, PollStage, ActStage;
  }
}
