/** What every operation of the review store keeps, and how one review may evolve. */
module ReviewLemmas {
  import opened Common
  import opened Policy
  import opened Reviews

  // ---------------------------------------------------------------- the audit trail as a word

  datatype Phase = Absent | Open | Queued | Ruled | Reported | Broken

  function NextPhase(p: Phase, a: Action): Phase {
    match a
    case SubmitRow => if p == Absent then Open else Broken
    case ModelIncompleteRow => if p == Open then Queued else Broken
    case ResultRow => if p == Open || p == Ruled then Reported else Broken
    case _ => if p == Open || p == Queued then Ruled else Broken
  }

  /** Replaying the audit rows of one review: one submission, at most one verdict, at most one result. */
  function Replay(trail: seq<Action>): Phase {
    if trail == [] then Absent else NextPhase(Replay(trail[..|trail| - 1]), trail[|trail| - 1])
  }

  lemma ReplayAppend(trail: seq<Action>, a: Action)
    ensures Replay(trail + [a]) == NextPhase(Replay(trail), a)
  {
    assert (trail + [a])[..|trail|] == trail;
  }

  predicate IsVerdict(a: Action) {
    a in {ModelRow, HumanRow, TimeoutRow, CancelRow, RestartRow}
  }

  function CountVerdicts(trail: seq<Action>): nat {
    if trail == [] then 0
    else CountVerdicts(trail[..|trail| - 1]) + (if IsVerdict(trail[|trail| - 1]) then 1 else 0)
  }

  function CountResults(trail: seq<Action>): nat {
    if trail == [] then 0
    else CountResults(trail[..|trail| - 1]) + (if trail[|trail| - 1] == ResultRow then 1 else 0)
  }

  /** A trail that replays cleanly holds at most one verdict row and at most one result row. */
  lemma {:induction false} CleanTrailRulesOnce(trail: seq<Action>)
    requires Replay(trail) != Broken
    ensures CountVerdicts(trail) <= 1 && CountResults(trail) <= 1
    ensures Replay(trail) in {Absent, Open, Queued} ==> CountVerdicts(trail) == 0
    ensures CountResults(trail) == 1 <==> Replay(trail) == Reported
  {
    if trail != [] {
      CleanTrailRulesOnce(trail[..|trail| - 1]);
    }
  }

  // ---------------------------------------------------------------- the state invariant

  /** What holds of every stored review on its own. */
  predicate Sound(r: Review) {
    && r.id == Key(r.instance, r.call)
    && (r.decision == Pending <==> r.decidedAt == None)
    && (r.decision != Approved ==> r.execution == NotExecuted)
    && (r.needsHuman <==> r.decision == Pending && r.path == HumanPath)
    && (r.decision == Pending ==> r.path == HumanPath || r.path == ModelPath)
    && (r.decision != Pending ==> r.ruleId != "" && r.comment != "")
    && (r.ruleId == HUMAN_RULE ==> r.path == HumanPath)
    && (r.mode == HumanMode ==> r.path != ModelPath)
    && (r.digest.capture == Incomplete && r.decision == Approved ==>
          r.ruleId == HUMAN_RULE && r.path == HumanPath)
  }

  /** The stored review and its audit trail tell the same story. */
  predicate TrailAgrees(trail: seq<Action>, r: Review) {
    var p := Replay(trail);
    && (r.decision == Pending ==> p == Open || (p == Queued && r.path == HumanPath))
    && (r.decision == Rejected ==> p == if r.path == ScopePath || r.path == RulePath then Open else Ruled)
    && (r.decision == Approved && r.execution == AwaitingExecution ==>
          p == if r.path == ScopePath || r.path == RulePath then Open else Ruled)
    && (r.decision == Approved && r.execution != AwaitingExecution ==> p == Reported)
  }

  predicate Holds(r: Review, trail: seq<Action>, id: string) {
    r.id == id && Sound(r) && TrailAgrees(trail, r)
  }

  predicate Inv(s: Store) {
    && (forall k :: k in s.instances ==> s.instances[k].id == k)
    && (forall k :: k in s.reviews ==> Holds(s.reviews[k], TrailOf(s, k), k) && s.reviews[k].instance in s.instances)
    && (forall k :: k in s.trail ==> k in s.reviews)
    && s.tasks <= s.reviews.Keys
  }

  /** Every pending review belongs to a registered instance that is not disconnected. */
  predicate PendingIsOwned(s: Store) {
    forall k :: k in s.reviews && s.reviews[k].decision == Pending ==>
      && s.reviews[k].instance in s.instances
      && s.instances[s.reviews[k].instance].state != Disconnected
  }

  // ---------------------------------------------------------------- evolution of one review

  /** How a stored review may differ later: its submission never changes; a decision is
      taken once; an execution result is recorded once. */
  predicate Evolves(r: Review, t: Review) {
    && t.id == r.id && t.instance == r.instance && t.call == r.call && t.digest == r.digest
    && t.session == r.session && t.cwd == r.cwd && t.mode == r.mode && t.version == r.version
    && t.prompt == r.prompt && t.modelName == r.modelName
    && t.rules == r.rules && t.scopes == r.scopes && t.node == r.node
    && t.createdAt == r.createdAt && t.deadline == r.deadline
    && (t.path == r.path || (r.decision == Pending && r.path == ModelPath && t.path == HumanPath))
    && (r.decision != Pending ==>
          && t.decision == r.decision && t.ruleId == r.ruleId && t.comment == r.comment
          && t.decidedAt == r.decidedAt && t.modelVerdict == r.modelVerdict && t.path == r.path
          && (r.execution != AwaitingExecution ==> t.execution == r.execution && t.result == r.result))
  }

  lemma EvolvesTransitive(a: Review, b: Review, c: Review)
    requires Evolves(a, b) && Evolves(b, c)
    ensures Evolves(a, c)
  {
  }

  /** An instance keeps its identity and never forgets an installation it was observed with. */
  predicate InstanceEvolves(i: Instance, j: Instance) {
    && i.id == j.id && SameIdentity(i, j)
    && (forall x :: x in i.observed ==> x in j.observed)
  }

  predicate StoreEvolves(s: Store, t: Store) {
    && (forall k :: k in s.reviews ==> k in t.reviews && Evolves(s.reviews[k], t.reviews[k]))
    && (forall k :: k in s.instances ==> k in t.instances && InstanceEvolves(s.instances[k], t.instances[k]))
  }

  lemma StoreEvolvesTransitive(a: Store, b: Store, c: Store)
    requires StoreEvolves(a, b) && StoreEvolves(b, c)
    ensures StoreEvolves(a, c)
  {
  }

  // ---------------------------------------------------------------- one committed review

  lemma InstanceReflexive(i: Instance)
    ensures InstanceEvolves(i, i)
  {
  }

  lemma Reflexive(s: Store)
    ensures StoreEvolves(s, s)
  {
  }

  /** Changing only instance records leaves the review invariant alone. */
  lemma InstancesKeep(s: Store, t: Store)
    requires Inv(s) && t.reviews == s.reviews && t.trail == s.trail && t.tasks == s.tasks
    requires forall k :: k in t.instances ==> t.instances[k].id == k
    requires forall k :: k in s.instances ==> k in t.instances && InstanceEvolves(s.instances[k], t.instances[k])
    ensures Inv(t) && StoreEvolves(s, t)
  {
    hide Holds, SameIdentity;
    forall k | k in t.reviews
      ensures Holds(t.reviews[k], TrailOf(t, k), k)
    {
      assert TrailOf(t, k) == TrailOf(s, k);
    }
  }

  lemma CommitKeepsInv(s: Store, r: Review, a: Action)
    requires Inv(s) && r.instance in s.instances && Holds(r, TrailOf(s, r.id) + [a], r.id)
    ensures Inv(Commit(s, r, a))
  {
    var t := Commit(s, r, a);
    hide Holds, Sound;
    forall k | k in t.reviews
      ensures Holds(t.reviews[k], TrailOf(t, k), k)
    {
      assert TrailOf(t, k) == if k == r.id then TrailOf(s, k) + [a] else TrailOf(s, k);
    }
  }

  lemma CommitOnlyEvolves(s: Store, r: Review, a: Action)
    requires r.id in s.reviews && Evolves(s.reviews[r.id], r)
    ensures StoreEvolves(s, Commit(s, r, a))
  {
    hide InstanceEvolves;
    forall k | k in s.instances
      ensures InstanceEvolves(s.instances[k], s.instances[k])
    {
      InstanceReflexive(s.instances[k]);
    }
  }

  /** Committing an evolution of a stored review. */
  lemma CommitEvolves(s: Store, r: Review, a: Action)
    requires Inv(s) && r.id in s.reviews && Evolves(s.reviews[r.id], r)
    requires Holds(r, TrailOf(s, r.id) + [a], r.id)
    ensures Inv(Commit(s, r, a)) && StoreEvolves(s, Commit(s, r, a))
  {
    CommitOnlyEvolves(s, r, a);
    assert r.instance in s.instances;
    hide Evolves, InstanceEvolves, StoreEvolves, Holds;
    CommitKeepsInv(s, r, a);
  }

  lemma CommitOwned(s: Store, r: Review, a: Action)
    requires PendingIsOwned(s) && r.id in s.reviews && r.instance == s.reviews[r.id].instance
    requires r.decision == Pending ==> s.reviews[r.id].decision == Pending
    ensures PendingIsOwned(Commit(s, r, a))
  {
  }

  predicate GoodClosing(c: Closing) {
    c.rule != "" && c.rule != HUMAN_RULE && c.comment != "" && IsVerdict(c.row)
  }

  lemma ClosedHolds(r: Review, trail: seq<Action>, c: Closing, now: int)
    requires Holds(r, trail, r.id) && r.decision == Pending && GoodClosing(c)
    ensures Holds(Closed(r, c.rule, c.comment, now), trail + [c.row], r.id)
    ensures Evolves(r, Closed(r, c.rule, c.comment, now))
  {
    ReplayAppend(trail, c.row);
  }

  lemma CloseAllHolds(s: Store, done: set<string>, why: Review -> Closing, now: int)
    requires Inv(s) && done <= PendingKeys(s)
    requires forall k :: k in done ==> GoodClosing(why(s.reviews[k]))
    ensures var t := CloseAll(s, done, why, now);
            forall k :: k in t.reviews ==> Holds(t.reviews[k], TrailOf(t, k), k)
  {
    var t := CloseAll(s, done, why, now);
    hide Sound, TrailAgrees, Evolves, GoodClosing;
    forall k | k in t.reviews
      ensures Holds(t.reviews[k], TrailOf(t, k), k)
    {
      assert Holds(s.reviews[k], TrailOf(s, k), k);
      if k in done {
        ClosedHolds(s.reviews[k], TrailOf(s, k), why(s.reviews[k]), now);
      }
    }
  }

  lemma CloseAllKeepsInv(s: Store, done: set<string>, why: Review -> Closing, now: int)
    requires Inv(s) && done <= PendingKeys(s)
    requires forall k :: k in done ==> GoodClosing(why(s.reviews[k]))
    ensures Inv(CloseAll(s, done, why, now)) && StoreEvolves(s, CloseAll(s, done, why, now))
  {
    CloseAllEvolves(s, done, why, now);
    CloseAllHolds(s, done, why, now);
    hide Holds, StoreEvolves;
  }

  lemma CloseAllEvolves(s: Store, done: set<string>, why: Review -> Closing, now: int)
    requires done <= PendingKeys(s)
    ensures StoreEvolves(s, CloseAll(s, done, why, now))
  {
    hide InstanceEvolves;
    forall k | k in s.instances
      ensures InstanceEvolves(s.instances[k], s.instances[k])
    {
      InstanceReflexive(s.instances[k]);
    }
  }

  lemma ClosingsAreGood()
    ensures GoodClosing(SESSION_ENDED) && GoodClosing(SESSION_LOST) && GoodClosing(TIMED_OUT) && GoodClosing(RESTARTED)
  {
    assert |SESSION_RULE| == 9 && |RESTART_RULE| == 9 && |TIMEOUT_RULE| == 9 && |HUMAN_RULE| == 5;
  }

  // ---------------------------------------------------------------- operation by operation

  lemma RegisterKeeps(s: Store, i: Instance, ok: bool, version: string, now: int)
    requires Inv(s) && RegisterError(s, i, ok, version) == None
    ensures Inv(AfterRegister(s, i, now)) && StoreEvolves(s, AfterRegister(s, i, now))
    ensures PendingIsOwned(s) ==> PendingIsOwned(AfterRegister(s, i, now))
  {
    var t := AfterRegister(s, i, now);
    InstancesKeep(s, t);
  }

  lemma HeartbeatKeeps(s: Store, id: string, state: Activity, now: int)
    requires Inv(s) && HeartbeatError(s, id) == None
    ensures Inv(AfterHeartbeat(s, id, state, now)) && StoreEvolves(s, AfterHeartbeat(s, id, state, now))
    ensures PendingIsOwned(s) ==> PendingIsOwned(AfterHeartbeat(s, id, state, now))
  {
    var t := AfterHeartbeat(s, id, state, now);
    InstancesKeep(s, t);
  }

  lemma MarkDisconnectedKeeps(s: Store, id: string)
    requires Inv(s) && id in s.instances
    ensures Inv(MarkDisconnected(s, id)) && StoreEvolves(s, MarkDisconnected(s, id))
  {
    InstancesKeep(s, MarkDisconnected(s, id));
  }

  lemma DisconnectKeeps(s: Store, id: string, done: set<string>, now: int)
    requires Inv(s) && id in s.instances && done <= PendingOf(s, id)
    ensures Inv(AfterDisconnect(s, id, done, now)) && StoreEvolves(s, AfterDisconnect(s, id, done, now))
  {
    var m := MarkDisconnected(s, id);
    MarkDisconnectedKeeps(s, id);
    ClosingsAreGood();
    hide Inv, StoreEvolves;
    CloseAllKeepsInv(m, done, (r: Review) => SESSION_ENDED, now);
    StoreEvolvesTransitive(s, m, AfterDisconnect(s, id, done, now));
  }

  /** A disconnect leaves a pending review behind exactly when one of its cancellations was not committed. */
  lemma DisconnectOwnership(s: Store, id: string, done: set<string>, now: int)
    requires PendingIsOwned(s) && id in s.instances && done <= PendingOf(s, id)
    ensures PendingIsOwned(AfterDisconnect(s, id, done, now)) <==> done == PendingOf(s, id)
  {
    var t := AfterDisconnect(s, id, done, now);
    if done != PendingOf(s, id) {
      var k :| k in PendingOf(s, id) && k !in done;
      assert t.reviews[k] == s.reviews[k];
    }
  }

  lemma ExpireKeeps(s: Store, done: set<string>, now: int)
    requires Inv(s) && done <= DueKeys(s, now)
    ensures Inv(AfterExpire(s, done, now)) && StoreEvolves(s, AfterExpire(s, done, now))
    ensures PendingIsOwned(s) ==> PendingIsOwned(AfterExpire(s, done, now))
  {
    ClosingsAreGood();
    CloseAllKeepsInv(s, done, (r: Review) => SweepReason(s, r, now), now);
  }

  /** After a sweep whose commits succeed nothing is overdue or ownerless, and sweeping again is idle. */
  lemma ExpireClosesEverythingDue(s: Store, now: int)
    requires Inv(s)
    ensures var t := AfterExpire(s, DueKeys(s, now), now);
            && DueKeys(t, now) == {}
            && AfterExpire(t, DueKeys(t, now), now) == t
            && forall k :: k in t.reviews && t.reviews[k].decision == Pending ==>
                 && now <= t.reviews[k].deadline
                 && now - t.instances[t.reviews[k].instance].heartbeat < SILENCE_LIMIT
  {
    var t := AfterExpire(s, DueKeys(s, now), now);
    assert forall k :: k in t.reviews ==> !Due(t, t.reviews[k], now);
    assert DueKeys(t, now) == {};
    var u := AfterExpire(t, {}, now);
    assert u.reviews == t.reviews && u.trail == t.trail;
  }

  lemma RestartKeeps(s: Store, done: set<string>, now: int)
    requires Inv(s) && done <= PendingKeys(s)
    ensures Inv(AfterRestart(s, done, now)) && StoreEvolves(s, AfterRestart(s, done, now))
    ensures PendingIsOwned(s) ==> PendingIsOwned(AfterRestart(s, done, now))
    ensures done == PendingKeys(s) ==> PendingKeys(AfterRestart(s, done, now)) == {}
  {
    var m := s.(tasks := {});
    assert forall k :: k in s.reviews ==> TrailOf(m, k) == TrailOf(s, k);
    ClosingsAreGood();
    CloseAllKeepsInv(m, done, (r: Review) => RESTARTED, now);
  }

  lemma InstancesLostKeeps(s: Store, gone: set<string>)
    requires Inv(s) && PendingKeys(s) == {}
    ensures Inv(AfterInstancesLost(s, gone)) && StoreEvolves(s, AfterInstancesLost(s, gone))
    ensures PendingIsOwned(AfterInstancesLost(s, gone))
  {
    var t := AfterInstancesLost(s, gone);
    InstancesKeep(s, t);
    forall k | k in t.reviews
      ensures t.reviews[k].decision != Pending
    {
      assert k !in PendingKeys(s);
    }
    hide Inv, StoreEvolves;
  }

  /** The ids SaveRule admits cannot be mistaken for a human verdict. */
  predicate SafeRuleIds(rules: seq<Rule>) {
    forall i :: 0 <= i < |rules| ==> rules[i].id != "" && rules[i].id != HUMAN_RULE
  }

  lemma PolicyRulingIsSafe(snap: Snapshot, hit: Option<ScopeHit>, facts: Call)
    requires WellFormed(snap.rules) && SafeRuleIds(snap.rules)
    ensures var d := PolicyRuling(snap, hit, facts);
            d.Some? ==> && d.value.ruleId != "" && d.value.ruleId != HUMAN_RULE && d.value.comment != ""
                        && !d.value.verdict.OtherVerdict?
  {
    EvaluateIsBestRule(snap.rules, facts);
    if hit == None && Evaluate(snap.rules, facts).Some? {
      var w :| IsWinner(snap.rules, facts, w) && Evaluate(snap.rules, facts) == Some(RulingOf(w, facts));
      var k :| 0 <= k < |snap.rules| && snap.rules[k] == w;
    }
  }

  lemma NewReviewIsSound(s: Store, snap: Snapshot, i: Input, hit: Option<ScopeHit>, facts: Call, now: int)
    requires WellFormed(snap.rules) && SafeRuleIds(snap.rules)
    requires i.instance in s.instances && i.arguments.Some?
    ensures var r := NewReview(s, snap, i, hit, facts, now);
            Sound(r) && r.execution in {NotExecuted, AwaitingExecution}
            && (r.decision == Approved ==> r.execution == AwaitingExecution)
            && (r.decision != Pending ==> r.path in {ScopePath, RulePath})
  {
    PolicyRulingIsSafe(snap, hit, facts);
    assert "" != HUMAN_RULE;
  }

  lemma SubmitKeeps(s: Store, snap: Snapshot, i: Input, hit: Option<ScopeHit>, facts: Call, now: int)
    requires Inv(s) && WellFormed(snap.rules) && SafeRuleIds(snap.rules)
    requires SubmitError(s, i, now) == None
    ensures Inv(AfterSubmit(s, snap, i, hit, facts, now))
    ensures StoreEvolves(s, AfterSubmit(s, snap, i, hit, facts, now))
  {
    Reflexive(s);
    var id := Key(i.instance, i.call);
    if id !in s.reviews {
      var r, t := NewReview(s, snap, i, hit, facts, now), AfterSubmit(s, snap, i, hit, facts, now);
      NewReviewIsSound(s, snap, i, hit, facts, now);
      ReplayAppend([], SubmitRow);
      assert Holds(r, [SubmitRow], id);
      SubmittedKeeps(s, t, r);
    }
  }

  lemma SubmittedKeeps(s: Store, t: Store, r: Review)
    requires Inv(s) && r.id !in s.reviews && r.instance in s.instances && Holds(r, [SubmitRow], r.id)
    requires t == Commit(s, r, SubmitRow) || t == Commit(s, r, SubmitRow).(tasks := s.tasks + {r.id})
    ensures Inv(t) && StoreEvolves(s, t)
  {
    Reflexive(s);
    hide Holds, Sound, Evolves, InstanceEvolves;
    assert StoreEvolves(s, t);
    hide StoreEvolves;
    forall k | k in t.reviews
      ensures Holds(t.reviews[k], TrailOf(t, k), k)
    {
      assert TrailOf(t, k) == if k == r.id then [SubmitRow] else TrailOf(s, k);
    }
  }

  lemma SubmitKeepsOwnership(s: Store, snap: Snapshot, i: Input, hit: Option<ScopeHit>, facts: Call, now: int)
    requires PendingIsOwned(s) && SubmitError(s, i, now) == None
    ensures PendingIsOwned(AfterSubmit(s, snap, i, hit, facts, now))
  {
    var id := Key(i.instance, i.call);
    if id !in s.reviews {
      var r := NewReview(s, snap, i, hit, facts, now);
      var t := AfterSubmit(s, snap, i, hit, facts, now);
      assert r.instance == i.instance && r.id == id;
      assert s.instances[i.instance].state != Disconnected;
      assert t.instances == s.instances && t.reviews == s.reviews[id := r];
      hide NewReview, Key, TrailOf, AfterSubmit, SubmitError;
    }
  }

  lemma HumanDecidedHolds(r: Review, trail: seq<Action>, v: Verdict, comment: string, now: int)
    requires Holds(r, trail, r.id) && r.decision == Pending
    requires r.mode == HumanMode || r.path == HumanPath
    ensures Holds(HumanDecided(r, v, comment, now), trail + [HumanRow], r.id)
    ensures Evolves(r, HumanDecided(r, v, comment, now))
  {
    ReplayAppend(trail, HumanRow);
  }

  lemma DecideKeeps(s: Store, id: string, digest: Digest, v: Verdict, comment: string, now: int)
    requires Inv(s) && DecideError(s, id, digest, v, comment, now) == None
    ensures Inv(AfterDecide(s, id, digest, v, comment, now))
    ensures StoreEvolves(s, AfterDecide(s, id, digest, v, comment, now))
    ensures PendingIsOwned(s) ==> PendingIsOwned(AfterDecide(s, id, digest, v, comment, now))
  {
    var r := s.reviews[id];
    assert Holds(r, TrailOf(s, id), id);
    if r.decision == Pending {
      HumanDecidedHolds(r, TrailOf(s, id), v, comment, now);
      hide Holds, Evolves, Inv, StoreEvolves;
      CommitEvolves(s, HumanDecided(r, v, comment, now), HumanRow);
      if PendingIsOwned(s) {
        CommitOwned(s, HumanDecided(r, v, comment, now), HumanRow);
      }
    } else {
      Reflexive(s);
    }
  }

  lemma ModelRuleIsNotHuman(d: Ruling)
    requires ValidModelRuling(d)
    ensures d.ruleId != HUMAN_RULE && d.ruleId != ""
  {
    assert |"E_MODEL"| == 7 && |HUMAN_RULE| == 5 && |"D1"| == 2;
  }

  lemma ModelDecidedHolds(r: Review, trail: seq<Action>, d: Ruling, now: int)
    requires Holds(r, trail, r.id) && r.decision == Pending && !r.needsHuman && ValidModelRuling(d)
    ensures var t := ModelDecided(r, d, now);
            && Holds(t, trail + [if t.decision == Pending then ModelIncompleteRow else ModelRow], r.id)
            && Evolves(r, t)
  {
    ModelRuleIsNotHuman(d);
    assert "" != HUMAN_RULE;
    ReplayAppend(trail, ModelIncompleteRow);
    ReplayAppend(trail, ModelRow);
  }

  lemma TaskEnds(s: Store, id: string)
    requires Inv(s)
    ensures Inv(s.(tasks := s.tasks - {id})) && StoreEvolves(s, s.(tasks := s.tasks - {id}))
    ensures PendingIsOwned(s) ==> PendingIsOwned(s.(tasks := s.tasks - {id}))
  {
    var t := s.(tasks := s.tasks - {id});
    assert forall k :: k in s.reviews ==> TrailOf(t, k) == TrailOf(s, k);
  }

  lemma ModelKeeps(s: Store, id: string, d: Ruling, now: int, recorded: bool)
    requires Inv(s) && id in s.tasks && ValidModelRuling(d)
    ensures Inv(AfterModel(s, id, d, now, recorded))
    ensures StoreEvolves(s, AfterModel(s, id, d, now, recorded))
    ensures PendingIsOwned(s) ==> PendingIsOwned(AfterModel(s, id, d, now, recorded))
  {
    TaskEnds(s, id);
    var t := s.(tasks := s.tasks - {id});
    if recorded && ModelVerdictCounts(s, id, now) {
      var r := s.reviews[id];
      assert Holds(r, TrailOf(s, id), id);
      ModelDecidedHolds(r, TrailOf(s, id), d, now);
      var q := ModelDecided(r, d, now);
      hide Holds, Evolves, Inv, StoreEvolves;
      var row := if q.decision == Pending then ModelIncompleteRow else ModelRow;
      CommitEvolves(t, q, row);
      if PendingIsOwned(t) {
        CommitOwned(t, q, row);
      }
      StoreEvolvesTransitive(s, t, AfterModel(s, id, d, now, recorded));
    }
  }

  lemma ResultHolds(r: Review, trail: seq<Action>, e: Execution, result: string)
    requires Holds(r, trail, r.id) && r.decision == Approved && r.execution == AwaitingExecution
    requires e != AwaitingExecution
    ensures Holds(r.(execution := e, result := result), trail + [ResultRow], r.id)
    ensures Evolves(r, r.(execution := e, result := result))
  {
    ReplayAppend(trail, ResultRow);
  }

  lemma ResultKeeps(s: Store, id: string, instance: string, state: Option<Execution>, result: string)
    requires Inv(s) && ResultError(s, id, instance, state) == None
    ensures Inv(AfterResult(s, id, instance, state, result))
    ensures StoreEvolves(s, AfterResult(s, id, instance, state, result))
    ensures PendingIsOwned(s) ==> PendingIsOwned(AfterResult(s, id, instance, state, result))
  {
    var r := s.reviews[id];
    assert Holds(r, TrailOf(s, id), id);
    if r.decision == Approved && r.execution == AwaitingExecution {
      ResultHolds(r, TrailOf(s, id), state.value, result);
      hide Holds, Evolves, Inv, StoreEvolves;
      CommitEvolves(s, r.(execution := state.value, result := result), ResultRow);
      if PendingIsOwned(s) {
        CommitOwned(s, r.(execution := state.value, result := result), ResultRow);
      }
    } else {
      Reflexive(s);
    }
  }
}
