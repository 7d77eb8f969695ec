/** The engine object: its methods update the store and the configuration in place and are
    proved against the store functions of Reviews and Config. */
module EngineObject {
  import opened Common
  import opened Policy
  import opened Reviews
  import RL = ReviewLemmas
  import C = Config
  import S = System

  /** The two append loops of a registration. */
  method AppendUnseen(a: seq<string>, b: seq<string>) returns (r: seq<string>)
    ensures r == AppendMissing(a, b)
  {
    r := a;
    var k := 0;
    while k < |b|
      invariant 0 <= k <= |b|
      invariant AppendMissing(r, b[k..]) == AppendMissing(a, b)
    {
      assert b[k..][1..] == b[k + 1..];
      if b[k] !in r {
        r := r + [b[k]];
      }
      k := k + 1;
    }
  }

  /** The rule table as a slice, sorted by the evaluation order. */
  method ListRules(table: map<string, Rule>) returns (listing: seq<Rule>)
    requires C.RulesValid(table)
    ensures IsListing(listing, table)
  {
    var todo := table.Keys;
    var rows: seq<Rule> := [];
    while todo != {}
      invariant todo <= table.Keys
      invariant forall r :: r in rows <==> r.id in table && r.id !in todo && table[r.id] == r
      invariant WellFormed(rows)
      decreases todo
    {
      var k :| k in todo;
      assert forall i :: 0 <= i < |rows| ==> rows[i] in rows;
      rows := rows + [table[k]];
      todo := todo - {k};
    }
    var slice := new Rule[|rows|](i requires 0 <= i < |rows| => rows[i]);
    assert slice[..] == rows;
    SortRules(slice);
    listing := slice[..];
    SortedIsInOrder(rows);
    SameMembers(rows, listing);
  }

  /** Closing one more review of a sweep. */
  lemma CloseOneMore(s: Store, done: set<string>, why: Review -> Closing, now: int, k: string)
    requires done <= s.reviews.Keys && k in s.reviews && k !in done && s.reviews[k].id == k
    ensures var c := why(s.reviews[k]);
            CloseAll(s, done + {k}, why, now)
                == Commit(CloseAll(s, done, why, now), Closed(s.reviews[k], c.rule, c.comment, now), c.row)
  {
    var c := why(s.reviews[k]);
    var t := CloseAll(s, done, why, now);
    assert TrailOf(t, k) == TrailOf(s, k);
    var a, b := CloseAll(s, done + {k}, why, now), Commit(t, Closed(s.reviews[k], c.rule, c.comment, now), c.row);
    assert a.reviews == b.reviews;
    assert a.trail == b.trail;
  }

  lemma CloseNone(s: Store, why: Review -> Closing, now: int)
    ensures CloseAll(s, {}, why, now) == s
  {
    assert CloseAll(s, {}, why, now).reviews == s.reviews;
    assert CloseAll(s, {}, why, now).trail == s.trail;
  }

  lemma MergedKey(c: C.State, s: C.Settings, key: Option<string>)
    ensures key.Some? ==> C.Merged(c, s, key).apiKey == key.value
  {
  }

  lemma AddsOneReview(t: Store, snap: Snapshot, i: Input, hit: Option<ScopeHit>, facts: Call, now: int)
    requires SubmitError(t, i, now) == None && forall k :: k in t.reviews ==> t.reviews[k].id == k
    ensures var u := AfterSubmit(t, snap, i, hit, facts, now); forall k :: k in u.reviews ==> u.reviews[k].id == k
  {
    hide Key, PolicyRuling, TrailOf;
  }

  lemma AddedStep(added: seq<Rule>, rules: map<string, Rule>, catalog: seq<C.Preset>, k: nat)
    requires k < |catalog|
    ensures added + C.Added(rules, catalog[k..]) ==
            (if catalog[k].rule.id in rules then added else added + [C.PresetFor(rules, catalog[k])])
                + C.Added(rules, catalog[k + 1..])
  {
    assert catalog[k..][1..] == catalog[k + 1..];
  }

  lemma AddedNothing(rules: map<string, Rule>)
    ensures C.Added(rules, []) == []
  {
  }

  class Engine {
    var instances: map<string, Instance>
    var reviews: map<string, Review>
    var trail: map<string, seq<Action>>
    var tasks: set<string>
    var rules: map<string, Rule>
    var scopes: map<string, Scope>
    var settings: C.Settings
    var stored: C.Settings
    var keyFile: string
    var versions: map<int, C.Settings>
    var tests: map<nat, C.Settings>
    ghost var passed: set<C.ModelConfig>
    ghost var named: map<int, C.Named>

    ghost function Records(): Store
      reads `instances, `reviews, `trail, `tasks
    {
      Store(instances, reviews, trail, tasks)
    }

    ghost function Settled(): C.State
      reads `rules, `scopes, `settings, `stored, `keyFile, `versions, `tests, `passed, `named
    {
      C.State(rules, scopes, settings, stored, keyFile, versions, tests, passed, named)
    }

    /** What the listing and sweeping loops rely on; the invariants of Config and ReviewLemmas imply it. */
    ghost predicate Valid()
      reads `reviews, `rules
    {
      (forall k :: k in reviews ==> reviews[k].id == k) && C.RulesValid(rules)
    }

    /** The first start on an empty data directory. */
    constructor (catalog: seq<C.Preset>, prompt: string)
      requires C.ValidCatalog(catalog)
      ensures Valid() && Records() == EMPTY_STORE && Settled() == C.Fresh(catalog, prompt)
    {
      instances, reviews, trail, tasks := map[], map[], map[], {};
      rules, scopes := map[], map[];
      settings := C.Settings(HumanMode, C.OpenAI, "", "", "", false, prompt, 1, 600, 20);
      stored := C.Settings(HumanMode, C.OpenAI, "", "", "", false, prompt, 1, 600, 20);
      keyFile, versions, tests := "", map[], map[];
      passed, named := {}, map[];
      new;
      var added := Missing(catalog);
      PutRules(added);
      named := map[1 := C.Named(rules, scopes, C.Bare(settings))];
      C.FreshRules(catalog);
    }

    // -------------------------------------------------------------- commits

    /** One transaction: the review record and its audit row, or nothing. */
    method CommitReview(r: Review, row: Action, ok: bool) returns (committed: bool)
      modifies `reviews, `trail
      ensures committed == ok
      ensures Records() == if ok then Commit(old(Records()), r, row) else old(Records())
    {
      if !ok {
        return false;
      }
      reviews := reviews[r.id := r];
      trail := trail[r.id := (if r.id in trail then trail[r.id] else []) + [row]];
      return true;
    }

    /** A sweep's update of one pending review. */
    method Close(k: string, c: Closing, now: int, ok: bool) returns (closed: bool)
      requires Valid() && k in reviews
      modifies `reviews, `trail
      ensures Valid() && closed == ok
      ensures Records() == if ok then Commit(old(Records()), Closed(old(reviews)[k], c.rule, c.comment, now), c.row)
                           else old(Records())
    {
      var r := reviews[k];
      r := r.(decision := Rejected, needsHuman := false, execution := NotExecuted,
              ruleId := c.rule, comment := c.comment, decidedAt := Some(now));
      closed := CommitReview(r, c.row, ok);
    }

    /** One transaction: the settings record and its version snapshot, then memory. */
    method CommitSettings(s: C.Settings, ok: bool) returns (committed: bool)
      modifies `settings, `stored, `versions, `named
      ensures committed == ok
      ensures Settled() == if ok then C.CommitSettings(old(Settled()), s) else old(Settled())
    {
      if !ok {
        return false;
      }
      stored := s.(apiKey := "");
      if s.version !in versions {
        versions := versions[s.version := s.(apiKey := "")];
      }
      settings := s;
      named := named[s.version := C.Named(rules, scopes, C.Bare(s))];
      return true;
    }

    /** One transaction: a rule or scope edit together with the next version. */
    method CommitTables(newRules: map<string, Rule>, newScopes: map<string, Scope>, ok: bool) returns (committed: bool)
      modifies `rules, `scopes, `settings, `stored, `versions, `named
      ensures committed == ok
      ensures Settled() == if ok then C.CommitTables(old(Settled()), newRules, newScopes) else old(Settled())
    {
      if !ok {
        return false;
      }
      rules, scopes := newRules, newScopes;
      committed := CommitSettings(settings.(version := settings.version + 1), true);
    }

    // -------------------------------------------------------------- instances

    method Register(i: Instance, remoteOk: bool, hookVersion: string, now: int, ok: bool) returns (err: Option<Error>)
      requires Valid()
      modifies `instances
      ensures Valid()
      ensures err == (if RegisterError(old(Records()), i, remoteOk, hookVersion).Some?
                      then RegisterError(old(Records()), i, remoteOk, hookVersion)
                      else if ok then None else Some(CommitFailed))
      ensures Records() == if err == None then AfterRegister(old(Records()), i, now) else old(Records())
    {
      var j := Normalized(i);
      if !ValidRegistration(j, remoteOk, hookVersion) {
        return Some(BadRegistration);
      }
      var bindings := j.installations;
      j := j.(observed := [], installations := []);
      if i.id in instances {
        if !SameIdentity(instances[i.id], Normalized(i)) {
          return Some(IdentityConflict);
        }
        j := instances[i.id];
      }
      var seen := AppendUnseen(j.observed, j.installations);
      seen := AppendUnseen(seen, bindings);
      j := j.(installations := bindings, observed := seen, heartbeat := now, state := Idle, reason := NoReason,
              online := true);
      if !ok {
        return Some(CommitFailed);
      }
      instances := instances[i.id := j];
      return None;
    }

    method Heartbeat(id: string, activity: Activity, now: int, ok: bool) returns (err: Option<Error>)
      requires Valid()
      modifies `instances
      ensures Valid()
      ensures err == (if HeartbeatError(old(Records()), id).Some? then HeartbeatError(old(Records()), id)
                      else if ok then None else Some(CommitFailed))
      ensures Records() == if err == None then AfterHeartbeat(old(Records()), id, activity, now) else old(Records())
    {
      if id !in instances {
        return Some(UnknownInstance);
      }
      var i := instances[id];
      if i.state == Disconnected {
        return Some(InstanceGone);
      }
      i := i.(heartbeat := now);
      if activity in {Idle, Running, AwaitingReview} {
        i := i.(state := activity);
      }
      if !ok {
        return Some(CommitFailed);
      }
      instances := instances[id := i];
      return None;
    }

    /** Disconnecting marks the instance, then cancels its pending reviews until a commit fails. */
    method Disconnect(id: string, now: int, ok: bool, failing: set<string>)
      returns (err: Option<Error>, ghost done: set<string>)
      requires Valid()
      modifies `instances, `reviews, `trail
      ensures Valid()
      ensures err == None <==> id in old(instances) && ok && PendingOf(old(Records()), id) !! failing
      ensures done <= PendingOf(old(Records()), id) && (err == None ==> done == PendingOf(old(Records()), id))
      ensures Records() == if id in old(instances) && ok then AfterDisconnect(old(Records()), id, done, now)
              else old(Records())
    {
      done := {};
      if id !in instances {
        return Some(UnknownInstance), done;
      }
      if !ok {
        return Some(CommitFailed), done;
      }
      ghost var s := Records();
      instances := instances[id := instances[id].(state := Disconnected, reason := SessionEnd, online := false)];
      ghost var why := (r: Review) => SESSION_ENDED;
      ghost var m := Records();
      ghost var pending := PendingOf(s, id);
      assert forall k ::
          k in pending <==> k in m.reviews && m.reviews[k].instance == id && m.reviews[k].decision == Pending;
      CloseNone(m, why, now);
      hide PendingOf, Closed;
      var todo := reviews.Keys;
      while todo != {}
        invariant Valid() && todo <= m.reviews.Keys && done <= m.reviews.Keys
        invariant forall k :: k in done <==> k in pending && k !in todo
        invariant done !! failing
        invariant Records() == CloseAll(m, done, why, now)
        decreases todo
      {
        var k :| k in todo;
        var r := reviews[k];
        assert r == m.reviews[k];
        if r.instance == id && r.decision == Pending {
          CloseOneMore(m, done, why, now, k);
          var c := Close(k, SESSION_ENDED, now, k !in failing);
          if !c {
            return Some(CommitFailed), done;
          }
          done := done + {k};
        }
        todo := todo - {k};
      }
      assert done == pending;
      return None, done;
    }

    // -------------------------------------------------------------- reviews

    method Consult(rows: seq<Rule>, hit: Option<ScopeHit>, facts: Call) returns (d: Option<Ruling>)
      ensures d == PolicyRuling(S.SnapshotOf(Settled(), rows), hit, facts)
    {
      if hit.Some? {
        return Some(ScopeRuling(hit.value));
      }
      d := EvaluatePaths(rows, facts);
    }

    /** The record of a fresh submission, pending. */
    method Prepare(i: Input, rows: seq<Rule>, now: int) returns (review: Review)
      requires i.instance in instances && i.arguments.Some?
      ensures review == Draft(Records(), S.SnapshotOf(Settled(), rows), i, now)
      ensures review.id == Key(i.instance, i.call)
    {
      var inst := instances[i.instance];
      ghost var snap := S.SnapshotOf(Settled(), rows);
      var applicable := set k | k in scopes && scopes[k].node == inst.node :: scopes[k];
      assert (set c | c in snap.scopes && c.node == inst.node) == applicable by {
        S.SameScopes(scopes, inst.node);
      }
      hide Key;
      review := Review(
        Key(i.instance, i.call), i.instance, i.call, Digest(i.tool, i.arguments.value, i.capture, i.scripts),
        inst.session, inst.cwd, settings.mode, HumanPath, settings.version, settings.prompt, settings.modelName,
        rows, applicable, inst.node,
        Pending, "", "", NotExecuted, "", now, now + settings.approvalSeconds * SECOND, None, false, None);
    }

    /** Deterministic policy, then a human or the model as configured. */
    method Assess(i: Input, rows: seq<Rule>, hit: Option<ScopeHit>, facts: Call, now: int) returns (review: Review)
      requires i.instance in instances && i.arguments.Some?
      ensures review == NewReview(Records(), S.SnapshotOf(Settled(), rows), i, hit, facts, now)
      ensures review.id == Key(i.instance, i.call)
    {
      review := Prepare(i, rows, now);
      var d := Consult(rows, hit, facts);
      var path := if hit.Some? then ScopePath else RulePath;
      ghost var snap := S.SnapshotOf(Settled(), rows);
      assert snap.mode == settings.mode && snap.prompt == settings.prompt && snap.modelSeconds == settings.modelSeconds;
      hide PolicyRuling, Draft, Key, S.SnapshotOf, ModelPrompt;
      var forced := d.Some? && d.value.verdict == Approve && i.capture == Incomplete;
      if d.Some? && !forced {
        review := review.(path := path, decision := DecisionOf(d.value.verdict), ruleId := d.value.ruleId,
                          comment := d.value.comment, decidedAt := Some(now));
        if d.value.verdict == Approve {
          review := review.(execution := AwaitingExecution);
        }
      } else if forced {
        review := review.(needsHuman := true, comment := INCOMPLETE_COMMENT);
      } else if settings.mode == HumanMode {
        review := review.(needsHuman := true);
      } else {
        review := review.(path := ModelPath, prompt := ModelPrompt(settings.prompt),
                          deadline := now + (settings.modelSeconds + 5) * SECOND);
      }
    }

    /** The checks of a submission: a live instance, a complete call, and no other call under the same id. */
    method Admit(i: Input, now: int) returns (err: Option<Error>)
      ensures err == SubmitError(Records(), i, now)
      ensures err == None ==> i.instance in instances && i.arguments.Some?
    {
      if i.instance !in instances {
        return Some(UnknownInstance);
      }
      var inst := instances[i.instance];
      if inst.state == Disconnected || now - inst.heartbeat > SILENCE_LIMIT {
        return Some(InstanceGone);
      }
      if i.call == "" || i.tool == "" || i.arguments == None {
        return Some(MissingField);
      }
      var digest := Digest(i.tool, i.arguments.value, i.capture, i.scripts);
      var id := Key(i.instance, i.call);
      if id in reviews && reviews[id].digest != digest {
        return Some(ReusedCall);
      }
      return None;
    }

    /** A submission under given rules: replay of a stored call, or a fresh record. */
    method SubmitUnder(i: Input, rows: seq<Rule>, hit: Option<ScopeHit>, facts: Call, now: int, ok: bool)
      returns (r: Option<Review>, err: Option<Error>)
      requires SubmitError(Records(), i, now) == None && i.instance in instances && i.arguments.Some?
      modifies `reviews, `trail, `tasks
      ensures err == if ok || Key(i.instance, i.call) in old(reviews) then None else Some(CommitFailed)
      ensures err == None ==>
                && Records() == AfterSubmit(old(Records()), S.SnapshotOf(Settled(), rows), i, hit, facts, now)
                && Key(i.instance, i.call) in reviews && r == Some(reviews[Key(i.instance, i.call)])
      ensures err != None ==> Records() == old(Records()) && r == None
    {
      hide SubmitError, NewReview, Key, S.SnapshotOf;
      var id := Key(i.instance, i.call);
      if id in reviews {
        return Some(reviews[id]), None;
      }
      var review := Assess(i, rows, hit, facts, now);
      var committed := Enter(review, ok);
      if !committed {
        return None, Some(CommitFailed);
      }
      return Some(review), None;
    }

    /** Submission: identity checks, replay of a stored call, deterministic policy, then a human or the model. */
    method Submit(i: Input, hit: Option<ScopeHit>, facts: Call, now: int, ok: bool)
      returns (r: Option<Review>, err: Option<Error>, ghost listing: seq<Rule>)
      requires Valid()
      modifies `reviews, `trail, `tasks
      ensures Valid()
      ensures IsListing(listing, rules)
      ensures err == (if SubmitError(old(Records()), i, now).Some? then SubmitError(old(Records()), i, now)
                      else if ok || Key(i.instance, i.call) in old(reviews) then None else Some(CommitFailed))
      ensures err == None ==>
                && Records() == AfterSubmit(old(Records()), S.SnapshotOf(Settled(), listing), i, hit, facts, now)
                && Key(i.instance, i.call) in reviews && r == Some(reviews[Key(i.instance, i.call)])
      ensures err != None ==> Records() == old(Records()) && r == None
    {
      var rows := ListRules(rules);
      listing := rows;
      err := Admit(i, now);
      r := None;
      if err == None {
        AddsOneReview(Records(), S.SnapshotOf(Settled(), rows), i, hit, facts, now);
        hide SubmitError, AfterSubmit, S.SnapshotOf, IsListing, C.RulesValid, Key;
        r, err := SubmitUnder(i, rows, hit, facts, now, ok);
      }
    }

    /** The record and its audit row are committed, and a model review starts if the call is left to the model. */
    method Enter(review: Review, ok: bool) returns (committed: bool)
      modifies `reviews, `trail, `tasks
      ensures committed == ok
      ensures Records() == if ok then WithSubmission(old(Records()), review) else old(Records())
    {
      committed := CommitReview(review, SubmitRow, ok);
      if committed && review.path == ModelPath {
        tasks := tasks + {review.id};
      }
    }

    method Decide(id: string, digest: Digest, v: Verdict, comment: string, now: int, ok: bool)
      returns (err: Option<Error>)
      requires Valid()
      modifies `reviews, `trail
      ensures Valid()
      ensures err == (if DecideError(old(Records()), id, digest, v, comment, now).Some?
                      then DecideError(old(Records()), id, digest, v, comment, now)
                      else if ok || old(reviews)[id].decision != Pending then None else Some(CommitFailed))
      ensures Records() == if err == None then AfterDecide(old(Records()), id, digest, v, comment, now)
              else old(Records())
    {
      if id !in reviews {
        return Some(UnknownReview);
      }
      var r := reviews[id];
      if r.digest != digest {
        return Some(WrongDigest);
      }
      if v != Approve && v != Reject {
        return Some(BadVerdict);
      }
      if r.mode != HumanMode && r.path != HumanPath {
        return Some(NotForHumans);
      }
      if r.decision != Pending {
        if r.decision == DecisionOf(v) && r.ruleId == HUMAN_RULE {
          return None;
        }
        return Some(AlreadyDecided);
      }
      if now > r.deadline {
        return Some(DeadlinePassed);
      }
      if v == Reject && comment == "" {
        return Some(ReasonRequired);
      }
      r := r.(decision := DecisionOf(v), needsHuman := false, ruleId := HUMAN_RULE,
              comment := if comment == "" then "人工批准本次工具调用" else comment, decidedAt := Some(now));
      if v == Approve {
        r := r.(execution := AwaitingExecution);
      }
      var c := CommitReview(r, HumanRow, ok);
      return if c then None else Some(CommitFailed);
    }

    /** The tail of one model goroutine, once the lock is taken again. */
    method FinishModelReview(id: string, d: Ruling, now: int, usageOk: bool, ok: bool)
      requires Valid() && id in tasks && ValidModelRuling(d)
      modifies `reviews, `trail, `tasks
      ensures Valid()
      ensures Records() == AfterModel(old(Records()), id, d, now, usageOk && ok)
    {
      tasks := tasks - {id};
      if !usageOk || id !in reviews {
        return;
      }
      var r := reviews[id];
      if r.decision != Pending || r.needsHuman || now > r.deadline {
        return;
      }
      r := r.(modelVerdict := Some(d));
      if r.digest.capture == Incomplete && d.verdict == Approve {
        r := r.(decision := Pending, needsHuman := true, path := HumanPath, ruleId := "",
                comment := INCOMPLETE_COMMENT, decidedAt := None, execution := NotExecuted);
        var _ := CommitReview(r, ModelIncompleteRow, ok);
        return;
      }
      r := r.(decision := DecisionOf(d.verdict), ruleId := d.ruleId, comment := d.comment, decidedAt := Some(now));
      if d.verdict == Approve {
        r := r.(execution := AwaitingExecution);
      }
      var _ := CommitReview(r, ModelRow, ok);
    }

    method Result(id: string, instance: string, state: Option<Execution>, result: string, ok: bool)
      returns (err: Option<Error>)
      requires Valid()
      modifies `reviews, `trail
      ensures Valid()
      ensures var s := old(Records());
              err == (if ResultError(s, id, instance, state).Some? then ResultError(s, id, instance, state)
                      else if ok || AfterResult(s, id, instance, state, result) == s then None else Some(CommitFailed))
      ensures Records() == if err == None then AfterResult(old(Records()), id, instance, state, result)
              else old(Records())
    {
      if id !in reviews {
        return Some(UnknownReview);
      }
      var r := reviews[id];
      if r.instance != instance {
        return Some(WrongInstance);
      }
      if r.decision == Pending {
        return Some(NotDecided);
      }
      if r.decision == Rejected {
        return if state == Some(NotExecuted) then None else Some(BadResult);
      }
      if state == None || state == Some(AwaitingExecution) {
        return Some(BadResult);
      }
      if r.execution != AwaitingExecution {
        return if r.execution == state.value then None else Some(AlreadyReported);
      }
      assert AfterResult(Records(), id, instance, state, result).reviews[id].execution != r.execution;
      r := r.(execution := state.value, result := result);
      var c := CommitReview(r, ResultRow, ok);
      return if c then None else Some(CommitFailed);
    }

    /** The sweep closes every review that is due and whose commit goes through. */
    method Expire(now: int, failing: set<string>)
      requires Valid()
      modifies `reviews, `trail
      ensures Valid()
      ensures Records() == AfterExpire(old(Records()), DueKeys(old(Records()), now) - failing, now)
    {
      ghost var s := Records();
      ghost var why := (r: Review) => SweepReason(s, r, now);
      ghost var due, done: set<string> := DueKeys(s, now), {};
      assert forall k :: k in due <==> k in s.reviews && Due(s, s.reviews[k], now);
      CloseNone(s, why, now);
      hide DueKeys;
      var todo := reviews.Keys;
      while todo != {}
        invariant Valid() && todo <= s.reviews.Keys && done <= s.reviews.Keys
        invariant forall k :: k in done <==> k in due && k !in failing && k !in todo
        invariant Records() == CloseAll(s, done, why, now)
        decreases todo
      {
        var k :| k in todo;
        assert reviews[k] == s.reviews[k];
        var closed := CloseIfDue(k, now, k !in failing);
        if k in due {
          CloseOneMore(s, done, why, now, k);
        }
        if closed {
          done := done + {k};
        }
        todo := todo - {k};
      }
      assert done == due - failing;
    }

    /** One turn of the sweep: a passed deadline first, then a silent owner. */
    method CloseIfDue(k: string, now: int, ok: bool) returns (closed: bool)
      requires Valid() && k in reviews
      modifies `reviews, `trail
      ensures Valid()
      ensures var s := old(Records());
              var r := s.reviews[k];
              var c := SweepReason(s, r, now);
              && (closed <==> Due(s, r, now) && ok)
              && Records() == if closed then Commit(s, Closed(r, c.rule, c.comment, now), c.row) else s
    {
      var r := reviews[k];
      if r.decision != Pending {
        return false;
      }
      var online := r.instance in instances && instances[r.instance].state != Disconnected
                    && now - instances[r.instance].heartbeat < SILENCE_LIMIT;
      var closing := SESSION_LOST;
      if now > r.deadline {
        closing := TIMED_OUT;
      } else if online {
        return false;
      }
      closed := Close(k, closing, now, ok);
    }

    // -------------------------------------------------------------- configuration

    method SaveRule(r: Rule, builtinIds: set<string>, patternOk: bool, textOk: bool, ok: bool)
      returns (err: Option<C.ConfigError>)
      requires Valid() && forall id :: id in builtinIds ==> id != "" && id != HUMAN_RULE
      modifies `rules, `scopes, `settings, `stored, `versions, `named
      ensures Valid()
      ensures err == (if C.SaveRuleError(r, builtinIds, patternOk, textOk).Some?
                      then C.SaveRuleError(r, builtinIds, patternOk, textOk)
                      else if ok then None else Some(C.NotCommitted))
      ensures Settled() == if err == None then C.AfterSaveRule(old(Settled()), r, builtinIds) else old(Settled())
    {
      var known := r.id in builtinIds;
      if !known && (!C.IsCustomId(r.id) || r.builtin) {
        return Some(C.BadRule);
      }
      if r.decision != Approve && r.decision != Reject {
        return Some(C.BadRule);
      }
      if !textOk || !patternOk || r.matcher.OtherMatcher? || (r.matcher == Semantic && !known) {
        return Some(C.BadRule);
      }
      C.SavedRuleIsValid(r, builtinIds, patternOk, textOk);
      var c := CommitTables(rules[r.id := r.(builtin := known)], scopes, ok);
      return if c then None else Some(C.NotCommitted);
    }

    method DeleteRule(id: string, ok: bool) returns (err: Option<C.ConfigError>)
      requires Valid()
      modifies `rules, `scopes, `settings, `stored, `versions, `named
      ensures Valid()
      ensures err == (if "U_" <= id then if ok then None else Some(C.NotCommitted) else Some(C.BuiltinRule))
      ensures Settled() == if err == None then C.AfterDeleteRule(old(Settled()), id) else old(Settled())
    {
      if !("U_" <= id) {
        return Some(C.BuiltinRule);
      }
      var c := CommitTables(rules - {id}, scopes, ok);
      return if c then None else Some(C.NotCommitted);
    }

    /** `valid` says whether the scope's paths, name and targets pass validation. */
    method SaveScope(scope: Scope, valid: bool, ok: bool) returns (err: Option<C.ConfigError>)
      requires Valid()
      modifies `rules, `scopes, `settings, `stored, `versions, `named
      ensures Valid()
      ensures err == (if !valid then Some(C.BadScope) else if ok then None else Some(C.NotCommitted))
      ensures Settled() == if err == None then C.AfterSaveScope(old(Settled()), scope) else old(Settled())
    {
      if !valid {
        return Some(C.BadScope);
      }
      var c := CommitTables(rules, scopes[scope.id := scope], ok);
      return if c then None else Some(C.NotCommitted);
    }

    method DeleteScope(id: string, ok: bool) returns (err: Option<C.ConfigError>)
      requires Valid()
      modifies `rules, `scopes, `settings, `stored, `versions, `named
      ensures Valid()
      ensures err == if ok then None else Some(C.NotCommitted)
      ensures Settled() == if err == None then C.AfterDeleteScope(old(Settled()), id) else old(Settled())
    {
      var c := CommitTables(rules, scopes - {id}, ok);
      return if c then None else Some(C.NotCommitted);
    }

    /** Validation, and the record about to be stored. */
    method Merge(s: C.Settings, key: Option<string>, urlOk: bool) returns (n: C.Settings, err: Option<C.ConfigError>)
      ensures err == C.SaveSettingsError(Settled(), s, key, urlOk)
      ensures err == None ==> n == C.Merged(Settled(), s, key)
    {
      n := s;
      if s.approvalSeconds < 10 || s.approvalSeconds > 86400 || s.modelSeconds < 1 || s.modelSeconds > 120 {
        return n, Some(C.OutOfRange);
      }
      if |s.prompt| < 20 || |s.prompt| > 32000 {
        return n, Some(C.BadPrompt);
      }
      if n.protocol == C.Unspecified {
        n := n.(protocol := C.OpenAI);
      }
      if n.protocol.OtherProtocol? {
        return n, Some(C.BadProtocol);
      }
      n := n.(apiKey := settings.apiKey);
      var changed := n.protocol != settings.protocol || n.baseUrl != settings.baseUrl
          || n.modelName != settings.modelName;
      if key.Some? && key.value != n.apiKey {
        n := n.(apiKey := key.value);
        changed := true;
      }
      n := n.(tested := settings.tested && !changed);
      if n.baseUrl != "" && !urlOk {
        return n, Some(C.BadUrl);
      }
      if n.mode == ModelMode && !n.tested {
        return n, Some(C.NotTested);
      }
      return n.(version := settings.version + 1), None;
    }

    /** Saving settings writes the key file before the commit and restores it when the commit fails. */
    method SaveSettings(s: C.Settings, key: Option<string>, urlOk: bool, keyOk: bool, ok: bool, rollbackOk: bool)
      returns (err: Option<C.ConfigError>)
      requires Valid()
      modifies `keyFile, `settings, `stored, `versions, `named
      ensures Valid()
      ensures var e := C.SaveSettingsError(old(Settled()), s, key, urlOk);
              var w := if key.Some? && !keyOk then C.KeyFailed else if ok then C.Written
                       else if rollbackOk then C.CommitRolledBack else C.RollbackFailed;
              && (err == None <==> e == None && w == C.Written)
              && Settled() == if e == None then C.AfterSaveSettings(old(Settled()), s, key, w) else old(Settled())
    {
      var n, e := Merge(s, key, urlOk);
      if e != None {
        return e;
      }
      hide C.SaveSettingsError, C.Merged;
      ghost var before := Settled();
      assert key.Some? ==> C.Merged(before, s, key).apiKey == key.value by {
        MergedKey(before, s, key);
      }
      if key.Some? {
        if !keyOk {
          return Some(C.KeyNotWritten);
        }
        keyFile := n.apiKey;
      }
      var done := CommitSettings(n, ok);
      if !done {
        if key.Some? && rollbackOk {
          keyFile := settings.apiKey;
        }
        return Some(C.NotCommitted);
      }
      return None;
    }

    /** TestModel up to the point where it releases the lock. */
    method BeginTest(test: nat)
      requires Valid()
      modifies `tests
      ensures Valid() && Settled() == C.AfterBeginTest(old(Settled()), test)
    {
      tests := tests[test := settings];
    }

    /** TestModel once the reply is in and the lock is taken again. */
    method FinishTest(test: nat, success: bool, usageOk: bool, ok: bool) returns (err: Option<C.ConfigError>)
      requires Valid() && test in tests
      modifies `tests, `settings, `stored, `versions, `named, `passed
      ensures Valid()
      ensures err == None <==> C.FinishTestError(old(Settled()), test, success, usageOk && ok) == None
      ensures Settled() == C.AfterFinishTest(old(Settled()), test, success, usageOk && ok)
    {
      var s := tests[test];
      tests := tests - {test};
      if success {
        passed := passed + {C.ModelOf(s)};
      }
      if !usageOk {
        return Some(C.NotCommitted);
      }
      if !success {
        return Some(C.TestFailed);
      }
      if settings.version != s.version {
        return Some(C.SettingsChanged);
      }
      var c := CommitSettings(s.(tested := true), ok);
      return if c then None else Some(C.NotCommitted);
    }

    // -------------------------------------------------------------- restart

    /** The catalog entries the rule table lacks, switched off under a customised category. */
    method Missing(catalog: seq<C.Preset>) returns (added: seq<Rule>)
      ensures added == C.Added(rules, catalog)
    {
      added := [];
      var k := 0;
      assert catalog[0..] == catalog;
      hide C.Added;
      while k < |catalog|
        invariant 0 <= k <= |catalog|
        invariant added + C.Added(rules, catalog[k..]) == C.Added(rules, catalog)
      {
        var p := catalog[k];
        AddedStep(added, rules, catalog, k);
        if p.rule.id !in rules {
          var r := p.rule;
          if p.parent != "" && p.parent in rules {
            var parent := rules[p.parent];
            if !parent.enabled || parent.decision != Reject || parent.matcher != Semantic || parent.tool != "" {
              r := r.(enabled := false);
            }
          }
          added := added + [r];
        }
        k := k + 1;
      }
      assert catalog[k..] == [];
      AddedNothing(rules);
    }

    method PutRules(added: seq<Rule>)
      modifies `rules
      ensures rules == C.PutAll(old(rules), added)
    {
      var k := 0;
      while k < |added|
        invariant 0 <= k <= |added|
        invariant C.PutAll(rules, added[k..]) == C.PutAll(old(rules), added)
      {
        assert added[k..][1..] == added[k + 1..];
        rules := rules[added[k].id := added[k]];
        k := k + 1;
      }
    }

    method UpgradeRules(catalog: seq<C.Preset>, ok: bool) returns (upgraded: bool)
      requires Valid() && C.ValidCatalog(catalog)
      modifies `rules, `settings, `stored, `versions, `named
      ensures Valid()
      ensures upgraded <==> ok || C.Added(old(rules), catalog) == []
      ensures Settled() == if upgraded then C.AfterUpgradeRules(old(Settled()), catalog) else old(Settled())
    {
      hide C.RulesValid, C.Added, C.PutAll, C.ValidCatalog;
      C.UpgradedRulesAreValid(Settled(), catalog);
      var added := Missing(catalog);
      if added == [] {
        return true;
      }
      if !ok {
        return false;
      }
      PutRules(added);
      var n := settings.(version := settings.version + 1);
      stored := n.(apiKey := "");
      versions := versions[n.version := n.(apiKey := "")];
      settings := n;
      named := named[n.version := C.Named(rules, scopes, C.Bare(n))];
      assert Settled() == C.AfterUpgradeRules(old(Settled()), catalog);
      hide C.AfterUpgradeRules;
      return true;
    }

    /** Restart recovery rejects every pending review, stopping at the first failed commit. */
    method CancelPending(now: int, failing: set<string>) returns (finished: bool, ghost done: set<string>)
      requires Valid()
      modifies `reviews, `trail, `tasks
      ensures Valid()
      ensures finished <==> PendingKeys(old(Records())) !! failing
      ensures done <= PendingKeys(old(Records())) && (finished <==> done == PendingKeys(old(Records())))
      ensures Records() == AfterRestart(old(Records()), done, now)
    {
      ghost var s := Records();
      tasks := {};
      ghost var m := Records();
      ghost var why := (r: Review) => RESTARTED;
      ghost var pending := PendingKeys(s);
      done := {};
      assert forall k :: k in pending <==> k in m.reviews && m.reviews[k].decision == Pending;
      CloseNone(m, why, now);
      hide PendingKeys, Closed;
      var todo := reviews.Keys;
      while todo != {}
        invariant Valid() && todo <= m.reviews.Keys && done <= m.reviews.Keys
        invariant forall k :: k in done <==> k in pending && k !in todo
        invariant done !! failing
        invariant Records() == CloseAll(m, done, why, now)
        decreases todo
      {
        var k :| k in todo;
        var r := reviews[k];
        assert r == m.reviews[k];
        if r.decision == Pending {
          CloseOneMore(m, done, why, now, k);
          var c := Close(k, RESTARTED, now, k !in failing);
          if !c {
            return false, done;
          }
          done := done + {k};
        }
        todo := todo - {k};
      }
      assert done == pending;
      return true, done;
    }

    /** The first half of a start: memory from the stored record and key file, then the prompt migration. */
    method Reload(prompt: string, ok: bool) returns (migrated: bool)
      modifies `settings, `stored, `versions, `named, `tests
      ensures migrated <==> ok || prompt == old(C.AfterReload(Settled()).settings.prompt)
      ensures Settled() == C.AfterUpgradePrompt(C.AfterReload(old(Settled())), prompt, migrated)
    {
      stored := C.WithProtocol(stored);
      settings := stored.(apiKey := keyFile);
      tests := map[];
      if prompt == settings.prompt {
        return true;
      }
      if settings.version !in versions {
        versions := versions[settings.version := settings.(apiKey := "")];
      }
      migrated := CommitSettings(settings.(prompt := prompt, version := settings.version + 1), ok);
    }

    /** Opening an existing data directory: reload, migrate, reject what was pending, mark instances
        disconnected. Every step is committed on its own; a failed one ends the start, and `stage`
        says how far it got. */
    method Reopen(catalog: seq<C.Preset>, prompt: string, now: int, promptOk: bool, rulesOk: bool,
                  failing: set<string>, stuck: set<string>)
      returns (started: bool, ghost stage: nat, ghost done: set<string>)
      requires Valid() && C.ValidCatalog(catalog)
      modifies this
      ensures Valid() && stage <= 3 && (started <==> stage == 3)
      ensures stage == 0 ==>
                && Settled() == C.AfterUpgradePrompt(C.AfterReload(old(Settled())), prompt, false)
                && Records() == old(Records())
      ensures stage == 1 ==>
                && Settled() == C.AfterUpgradePrompt(C.AfterReload(old(Settled())), prompt, true)
                && Records() == old(Records())
      ensures stage >= 2 ==>
                && Settled() == C.AfterUpgradeRules(C.AfterUpgradePrompt(C.AfterReload(old(Settled())), prompt, true),
                                                    catalog)
                && done <= PendingKeys(old(Records()))
      ensures stage == 2 ==> Records() == AfterRestart(old(Records()), done, now) && done != PendingKeys(old(Records()))
      ensures stage == 3 ==>
                && PendingKeys(old(Records())) !! failing && done == PendingKeys(old(Records()))
                && Records() == AfterInstancesLost(AfterRestart(old(Records()), done, now), old(instances).Keys - stuck)
    {
      hide *;
      done, stage := {}, 0;
      started := Reload(prompt, promptOk);
      if !started {
        return;
      }
      stage := 1;
      started := UpgradeRules(catalog, rulesOk);
      if !started {
        return;
      }
      stage := 2;
      started, done := CancelPending(now, failing);
      if started {
        stage := 3;
        MarkInstancesLost(stuck);
      }
    }

    /** The last loop of a start: instances whose record can be rewritten become disconnected. */
    method MarkInstancesLost(stuck: set<string>)
      modifies `instances
      ensures Records() == AfterInstancesLost(old(Records()), old(instances).Keys - stuck)
    {
      ghost var was := instances;
      var todo := instances.Keys;
      while todo != {}
        invariant todo <= was.Keys && instances.Keys == was.Keys
        invariant instances == AfterInstancesLost(Store(was, map[], map[], {}), was.Keys - stuck - todo).instances
        decreases todo
      {
        var k :| k in todo;
        var i := instances[k];
        if i.state != Disconnected {
          i := i.(reason := ServiceRestart);
        }
        if k !in stuck {
          instances := instances[k := i.(state := Disconnected, online := false)];
        }
        todo := todo - {k};
      }
    }
  }
}
