/** When a hook run lets its call go: permits, the replies they rest on, and the hook's polling loop. */
module Permits {
  import opened Common
  import opened Policy
  import opened Reviews
  import RL = ReviewLemmas
  import C = Config
  import opened Bridge
  import opened System

  // ---------------------------------------------------------------- end to end

  predicate IsFetch(op: Op, run: nat) {
    (op.HookSubmit? || op.HookPoll?) && op.run == run
  }

  predicate Touches(op: Op, run: nat) {
    (op.HookStart? || op.HookAct? || op.HookGiveUp? || IsFetch(op, run)) && op.run == run
  }

  /** Step m fetched the reply the run still holds before step n. */
  predicate LastFetch(ops: seq<Op>, run: nat, m: nat, n: nat) {
    m < n <= |ops| && IsFetch(ops[m], run) && forall j :: m < j < n ==> !Touches(ops[j], run)
  }

  ghost predicate GivesPermit(s: Sys, op: Op, run: nat) {
    && Enabled(s, op) && run in s.runs && s.runs[run].stage != Allowed
    && run in Next(s, op).runs && Next(s, op).runs[run].stage == Allowed
  }

  /** Only an act permits, and only on an allowing reply. */
  lemma PermitIsAct(s: Sys, op: Op, run: nat)
    requires Enabled(s, op)
    ensures GivesPermit(s, op, run) <==>
              && op == HookAct(run) && run in s.runs
              && var i := s.runs[run].input; Judge(Key(i.instance, i.call), s.runs[run].stage.view) == Allow
  {
    if op.HookSubmit? {
      SubmitStages(s, op);
    }
    if op.HookPoll? {
      PollStages(s, op.run);
    }
    hide StoreAfter, ConfigAfter, SubmitStage, PollStage, Judge, Key;
  }

  lemma UntouchedRun(s: Sys, op: Op, run: nat)
    requires Enabled(s, op) && run in RunsAfter(s, op)
    ensures !Touches(op, run) ==> run in s.runs && RunsAfter(s, op)[run] == s.runs[run]
    ensures Touches(op, run) && RunsAfter(s, op)[run].stage.Fetched? ==> IsFetch(op, run)
  {
    hide Enabled, SubmitStage, PollStage, Judge;
  }

  /** A reply in hand was fetched by an earlier step of the same run, and nothing happened to the run since. */
  lemma {:induction false} FetchedBy(states: seq<Sys>, ops: seq<Op>, n: nat, run: nat) returns (m: nat)
    requires IsRun(states, ops) && n <= |ops| && run in states[n].runs && states[n].runs[run].stage.Fetched?
    ensures LastFetch(ops, run, m, n)
    ensures forall j :: m < j <= n ==> run in states[j].runs && states[j].runs[run] == states[n].runs[run]
  {
    hide IsRun, Touches, IsFetch;
    RunLength(states, ops);
    assert n > 0;
    BeforeStep(states, ops, n - 1, run);
    m := n - 1;
    if !Touches(ops[n - 1], run) {
      m := FetchedBy(states, ops, n - 1, run);
    }
  }

  /** Where a reply in hand after step n comes from: the step fetched it, or left the run alone. */
  lemma BeforeStep(states: seq<Sys>, ops: seq<Op>, n: nat, run: nat)
    requires IsRun(states, ops) && n < |ops| && run in states[n + 1].runs && states[n + 1].runs[run].stage.Fetched?
    ensures Touches(ops[n], run) ==> IsFetch(ops[n], run)
    ensures !Touches(ops[n], run) ==> run in states[n].runs && states[n].runs[run] == states[n + 1].runs[run]
  {
    hide *;
    StepOf(states, ops, n);
    UntouchedRun(states[n], ops[n], run);
  }

  lemma LastFetchIsUnique(ops: seq<Op>, run: nat, m: nat, k: nat, n: nat)
    requires LastFetch(ops, run, m, n) && LastFetch(ops, run, k, n)
    ensures m == k
  {
    assert Touches(ops[m], run) && Touches(ops[k], run);
  }

  /** The review of a call's key is approved, awaits execution and holds the call's digest. */
  predicate ApprovedCall(t: Store, i: Input) {
    && Stored(t, i)
    && t.reviews[Key(i.instance, i.call)].decision == Approved
    && t.reviews[Key(i.instance, i.call)].execution == AwaitingExecution
  }

  /** What the run holds after a fetch: the stored review's view at that moment. */
  lemma FetchStep(s: Sys, op: Op, run: nat)
    requires Inv(s) && Enabled(s, op) && IsFetch(op, run) && run in Next(s, op).runs
             && Next(s, op).runs[run].stage.Fetched?
    ensures run in s.runs
    ensures var i, t := s.runs[run].input, StoreAfter(s, op);
            && Next(s, op).runs[run].input == i && Stored(t, i)
            && Next(s, op).runs[run].stage.view == ViewOf(t.reviews[Key(i.instance, i.call)])
            && (op.HookPoll? ==> t.reviews[Key(i.instance, i.call)].instance == i.instance)
  {
    assert run in s.runs && RunOk(s.store, s.runs[run]);
    hide Inv, ConfigAfter, SubmitStage, PollStage, ViewOf, Stored, RunOk;
    if op.HookSubmit? {
      hide StoreAfter;
      FetchShows(s, op);
    } else {
      PollShows(s, run);
    }
  }

  /** When a view of a stored review permits. */
  lemma ViewPermits(t: Store, id: string)
    requires RL.Inv(t) && id in t.reviews
    ensures Judge(id, ViewOf(t.reviews[id])) == Allow <==>
              && t.reviews[id].decision == Approved && t.reviews[id].execution == AwaitingExecution
              && t.reviews[id].deadline != 0
  {
    assert RL.Holds(t.reviews[id], TrailOf(t, id), id);
    hide RL.Inv, RL.TrailAgrees, Key;
  }

  /** An act on a reply in hand permits exactly when the review was approved and awaiting execution,
      with a deadline, at the moment the reply was fetched, whatever happened since. */
  lemma PermitIff(states: seq<Sys>, ops: seq<Op>, m: nat, n: nat, run: nat)
    requires IsRun(states, ops) && n < |ops| && ops[n] == HookAct(run) && LastFetch(ops, run, m, n)
    ensures run in states[n].runs
    ensures var i := states[n].runs[run].input;
            && Stored(states[m + 1].store, i)
            && (GivesPermit(states[n], ops[n], run) <==>
                  && ApprovedCall(states[m + 1].store, i)
                  && states[m + 1].store.reviews[Key(i.instance, i.call)].deadline != 0)
  {
    assert Enabled(states[n], ops[n]);
    PermitIsAct(states[n], ops[n], run);
    var k := FetchedBy(states, ops, n, run);
    LastFetchIsUnique(ops, run, m, k, n);
    RunKeepsInv(states, ops, m);
    RunKeepsInv(states, ops, m + 1);
    assert Enabled(states[m], ops[m]) && states[m + 1] == Next(states[m], ops[m]);
    assert RL.Inv(states[m + 1].store);
    hide IsRun, Inv, RL.Inv, StoreAfter, ConfigAfter, RunsAfter, GivesPermit, Enabled, ViewOf, Judge, Key;
    FetchStep(states[m], ops[m], run);
    var i := states[n].runs[run].input;
    ViewPermits(states[m + 1].store, Key(i.instance, i.call));
  }

  /** Where an act leaves the run, from the fields of the review its reply was fetched from: it waits
      exactly while the review is undecided, whatever comment or rule the review already carries. */
  predicate ActedOn(r: Review, stage: Stage) {
    && (stage == Waiting <==> r.deadline != 0 && r.decision == Pending)
    && (stage == Allowed <==> r.deadline != 0 && r.decision == Approved && r.execution == AwaitingExecution)
    && (stage == Waiting || stage == Allowed || stage == Denied)
  }

  lemma ViewActedOn(t: Store, id: string)
    requires RL.Inv(t) && id in t.reviews
    ensures ActedOn(t.reviews[id], Acted(id, Fetched(ViewOf(t.reviews[id]))))
  {
    assert RL.Holds(t.reviews[id], TrailOf(t, id), id);
    hide RL.Inv, RL.TrailAgrees, Key;
  }

  lemma ActStep(s: Sys, run: nat)
    requires Enabled(s, HookAct(run))
    ensures run in s.runs && run in RunsAfter(s, HookAct(run))
    ensures var i := s.runs[run].input;
            RunsAfter(s, HookAct(run))[run].stage == Acted(Key(i.instance, i.call), s.runs[run].stage)
            && s.runs[run].stage.Fetched?
  {
    hide Key;
  }

  /** An act on a reply fetched from a pending review leaves the hook waiting for the decision; every
      other outcome is decided by the review's fields at that fetch as well. */
  lemma ActFollowsReview(states: seq<Sys>, ops: seq<Op>, m: nat, n: nat, run: nat)
    requires IsRun(states, ops) && n < |ops| && ops[n] == HookAct(run) && LastFetch(ops, run, m, n)
    ensures run in states[n].runs && run in states[n + 1].runs
    ensures var i := states[n].runs[run].input;
            && Stored(states[m + 1].store, i)
            && ActedOn(states[m + 1].store.reviews[Key(i.instance, i.call)], states[n + 1].runs[run].stage)
  {
    hide *;
    RunLength(states, ops);
    StepOf(states, ops, n);
    ActStep(states[n], run);
    HeldView(states, ops, m, n, run);
    RunKeepsInv(states, ops, m + 1);
    InvParts(states[m + 1]);
    var i := states[n].runs[run].input;
    StoredReview(states[m + 1].store, i);
    ViewActedOn(states[m + 1].store, Key(i.instance, i.call));
  }

  /** The reply a run still holds shows the review as it was stored when it was fetched. */
  lemma HeldView(states: seq<Sys>, ops: seq<Op>, m: nat, n: nat, run: nat)
    requires IsRun(states, ops) && n <= |ops| && LastFetch(ops, run, m, n)
    requires run in states[n].runs && states[n].runs[run].stage.Fetched?
    ensures m < n
    ensures var i := states[n].runs[run].input;
            && Stored(states[m + 1].store, i) && Key(i.instance, i.call) in states[m + 1].store.reviews
            && states[n].runs[run].stage.view == ViewOf(states[m + 1].store.reviews[Key(i.instance, i.call)])
  {
    var k := FetchedBy(states, ops, n, run);
    LastFetchIsUnique(ops, run, m, k, n);
    RunKeepsInv(states, ops, m);
    assert Enabled(states[m], ops[m]) && states[m + 1] == Next(states[m], ops[m]);
    hide IsRun, Inv, StoreAfter, ConfigAfter, RunsAfter, Enabled, ViewOf, Key;
    FetchStep(states[m], ops[m], run);
  }

  lemma StoredReview(t: Store, i: Input)
    requires Stored(t, i)
    ensures Key(i.instance, i.call) in t.reviews
  {
    hide Key;
  }

  /** Whatever interleaves, a permit rests on an earlier fetch of the same run: at that moment the
      review under the run's key was approved, not yet executed, and held the digest of exactly that
      run's tool, arguments and scripts. */
  lemma PermitIsBacked(states: seq<Sys>, ops: seq<Op>, n: nat, run: nat) returns (m: nat)
    requires IsRun(states, ops) && n < |ops| && GivesPermit(states[n], ops[n], run)
    ensures LastFetch(ops, run, m, n)
    ensures var i := states[n].runs[run].input;
            && ApprovedCall(states[m + 1].store, i)
            && (ops[m].HookPoll? ==> states[m + 1].store.reviews[Key(i.instance, i.call)].instance == i.instance)
  {
    PermitIsAct(states[n], ops[n], run);
    assert states[n].runs[run].stage.Fetched?;
    m := FetchedBy(states, ops, n, run);
    PermitIff(states, ops, m, n, run);
    RunKeepsInv(states, ops, m);
    assert Enabled(states[m], ops[m]) && states[m + 1] == Next(states[m], ops[m]);
    hide IsRun, Inv, StoreAfter, ConfigAfter, RunsAfter, Enabled, GivesPermit, ViewOf, ApprovedCall;
    FetchStep(states[m], ops[m], run);
  }

  /** A final outcome: rejected, or approved with a recorded result. */
  predicate Final(t: Store, id: string) {
    && id in t.reviews
    && (t.reviews[id].decision == Rejected
        || (t.reviews[id].decision == Approved && t.reviews[id].execution != AwaitingExecution))
  }

  lemma FinalStays(states: seq<Sys>, ops: seq<Op>, i: nat, j: nat, id: string)
    requires IsRun(states, ops) && i <= j < |states| && Final(states[i].store, id)
    ensures Final(states[j].store, id)
  {
    Lifecycle(states, ops, i, j);
    assert RL.Evolves(states[i].store.reviews[id], states[j].store.reviews[id]);
    hide IsRun, RL.StoreEvolves;
  }

  /** Once an outcome is final, no reply fetched from then on permits. */
  lemma NoPermitAfterResult(states: seq<Sys>, ops: seq<Op>, i: nat, m: nat, n: nat, run: nat)
    requires IsRun(states, ops) && n < |ops| && LastFetch(ops, run, m, n) && i <= m + 1
    requires run in states[n].runs
             && var h := states[n].runs[run].input; Final(states[i].store, Key(h.instance, h.call))
    ensures !GivesPermit(states[n], ops[n], run)
  {
    if GivesPermit(states[n], ops[n], run) {
      var k := PermitIsBacked(states, ops, n, run);
      LastFetchIsUnique(ops, run, m, k, n);
      var h := states[n].runs[run].input;
      hide IsRun, GivesPermit, LastFetch, Stored;
      FinalStays(states, ops, i, m + 1, Key(h.instance, h.call));
    }
  }

  /** A hook run that had not yet submitted when the outcome became final is never permitted. */
  lemma LateRunIsNeverPermitted(states: seq<Sys>, ops: seq<Op>, i: nat, n: nat, run: nat)
    requires IsRun(states, ops) && i <= n < |ops|
    requires run in states[i].runs ==> states[i].runs[run].stage == Starting
    requires run in states[n].runs
             && var h := states[n].runs[run].input; Final(states[i].store, Key(h.instance, h.call))
    ensures !GivesPermit(states[n], ops[n], run)
  {
    if GivesPermit(states[n], ops[n], run) {
      PermitIsAct(states[n], ops[n], run);
      var m := FetchedBy(states, ops, n, run);
      hide IsRun;
      assert i <= m;
      NoPermitAfterResult(states, ops, i, m, n, run);
    }
  }

  // ---------------------------------------------------------------- the hook's loop

  /** The views a run has fetched in the first n steps. */
  ghost function Replies(states: seq<Sys>, ops: seq<Op>, run: nat, n: nat): seq<View>
    requires n <= |ops| && |states| == |ops| + 1
  {
    if n == 0 then []
    else
      var before := Replies(states, ops, run, n - 1);
      if IsFetch(ops[n - 1], run) && run in states[n].runs && states[n].runs[run].stage.Fetched?
      then before + [states[n].runs[run].stage.view]
      else before
  }

  predicate AllPending(expected: string, views: seq<View>) {
    forall m :: 0 <= m < |views| ==> Judge(expected, views[m]) == Continue
  }

  /** A run's stage is what the loop makes of the views it has fetched. */
  predicate Follows(expected: string, views: seq<View>, stage: Stage) {
    match stage
    case Starting => views == []
    case Fetched(v) => views != [] && views[|views| - 1] == v && PendingBefore(expected, views)
    case Waiting => views != [] && AllPending(expected, views)
    case Allowed => views != [] && PendingBefore(expected, views) && Judge(expected, views[|views| - 1]) == Allow
    case Denied => true
  }

  lemma FetchFollows(expected: string, views: seq<View>, before: Stage, v: View)
    requires Follows(expected, views, before) && (before == Starting || before == Waiting)
    ensures Follows(expected, views + [v], Fetched(v))
  {
    hide Judge;
  }

  lemma ActFollows(expected: string, views: seq<View>, stage: Stage)
    requires Follows(expected, views, stage) && stage.Fetched?
    ensures Follows(expected, views, Acted(expected, stage))
  {
    hide Judge;
  }

  lemma FollowsStep(s: Sys, op: Op, run: nat, expected: string, views: seq<View>)
    requires Enabled(s, op) && run in s.runs && run in RunsAfter(s, op)
    requires expected == Key(s.runs[run].input.instance, s.runs[run].input.call)
    requires Follows(expected, views, s.runs[run].stage)
    ensures RunsAfter(s, op)[run].input == s.runs[run].input
    ensures var stage := RunsAfter(s, op)[run].stage;
            Follows(expected, if IsFetch(op, run) && stage.Fetched? then views + [stage.view] else views, stage)
  {
    var stage := RunsAfter(s, op)[run].stage;
    hide SubmitStage, PollStage, Follows, Acted, Key;
    FetchIsEnabled(s, op);
    DeniedFollows(expected, views);
    if op.HookSubmit? && op.run == run {
      SubmitStages(s, op);
    }
    if op.HookPoll? && op.run == run {
      PollStages(s, run);
    }
    if IsFetch(op, run) && stage.Fetched? {
      FetchFollows(expected, views, s.runs[run].stage, stage.view);
    } else if op == HookAct(run) {
      ActFollows(expected, views, s.runs[run].stage);
    }
  }

  lemma NewRun(s: Sys, op: Op, run: nat)
    requires Enabled(s, op) && run !in s.runs
    ensures run in RunsAfter(s, op) ==> RunsAfter(s, op)[run].stage == Starting && !IsFetch(op, run)
    ensures !IsFetch(op, run) || run !in RunsAfter(s, op)
  {
    hide SubmitStage, PollStage, ActStage;
  }

  lemma RunStays(s: Sys, op: Op, run: nat)
    requires Enabled(s, op) && run in s.runs
    ensures run in RunsAfter(s, op)
  {
    hide SubmitStage, PollStage, ActStage, Enabled;
  }

  lemma {:induction false} RunFollowsReplies(states: seq<Sys>, ops: seq<Op>, n: nat, run: nat)
    requires IsRun(states, ops) && n <= |ops|
    ensures run !in states[n].runs ==> Replies(states, ops, run, n) == []
    ensures run in states[n].runs ==>
              var h := states[n].runs[run];
              Follows(Key(h.input.instance, h.input.call), Replies(states, ops, run, n), h.stage)
  {
    hide IsRun, Enabled, StoreAfter, ConfigAfter, RunsAfter, Follows, Key, IsFetch;
    RunLength(states, ops);
    if n > 0 {
      var s, op := states[n - 1], ops[n - 1];
      RunFollowsReplies(states, ops, n - 1, run);
      StepOf(states, ops, n - 1);
      if run in s.runs {
        RunStays(s, op, run);
        FollowsStep(s, op, run, Key(s.runs[run].input.instance, s.runs[run].input.call),
                    Replies(states, ops, run, n - 1));
      } else {
        NewRun(s, op, run);
        if run in states[n].runs {
          StartFollows(Key(states[n].runs[run].input.instance, states[n].runs[run].input.call));
        }
      }
    }
  }

  lemma DeniedFollows(expected: string, views: seq<View>)
    ensures Follows(expected, views, Denied)
  {
  }

  lemma StartFollows(expected: string)
    ensures Follows(expected, [], Starting)
  {
  }

  /** The system's hook is the polling loop: an act permits exactly when the loop, fed with the replies
      the run has fetched, allows the call. */
  lemma PermitIsLoopPermit(states: seq<Sys>, ops: seq<Op>, n: nat, run: nat)
    requires IsRun(states, ops) && n < |ops| && ops[n] == HookAct(run)
    ensures run in states[n].runs && Replies(states, ops, run, n) != []
    ensures var i, views := states[n].runs[run].input, Replies(states, ops, run, n);
            GivesPermit(states[n], ops[n], run) <==>
              AllowedAt(Key(i.instance, i.call), 0, ReplyOf(views[0]), PromptPolls(views), |views| - 1)
  {
    hide *;
    RunLength(states, ops);
    StepOf(states, ops, n);
    HeldReply(states[n], run, ops[n]);
    RunFollowsReplies(states, ops, n, run);
    PermitIsAct(states[n], ops[n], run);
    var i, views := states[n].runs[run].input, Replies(states, ops, run, n);
    HeldFollows(Key(i.instance, i.call), views, states[n].runs[run].stage);
    LoopOnViews(Key(i.instance, i.call), views);
  }

  lemma HeldFollows(expected: string, views: seq<View>, stage: Stage)
    requires Follows(expected, views, stage) && stage.Fetched?
    ensures views != [] && views[|views| - 1] == stage.view && PendingBefore(expected, views)
  {
    hide PendingBefore;
  }

  // ---------------------------------------------------------------- the key join

  predicate NulFree(s: string) {
    '\0' !in s
  }

  lemma SameInstanceSameCall(instance: string, a: string, b: string)
    requires Key(instance, a) == Key(instance, b)
    ensures a == b
  {
    assert a == Key(instance, a)[|instance| + 1..];
    assert b == Key(instance, b)[|instance| + 1..];
  }

  lemma NulAt(instance: string, call: string, k: nat)
    requires k < |Key(instance, call)|
    ensures Key(instance, call)[k] ==
            if k < |instance| then instance[k] else if k == |instance| then '\0' else call[k - |instance| - 1]
  {
  }

  /** The stored key of a call is its own, whatever other instances register, exactly when neither
      its instance id nor its call id contains a NUL. */
  lemma KeyIsUnique(instance: string, call: string)
    ensures (forall i, c :: Key(i, c) == Key(instance, call) ==> i == instance && c == call)
            <==> NulFree(instance) && NulFree(call)
  {
    if NulFree(instance) && NulFree(call) {
      forall i, c | Key(i, c) == Key(instance, call)
        ensures i == instance && c == call
      {
        NulAt(i, c, |i|);
        NulAt(instance, call, |i|);
        assert |i| == |instance|;
        assert i == Key(i, c)[..|i|] && instance == Key(instance, call)[..|instance|];
        SameInstanceSameCall(instance, c, call);
      }
    } else if !NulFree(call) {
      var p :| 0 <= p < |call| && call[p] == '\0';
      assert call == call[..p] + ['\0'] + call[p + 1..];
      assert Key(instance + ['\0'] + call[..p], call[p + 1..]) == Key(instance, call);
      assert instance + ['\0'] + call[..p] != instance by {
        assert |instance + ['\0'] + call[..p]| > |instance|;
      }
    } else {
      var p :| 0 <= p < |instance| && instance[p] == '\0';
      assert instance == instance[..p] + ['\0'] + instance[p + 1..];
      assert Key(instance[..p], instance[p + 1..] + ['\0'] + call) == Key(instance, call);
      assert |instance[..p]| < |instance|;
    }
  }

  /** Among NUL-free instance ids the join is injective, whatever the call ids contain. */
  lemma NulFreeInstances(i: string, c: string, j: string, d: string)
    requires NulFree(i) && NulFree(j) && Key(i, c) == Key(j, d)
    ensures i == j && c == d
  {
    NulAt(i, c, |i|);
    NulAt(j, d, |i|);
    NulAt(i, c, |j|);
    NulAt(j, d, |j|);
    assert |i| == |j|;
    assert i == Key(i, c)[..|i|] && j == Key(j, d)[..|j|];
    SameInstanceSameCall(i, c, d);
  }

  lemma RegistrationStep(s: Sys, op: Op)
    requires Enabled(s, op) && forall k :: k in s.store.instances ==> NulFree(k)
    requires op.Register? ==> NulFree(op.instance.id)
    ensures forall k :: k in StoreAfter(s, op).instances ==> NulFree(k)
  {
    hide NulFree, Registered, TrailOf, NewReview, ModelDecided, HumanDecided;
  }

  lemma {:induction false} RegisteredAreNulFree(states: seq<Sys>, ops: seq<Op>, n: nat)
    requires IsRun(states, ops) && n < |states|
    requires forall j :: 0 <= j < n && ops[j].Register? ==> NulFree(ops[j].instance.id)
    ensures forall k :: k in states[n].store.instances ==> NulFree(k)
  {
    if n > 0 {
      RegisteredAreNulFree(states, ops, n - 1);
      assert Enabled(states[n - 1], ops[n - 1]) && states[n] == Next(states[n - 1], ops[n - 1]);
      hide IsRun, NulFree, StoreAfter, Enabled;
      RegistrationStep(states[n - 1], ops[n - 1]);
    }
  }

  lemma SubmitterIsRegistered(s: Sys, op: Op)
    requires op.HookSubmit? && Enabled(s, op) && SubmitStage(s, op).Fetched?
    ensures s.runs[op.run].input.instance in s.store.instances
  {
    hide AfterSubmit, Judge, ViewOf;
  }

  /** As long as all registered instance ids are NUL-free, which the hook's hashed ids are, a permit
      rests on the review of the run's own instance and call, whatever the call id contains. */
  lemma PermitIsForOwnCall(states: seq<Sys>, ops: seq<Op>, n: nat, run: nat) returns (m: nat)
    requires IsRun(states, ops) && n < |ops| && GivesPermit(states[n], ops[n], run)
    requires forall j :: 0 <= j < n && ops[j].Register? ==> NulFree(ops[j].instance.id)
    ensures LastFetch(ops, run, m, n)
    ensures var i := states[n].runs[run].input;
            && ApprovedCall(states[m + 1].store, i)
            && var r := states[m + 1].store.reviews[Key(i.instance, i.call)];
               r.instance == i.instance && r.call == i.call
  {
    hide *;
    RunLength(states, ops);
    m := PermitIsBacked(states, ops, n, run);
    FetchOfPermit(states, ops, m, n, run);
    var i := states[n].runs[run].input;
    RegisteredAreNulFree(states, ops, m);
    RegisteredAreNulFree(states, ops, m + 1);
    RunKeepsInv(states, ops, m + 1);
    InvParts(states[m + 1]);
    ApprovedIsStored(states[m + 1].store, i);
    OwnCall(states[m + 1].store, i, ops[m].HookPoll?);
  }

  lemma ApprovedIsStored(t: Store, i: Input)
    requires ApprovedCall(t, i)
    ensures Key(i.instance, i.call) in t.reviews
  {
  }

  /** The step that fetched a permitting reply: a submission of a registered instance, or a poll. */
  lemma FetchOfPermit(states: seq<Sys>, ops: seq<Op>, m: nat, n: nat, run: nat)
    requires IsRun(states, ops) && n < |ops| && GivesPermit(states[n], ops[n], run) && LastFetch(ops, run, m, n)
    ensures run in states[n].runs && m < n
    ensures ops[m].HookSubmit? || ops[m].HookPoll?
    ensures ops[m].HookSubmit? ==> states[n].runs[run].input.instance in states[m].store.instances
  {
    hide IsRun, Inv, Enabled, GivesPermit, StoreAfter, ConfigAfter, RunsAfter, Key, Judge;
    RunLength(states, ops);
    StepOf(states, ops, n);
    StepOf(states, ops, m);
    PermitIsAct(states[n], ops[n], run);
    HeldReply(states[n], run, ops[n]);
    var k := FetchedBy(states, ops, n, run);
    LastFetchIsUnique(ops, run, m, k, n);
    if ops[m].HookSubmit? {
      SubmitRun(states[m], ops[m]);
      SubmitterIsRegistered(states[m], ops[m]);
    }
  }

  lemma HeldReply(s: Sys, run: nat, op: Op)
    requires Enabled(s, op) && op == HookAct(run)
    ensures run in s.runs && s.runs[run].stage.Fetched?
  {
  }

  lemma SubmitRun(s: Sys, op: Op)
    requires Enabled(s, op) && op.HookSubmit?
    ensures op.run in s.runs && op.run in RunsAfter(s, op)
    ensures RunsAfter(s, op)[op.run] == s.runs[op.run].(stage := SubmitStage(s, op))
  {
    hide SubmitStage;
  }

  lemma OwnCall(t: Store, i: Input, polled: bool)
    requires RL.Inv(t) && Key(i.instance, i.call) in t.reviews && forall k :: k in t.instances ==> NulFree(k)
    requires if polled then t.reviews[Key(i.instance, i.call)].instance == i.instance else NulFree(i.instance)
    ensures var r := t.reviews[Key(i.instance, i.call)]; r.instance == i.instance && r.call == i.call
  {
    var id := Key(i.instance, i.call);
    StoredHolds(t, id);
    var r := t.reviews[id];
    assert Key(r.instance, r.call) == id;
    hide RL.Inv, RL.Holds, RL.Sound, NulFree, Key;
    if polled {
      SameInstanceSameCall(i.instance, r.call, i.call);
    } else {
      NulFreeInstances(r.instance, r.call, i.instance, i.call);
    }
  }
}
