/** Runs from the first start that show why a theorem needs its condition. */
module Counterexamples {
  import opened Common
  import opened Policy
  import opened Reviews
  import RL = ReviewLemmas
  import C = Config
  import opened Bridge
  import opened System
  import opened Permits

  const RULE := Rule("R1", "", Reject, true, true, "", Semantic, 0, "")
  const CATALOG := [C.Preset(RULE, "")]
  const FACTS := Call("", map[], {})
  const PROMPT := "A prompt of more than twenty characters."

  /** A run goes on with any enabled step. */
  lemma Grow(states: seq<Sys>, ops: seq<Op>, op: Op) returns (ss: seq<Sys>, os: seq<Op>)
    requires IsRun(states, ops) && Enabled(states[|ops|], op)
    ensures IsRun(ss, os) && os == ops + [op] && |ss| == |os| + 1 && ss[..|os|] == states
    ensures var s := states[|ops|];
            ss[|os|] == Sys(StoreAfter(s, op), ConfigAfter(s, op), RunsAfter(s, op))
  {
    RunLength(states, ops);
    ss, os := states + [Next(states[|ops|], op)], ops + [op];
    NextParts(states[|ops|], op);
    assert ss[0] == states[0] && ss[..|os|] == states;
    forall i | 0 <= i < |os|
      ensures Enabled(ss[i], os[i]) && ss[i + 1] == Next(ss[i], os[i])
    {
      if i < |ops| {
        StepOf(states, ops, i);
        NextParts(states[i], ops[i]);
      }
    }
    hide Enabled, Next;
  }

  lemma FreshTable()
    ensures C.ValidCatalog(CATALOG) && C.Fresh(CATALOG, PROMPT).rules == map["R1" := RULE]
    ensures IsListing([RULE], map["R1" := RULE])
  {
    assert RULE.id[0] == 'R' && HUMAN_RULE[0] == 'H';
    assert CATALOG[1..] == [];
    assert C.Added(map[], CATALOG[1..]) == [];
    assert C.Added(map[], CATALOG) == [RULE];
    assert [RULE][1..] == [];
    assert C.PutAll(map["R1" := RULE], []) == map["R1" := RULE];
  }

  function Begin(): Sys {
    Sys(EMPTY_STORE, C.Fresh(CATALOG, PROMPT), map[])
  }

  lemma BeginIsRun()
    ensures IsRun([Begin()], [])
  {
    FreshTable();
    hide C.Fresh, C.ValidCatalog;
    assert [Begin()][0] == Sys(EMPTY_STORE, C.Fresh(CATALOG, PROMPT), map[]);
  }

  lemma NothingMatches()
    ensures Evaluate([RULE], FACTS) == None
  {
    EvaluateIsBestRule([RULE], FACTS);
  }

  function Client(id: string): Instance {
    Instance(id, "", "", "pi", "s", "/", [], [], 0, Idle, NoReason, true)
  }

  function Ask(instance: string, call: string): Input {
    Input(instance, call, "bash", Some("{}"), NoCapture, "")
  }

  const CONTENT := Digest("bash", "{}", NoCapture, "")

  predicate OnlineAt(t: Store, id: string) {
    id in t.instances && t.instances[id].state == Idle && t.instances[id].heartbeat == 0
  }

  /** An approved call that awaits execution, as every view of it shows. */
  predicate Ready(t: Store, id: string) {
    && id in t.reviews && t.reviews[id].id == id && t.reviews[id].digest == CONTENT
    && t.reviews[id].decision == Approved && t.reviews[id].execution == AwaitingExecution
    && t.reviews[id].comment != "" && t.reviews[id].ruleId != "" && t.reviews[id].deadline != 0
  }

  lemma RegisterClient(t: Store, id: string)
    requires id != "" && id !in t.instances
    ensures RegisterError(t, Client(id), true, HOOK_VERSION) == None
    ensures var u := AfterRegister(t, Client(id), 0);
            && OnlineAt(u, id) && u.reviews == t.reviews
            && forall k :: k in t.instances ==> k in u.instances && u.instances[k] == t.instances[k]
  {
    assert "/" <= "/";
  }

  lemma SubmitFresh(t: Store, instance: string, call: string)
    requires OnlineAt(t, instance) && call != "" && t.reviews == map[]
    ensures var i, snap := Ask(instance, call), SnapshotOf(C.Fresh(CATALOG, PROMPT), [RULE]);
            && SubmitError(t, i, 0) == None
            && var u := AfterSubmit(t, snap, i, None, FACTS, 0);
               && u.instances == t.instances && u.reviews.Keys == {Key(instance, call)}
               && var r := u.reviews[Key(instance, call)];
                  && r.id == Key(instance, call) && r.digest == CONTENT && r.instance == instance && r.mode == HumanMode
                  && r.decision == Pending && r.deadline == 600 * SECOND
  {
    NothingMatches();
    hide Evaluate, Key, C.PutAll, C.Added;
    var i, snap := Ask(instance, call), SnapshotOf(C.Fresh(CATALOG, PROMPT), [RULE]);
    assert PolicyRuling(snap, None, FACTS) == None;
  }

  lemma ApprovePending(t: Store, id: string)
    requires id in t.reviews && t.reviews[id].id == id && t.reviews[id].digest == CONTENT
             && t.reviews[id].mode == HumanMode
    requires t.reviews[id].decision == Pending && t.reviews[id].deadline == 600 * SECOND
    ensures DecideError(t, id, CONTENT, Approve, "", 0) == None
    ensures var u := AfterDecide(t, id, CONTENT, Approve, "", 0);
            Ready(u, id) && u.instances == t.instances && u.reviews[id].instance == t.reviews[id].instance
  {
    assert HUMAN_RULE[0] == 'H';
    hide TrailOf;
  }

  lemma RegisteredRun(instance: string) returns (states: seq<Sys>, ops: seq<Op>)
    requires instance != ""
    ensures IsRun(states, ops) && |ops| == 1 && |states| == 2
    ensures var s := states[1];
            && s.config == C.Fresh(CATALOG, PROMPT) && s.runs == map[] && OnlineAt(s.store, instance)
            && s.store.reviews == map[] && s.store.instances.Keys == {instance}
  {
    BeginIsRun();
    RegisterClient(EMPTY_STORE, instance);
    hide C.Fresh, Client, RegisterError, IsRun;
    states, ops := Grow([Begin()], [], Register(Client(instance), true, HOOK_VERSION, 0, true));
    assert states[1].store == AfterRegister(EMPTY_STORE, Client(instance), 0);
  }

  /** A client registers, submits a call, and a human approves it. */
  lemma ApprovedRun(instance: string, call: string) returns (states: seq<Sys>, ops: seq<Op>)
    requires instance != "" && call != ""
    ensures IsRun(states, ops) && |ops| == 3 && |states| == 4
    ensures var s, id := states[3], Key(instance, call);
            && s.config == C.Fresh(CATALOG, PROMPT) && s.runs == map[]
            && OnlineAt(s.store, instance) && Ready(s.store, id) && s.store.reviews[id].instance == instance
            && s.store.instances.Keys == {instance}
  {
    hide IsRun, C.Fresh, Ready, OnlineAt, AfterSubmit, AfterDecide, SubmitError, DecideError, SnapshotOf, Key,
         IsListing;
    FreshTable();
    var id, s0 := Key(instance, call), C.Fresh(CATALOG, PROMPT);
    states, ops := RegisteredRun(instance);
    var t := states[1].store;
    SubmitFresh(t, instance, call);
    states, ops := Grow(states, ops, Submit(Ask(instance, call), [RULE], None, FACTS, 0, true));
    var u := states[2].store;
    assert u == AfterSubmit(t, SnapshotOf(s0, [RULE]), Ask(instance, call), None, FACTS, 0);
    OnlineKept(t, u, instance);
    ApprovePending(u, id);
    states, ops := Grow(states, ops, Decide(id, CONTENT, Approve, "", 0, true));
    assert states[3].store == AfterDecide(u, id, CONTENT, Approve, "", 0);
    OnlineKept(u, states[3].store, instance);
  }

  lemma OnlineKept(t: Store, u: Store, instance: string)
    requires OnlineAt(t, instance) && u.instances == t.instances
    ensures OnlineAt(u, instance)
  {
  }

  // ---------------------------------------------------------------- replies in flight

  lemma AnsweredFromStore(t: Store, c: C.State, i: Input)
    requires OnlineAt(t, i.instance) && i.call != "" && i.tool != "" && i.arguments.Some? && DigestOf(i) == CONTENT
    requires Ready(t, Key(i.instance, i.call))
    ensures SubmitError(t, i, 0) == None && AfterSubmit(t, SnapshotOf(c, [RULE]), i, None, FACTS, 0) == t
    ensures Judge(Key(i.instance, i.call), ViewOf(t.reviews[Key(i.instance, i.call)])) == Allow
  {
    hide Key, SnapshotOf;
  }

  /** A hook asks about a call whose approval is stored: the reply is on its way, and allows. */
  lemma AskedRun(states: seq<Sys>, ops: seq<Op>, i: Input) returns (ss: seq<Sys>, os: seq<Op>)
    requires IsRun(states, ops)
    requires var s := states[|ops|];
             && s.config == C.Fresh(CATALOG, PROMPT) && s.runs == map[] && OnlineAt(s.store, i.instance)
             && Ready(s.store, Key(i.instance, i.call))
    requires i.call != "" && i.tool != "" && i.arguments.Some? && DigestOf(i) == CONTENT
    ensures IsRun(ss, os) && |os| == |ops| + 2 && |ss| == |os| + 1 && ss[..|ops| + 1] == states
    ensures var s := ss[|os|];
            && s.store == states[|ops|].store && s.config == states[|ops|].config
            && 0 in s.runs && s.runs[0].input == i && s.runs[0].stage.Fetched?
            && Judge(Key(i.instance, i.call), s.runs[0].stage.view) == Allow
  {
    hide IsRun, C.Fresh, Ready, OnlineAt, SubmitError, AfterSubmit, SnapshotOf, Key, Judge, ViewOf, IsListing, DigestOf;
    FreshTable();
    RunLength(states, ops);
    var s := states[|ops|];
    AnsweredFromStore(s.store, s.config, i);
    IsStored(s.store, Key(i.instance, i.call));
    ss, os := Grow(states, ops, HookStart(0, i));
    var mid := ss[|ops| + 1];
    assert mid.store == s.store && mid.config == s.config && mid.runs == map[0 := HookRun(i, Starting)];
    ss, os := Grow(ss, os, HookSubmit(0, [RULE], None, FACTS, 0, true));
    assert ss[..|ops| + 1] == states;
  }

  lemma IsStored(t: Store, id: string)
    requires Ready(t, id)
    ensures id in t.reviews
  {
  }

  lemma ResultGoesIn(t: Store, id: string)
    requires Ready(t, id)
    ensures ResultError(t, id, t.reviews[id].instance, Some(Succeeded)) == None
    ensures Final(AfterResult(t, id, t.reviews[id].instance, Some(Succeeded), ""), id)
  {
    hide TrailOf;
  }

  lemma ActsOn(states: seq<Sys>, ops: seq<Op>) returns (ss: seq<Sys>, os: seq<Op>)
    requires IsRun(states, ops) && var s := states[|ops|];
             && 0 in s.runs && s.runs[0].stage.Fetched?
             && Judge(Key(s.runs[0].input.instance, s.runs[0].input.call), s.runs[0].stage.view) == Allow
    ensures IsRun(ss, os) && |os| == |ops| + 1 && |ss| == |os| + 1 && ss[..|os|] == states
    ensures os[|ops|] == HookAct(0) && GivesPermit(ss[|ops|], os[|ops|], 0)
  {
    hide IsRun, Judge, Key;
    RunLength(states, ops);
    PermitIsAct(states[|ops|], HookAct(0), 0);
    hide GivesPermit;
    ss, os := Grow(states, ops, HookAct(0));
    assert ss[..|os|][|ops|] == states[|ops|];
  }

  /** A reply computed before a result is recorded can permit after it: the last fetch, not the act,
      is what a recorded result must precede. */
  lemma PermitAfterResult() returns (states: seq<Sys>, ops: seq<Op>, n: nat)
    ensures IsRun(states, ops) && n < |ops| && GivesPermit(states[n], ops[n], 0)
    ensures 0 in states[n].runs && var i := states[n].runs[0].input; Final(states[n].store, Key(i.instance, i.call))
  {
    hide IsRun, C.Fresh, Ready, OnlineAt, AfterResult, ResultError, Final, Key, Judge, GivesPermit;
    var i := Ask("i", "c");
    states, ops := ApprovedRun("i", "c");
    states, ops := AskedRun(states, ops, i);
    var s, id := states[|ops|], Key("i", "c");
    ResultGoesIn(s.store, id);
    IsStored(s.store, id);
    var before := ops;
    states, ops := Grow(states, ops, Result(id, "i", Some(Succeeded), "", true));
    assert states[|ops|].store == AfterResult(s.store, id, "i", Some(Succeeded), "") && states[|ops|].runs == s.runs;
    n := |ops|;
    states, ops := ActsOn(states, ops);
    assert states[..|ops|][n] == states[n];
  }

  // ---------------------------------------------------------------- one key for two calls

  const LONG := "a" + ['\0'] + "b"
  const SPLIT := "b" + ['\0'] + "c"

  lemma RegisterAnother(states: seq<Sys>, ops: seq<Op>, id: string, k: string) returns (ss: seq<Sys>, os: seq<Op>)
    requires IsRun(states, ops) && id != "" && id !in states[|ops|].store.instances && Ready(states[|ops|].store, k)
    ensures IsRun(ss, os) && |os| == |ops| + 1 && |ss| == |os| + 1 && ss[..|os|] == states
    ensures var s, t := states[|ops|], ss[|os|];
            && t.config == s.config && t.runs == s.runs && OnlineAt(t.store, id)
            && t.store.reviews == s.store.reviews && Ready(t.store, k)
  {
    hide IsRun, OnlineAt, RegisterError, AfterRegister, Client;
    RunLength(states, ops);
    RegisterClient(states[|ops|].store, id);
    hide Ready;
    ss, os := Grow(states, ops, Register(Client(id), true, HOOK_VERSION, 0, true));
    SameReady(states[|ops|].store, ss[|os|].store, k);
  }

  lemma SameReady(t: Store, u: Store, k: string)
    requires Ready(t, k) && u.reviews == t.reviews
    ensures Ready(u, k)
  {
  }

  /** With a NUL in an instance id, a hook is permitted by the approval of another instance's call. */
  lemma SharedKeyAnswersForOther() returns (states: seq<Sys>, ops: seq<Op>, n: nat)
    ensures IsRun(states, ops) && n < |ops| && GivesPermit(states[n], ops[n], 0) && 0 in states[n].runs
    ensures var i := states[n].runs[0].input;
            && Key(i.instance, i.call) in states[n].store.reviews
            && states[n].store.reviews[Key(i.instance, i.call)].instance != i.instance
  {
    assert Key(LONG, "c") == Key("a", SPLIT);
    assert |LONG| == 3 && |SPLIT| == 3;
    hide IsRun, C.Fresh, Ready, OnlineAt, Key, Judge, GivesPermit;
    states, ops := ApprovedRun(LONG, "c");
    var other := states[3].store.reviews;
    states, ops := RegisterAnother(states, ops, "a", Key("a", SPLIT));
    states, ops := AskedRun(states, ops, Ask("a", SPLIT));
    IsStored(states[|ops|].store, Key("a", SPLIT));
    n := |ops|;
    states, ops := ActsOn(states, ops);
    assert states[..|ops|][n] == states[n];
  }

  // ---------------------------------------------------------------- a key nobody tested

  const MODEL_SETTINGS := C.Settings(HumanMode, C.OpenAI, "https://m", "m", "", false, PROMPT, 1, 600, 20)

  lemma SavesPass(c: C.State, key: string)
    ensures C.SaveSettingsError(c, MODEL_SETTINGS, Some(key), true) == None
  {
    assert |PROMPT| == 40;
  }

  /** A configuration whose key passed a test and is on disk. */
  predicate TestedWith(c: C.State, key: string) {
    && c.settings.tested && c.settings.apiKey == key && c.keyFile == key
    && c.stored == C.Stored(c.settings) && c.passed == {C.ModelOf(c.settings)}
  }

  lemma TestPasses(c: C.State)
    requires c.passed == {} && c.tests == map[] && c.keyFile == c.settings.apiKey
    ensures var d := C.AfterBeginTest(c, 0);
            0 in d.tests && TestedWith(C.AfterFinishTest(d, 0, true, true), c.settings.apiKey)
  {
  }

  lemma FirstSave()
    ensures var c := C.AfterSaveSettings(C.Fresh(CATALOG, PROMPT), MODEL_SETTINGS, Some("k1"), C.Written);
            c.passed == {} && c.tests == map[] && c.keyFile == "k1" && c.settings.apiKey == "k1"
  {
    hide C.PutAll, C.Added;
  }

  lemma TestedRun() returns (states: seq<Sys>, ops: seq<Op>)
    ensures IsRun(states, ops) && |ops| == 3 && |states| == 4 && TestedWith(states[3].config, "k1")
  {
    var c := C.Fresh(CATALOG, PROMPT);
    BeginIsRun();
    SavesPass(c, "k1");
    FirstSave();
    hide IsRun, C.Fresh, C.SaveSettingsError, C.AfterSaveSettings, C.AfterBeginTest, C.AfterFinishTest, TestedWith;
    states, ops := Grow([Begin()], [], SaveSettings(MODEL_SETTINGS, Some("k1"), true, C.Written));
    c := C.AfterSaveSettings(c, MODEL_SETTINGS, Some("k1"), C.Written);
    assert states[1].config == c;
    TestPasses(c);
    states, ops := Grow(states, ops, BeginTest(0));
    assert states[2].config == C.AfterBeginTest(c, 0);
    states, ops := Grow(states, ops, FinishTest(0, true, true));
  }

  lemma KeyReplaced(c: C.State)
    requires TestedWith(c, "k1")
    ensures var d := C.AfterReload(C.AfterSaveSettings(c, MODEL_SETTINGS, Some("k2"), C.RollbackFailed));
            d.settings.tested && !C.TestBacked(d)
  {
    assert "k1" != "k2";
  }

  /** A save whose commit and key rollback both fail, and then a restart: the configuration in force
      is marked tested with a key that never was. */
  lemma UntestedKeyInForce() returns (states: seq<Sys>, ops: seq<Op>)
    ensures IsRun(states, ops) && |ops| == 5 && states[5].config.settings.tested && !C.TestBacked(states[5].config)
  {
    hide IsRun, C.Fresh, C.SaveSettingsError, C.AfterSaveSettings, C.AfterReload, C.TestBacked, TestedWith;
    states, ops := TestedRun();
    var c := states[3].config;
    SavesPass(c, "k2");
    KeyReplaced(c);
    states, ops := Grow(states, ops, SaveSettings(MODEL_SETTINGS, Some("k2"), true, C.RollbackFailed));
    assert states[4].config == C.AfterSaveSettings(c, MODEL_SETTINGS, Some("k2"), C.RollbackFailed);
    states, ops := Grow(states, ops, Reload);
  }
}
