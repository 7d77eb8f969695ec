/** Rewriting an agent's JSON hook document: owned groups come and go, everything else stays. */
module HookDocument {
  import opened Common

  datatype Json = Text(text: string) | Number(n: int) | Arr(items: seq<Json>) | Obj(fields: map<string, Json>)

  type Document = map<string, Json>

  datatype MergeError = HooksNotObject | EventNotList | OwnedModified | OwnedMissing
  datatype Merged = Ok(doc: Document) | Failed(error: MergeError)

  /** What this client writes for one installation. */
  datatype Owner = Owner(agent: string, command: string, windows: bool)

  function HookEvents(agent: string): (events: seq<string>)
    ensures |events| > 0 && Distinct(events)
  {
    var events := ["SessionStart", "PreToolUse", "PostToolUse", "SessionEnd", "UserPromptSubmit"];
    if agent != "codex" then events + ["PostToolUseFailure"] else events
  }

  function HookGroup(o: Owner, event: string): Json {
    var timeout :=
      if event == "SessionEnd" && o.agent == "codex" then 3
      else if event == "PreToolUse" then 86520 else 10;
    var h := map["type" := Text("command"), "command" := Text(o.command), "timeout" := Number(timeout)];
    var h1 := if o.agent == "codex" && o.windows then h["commandWindows" := Text(o.command)] else h;
    var h2 := if o.agent == "claude" && o.windows then h1["shell" := Text("powershell")] else h1;
    Obj(map["hooks" := Arr([Obj(h2)])])
  }

  predicate Contains(s: string, t: string) {
    exists i :: 0 <= i <= |s| && OccursAt(s, i, t)
  }

  predicate OccursAt(s: string, i: nat, t: string) {
    i + |t| <= |s| && s[i..i + |t|] == t
  }

  /** The command's text occurs somewhere inside the encoded group. */
  predicate Mentions(j: Json, command: string) {
    match j
    case Text(t) => Contains(t, command)
    case Number(_) => false
    case Arr(items) => exists x :: x in items && Mentions(x, command)
    case Obj(fields) => exists k :: k in fields && (Contains(k, command) || Mentions(fields[k], command))
  }

  // ---------------------------------------------------------------- one event

  function Without(list: seq<Json>, want: Json): seq<Json> {
    if list == [] then [] else (if list[0] == want then [] else [list[0]]) + Without(list[1..], want)
  }

  lemma {:induction false} WithoutMembers(list: seq<Json>, want: Json)
    ensures forall x :: x in Without(list, want) <==> x in list && x != want
  {
    if list != [] {
      WithoutMembers(list[1..], want);
    }
  }

  predicate HasModified(list: seq<Json>, want: Json, command: string) {
    exists x :: x in list && x != want && Mentions(x, command)
  }

  function ListOf(hooks: Document, event: string): seq<Json> {
    if event in hooks && hooks[event].Arr? then hooks[event].items else []
  }

  /** `present` says whether the file existed with content; a registered owner must find its groups there. */
  function EventError(hooks: Document, o: Owner, event: string, install: bool, registered: bool, present: bool)
    : Option<MergeError>
  {
    var want := HookGroup(o, event);
    if event in hooks && !hooks[event].Arr? then Some(EventNotList)
    else if HasModified(ListOf(hooks, event), want, o.command) then Some(OwnedModified)
    else if !install && want !in ListOf(hooks, event) && registered && present then Some(OwnedMissing)
    else None
  }

  function EventAfter(hooks: Document, o: Owner, event: string, install: bool): Document {
    var want := HookGroup(o, event);
    var next := Without(ListOf(hooks, event), want) + (if install then [want] else []);
    if next == [] then hooks - {event} else hooks[event := Arr(next)]
  }

  /** The events in order; the first error stops the rewrite. */
  function Rewrite(hooks: Document, o: Owner, events: seq<string>, install: bool, registered: bool,
                   present: bool): Merged
    decreases |events|
  {
    if events == [] then Ok(hooks)
    else
      var e := EventError(hooks, o, events[0], install, registered, present);
      if e.Some? then Failed(e.value)
      else Rewrite(EventAfter(hooks, o, events[0], install), o, events[1..], install, registered, present)
  }

  function HooksOf(doc: Document): Document {
    if "hooks" in doc && doc["hooks"].Obj? then doc["hooks"].fields else map[]
  }

  function WithHooks(doc: Document, hooks: Document): Document {
    if hooks == map[] then doc - {"hooks"} else doc["hooks" := Obj(hooks)]
  }

  function Modify(doc: Document, o: Owner, install: bool, registered: bool, present: bool): Merged {
    if "hooks" in doc && !doc["hooks"].Obj? then Failed(HooksNotObject)
    else
      var r := Rewrite(HooksOf(doc), o, HookEvents(o.agent), install, registered, present);
      if r.Failed? then r else Ok(WithHooks(doc, r.doc))
  }

  // ---------------------------------------------------------------- the loops

  method FilterGroups(list: seq<Json>, want: Json, command: string)
    returns (next: seq<Json>, found: bool, modified: bool)
    ensures modified <==> HasModified(list, want, command)
    ensures !modified ==> next == Without(list, want) && (found <==> want in list)
  {
    hide Mentions, Without;
    next, found, modified := [], false, false;
    assert [] + Without(list[0..], want) == Without(list, want) by {
      assert list[0..] == list;
    }
    var k := 0;
    while k < |list|
      invariant 0 <= k <= |list|
      invariant next + Without(list[k..], want) == Without(list, want)
      invariant found <==> want in list[..k]
      invariant forall j :: 0 <= j < k && list[j] != want ==> !Mentions(list[j], command)
    {
      var group := list[k];
      WithoutStep(next, list, k, want);
      if group == want {
        found := true;
      } else {
        if Mentions(group, command) {
          assert group in list;
          return next, found, true;
        }
        next := next + [group];
      }
      k := k + 1;
    }
    assert list[..k] == list && list[k..] == [];
    WithoutNothing(want);
  }

  lemma WithoutNothing(want: Json)
    ensures Without([], want) == []
  {
  }

  lemma WithoutStep(next: seq<Json>, list: seq<Json>, k: nat, want: Json)
    requires k < |list|
    ensures next + Without(list[k..], want)
            == (if list[k] == want then next else next + [list[k]]) + Without(list[k + 1..], want)
    ensures list[..k + 1] == list[..k] + [list[k]]
  {
    assert list[k..][1..] == list[k + 1..];
  }

  /** One event: its groups without the owned one, with it appended on install. */
  method ModifyEvent(hooks: Document, o: Owner, event: string, install: bool, registered: bool, present: bool)
    returns (next: Document, err: Option<MergeError>)
    ensures err == EventError(hooks, o, event, install, registered, present)
    ensures err == None ==> next == EventAfter(hooks, o, event, install)
  {
    next := hooks;
    var list: seq<Json> := [];
    if event in hooks {
      if !hooks[event].Arr? {
        return next, Some(EventNotList);
      }
      list := hooks[event].items;
    }
    hide HookGroup, Mentions;
    var want := HookGroup(o, event);
    var groups, found, modified := FilterGroups(list, want, o.command);
    if modified {
      return next, Some(OwnedModified);
    }
    if install {
      groups := groups + [want];
    } else if !found && registered && present {
      return next, Some(OwnedMissing);
    }
    assert groups == Without(list, want) + (if install then [want] else []);
    if |groups| > 0 {
      next := next[event := Arr(groups)];
    } else {
      next := next - {event};
    }
    return next, None;
  }

  method ModifyHookDocument(doc: Document, o: Owner, install: bool, registered: bool, present: bool) returns (r: Merged)
    ensures r == Modify(doc, o, install, registered, present)
  {
    var hooks: Document := map[];
    if "hooks" in doc {
      if !doc["hooks"].Obj? {
        return Failed(HooksNotObject);
      }
      hooks := doc["hooks"].fields;
    }
    hide HookEvents, EventError, EventAfter;
    var events := HookEvents(o.agent);
    var k := 0;
    while k < |events|
      invariant 0 <= k <= |events|
      invariant Rewrite(hooks, o, events[k..], install, registered, present)
             == Rewrite(HooksOf(doc), o, events, install, registered, present)
    {
      assert events[k..][0] == events[k] && events[k..][1..] == events[k + 1..];
      var next, err := ModifyEvent(hooks, o, events[k], install, registered, present);
      if err.Some? {
        return Failed(err.value);
      }
      hooks := next;
      k := k + 1;
    }
    assert events[k..] == [];
    if |hooks| > 0 {
      return Ok(doc["hooks" := Obj(hooks)]);
    }
    return Ok(doc - {"hooks"});
  }

  // ---------------------------------------------------------------- the rewrite as a whole

  /** What one successful rewrite of an event list leaves at every event name. */
  predicate RewrittenAt(before: Document, after: Document, o: Owner, event: string, install: bool) {
    var next := Without(ListOf(before, event), HookGroup(o, event)) + (if install then [HookGroup(o, event)] else []);
    if next == [] then event !in after else event in after && after[event] == Arr(next)
  }

  predicate SameAt(a: Document, b: Document, k: string) {
    (k in a <==> k in b) && (k in a ==> a[k] == b[k])
  }

  lemma EventEffect(hooks: Document, o: Owner, e0: string, install: bool)
    ensures var mid := EventAfter(hooks, o, e0, install);
            RewrittenAt(hooks, mid, o, e0, install) && forall k :: k != e0 ==> SameAt(hooks, mid, k)
  {
    hide HookGroup;
  }

  lemma EventLocal(a: Document, b: Document, o: Owner, e: string, install: bool, registered: bool, present: bool)
    requires SameAt(a, b, e)
    ensures ListOf(a, e) == ListOf(b, e)
    ensures EventError(a, o, e, install, registered, present) == EventError(b, o, e, install, registered, present)
    ensures forall c :: RewrittenAt(a, c, o, e, install) <==> RewrittenAt(b, c, o, e, install)
  {
    hide HookGroup, Mentions;
  }

  /** The rewrite succeeds iff no event has an error of its own, and then acts on each event alone. */
  lemma {:induction false} RewriteEffect(hooks: Document, o: Owner, events: seq<string>, install: bool,
                                         registered: bool, present: bool)
    requires Distinct(events)
    ensures var r := Rewrite(hooks, o, events, install, registered, present);
            && (r.Ok? <==> forall e :: e in events ==> EventError(hooks, o, e, install, registered, present) == None)
            && (r.Ok? ==> forall e :: e in events ==> RewrittenAt(hooks, r.doc, o, e, install))
            && (r.Ok? ==> forall k :: k !in events ==> SameAt(hooks, r.doc, k))
    decreases |events|
  {
    if events != [] {
      var e0, rest := events[0], events[1..];
      var mid := EventAfter(hooks, o, e0, install);
      assert forall e :: e in events <==> e == e0 || e in rest;
      assert e0 !in rest;
      RewriteEffect(mid, o, rest, install, registered, present);
      EventEffect(hooks, o, e0, install);
      hide HookGroup, EventError, EventAfter;
      forall e | e in rest
        ensures EventError(mid, o, e, install, registered, present)
                == EventError(hooks, o, e, install, registered, present)
        ensures forall c :: RewrittenAt(mid, c, o, e, install) <==> RewrittenAt(hooks, c, o, e, install)
      {
        EventLocal(hooks, mid, o, e, install, registered, present);
      }
    }
  }

  /** Every other key of the document and every other event keep their value, and in a rewritten
      event the foreign groups keep their order. */
  lemma OthersStay(doc: Document, o: Owner, install: bool, registered: bool, present: bool)
    requires Modify(doc, o, install, registered, present).Ok?
    ensures var d := Modify(doc, o, install, registered, present).doc;
            && (forall k :: k != "hooks" ==> SameAt(doc, d, k))
            && (forall k :: k !in HookEvents(o.agent) ==> SameAt(HooksOf(doc), HooksOf(d), k))
            && (forall e :: e in HookEvents(o.agent) ==>
                  Without(ListOf(HooksOf(d), e), HookGroup(o, e)) == Without(ListOf(HooksOf(doc), e), HookGroup(o, e)))
  {
    hide HookEvents, HookGroup, EventError, Contains;
    var hooks, events := HooksOf(doc), HookEvents(o.agent);
    RewriteEffect(hooks, o, events, install, registered, present);
    var r := Rewrite(hooks, o, events, install, registered, present).doc;
    assert HooksOf(WithHooks(doc, r)) == r;
    forall e | e in events
      ensures Without(ListOf(r, e), HookGroup(o, e)) == Without(ListOf(hooks, e), HookGroup(o, e))
    {
      assert RewrittenAt(hooks, r, o, e, install);
      WithoutAppend(ListOf(hooks, e), HookGroup(o, e));
      WithoutTwice(ListOf(hooks, e), HookGroup(o, e));
      var kept := Without(ListOf(hooks, e), HookGroup(o, e));
      assert ListOf(r, e) == kept + (if install then [HookGroup(o, e)] else []);
      assert kept + [] == kept;
    }
  }

  lemma {:induction false} WithoutTwice(list: seq<Json>, want: Json)
    ensures Without(Without(list, want), want) == Without(list, want)
    ensures want !in list ==> Without(list, want) == list
  {
    WithoutMembers(list, want);
    WithoutAbsent(Without(list, want), want);
    if want !in list {
      WithoutAbsent(list, want);
    }
  }

  lemma {:induction false} WithoutAbsent(list: seq<Json>, want: Json)
    requires want !in list
    ensures Without(list, want) == list
  {
    if list != [] {
      WithoutAbsent(list[1..], want);
    }
  }

  /** Appending the owned group and filtering again gives the filtered list. */
  lemma WithoutAppend(list: seq<Json>, want: Json)
    ensures Without(Without(list, want) + [want], want) == Without(list, want)
  {
    WithoutMembers(list, want);
    WithoutLast(Without(list, want), want);
  }

  lemma {:induction false} WithoutLast(list: seq<Json>, want: Json)
    requires want !in list
    ensures Without(list + [want], want) == list
  {
    if list == [] {
      assert [want][1..] == [];
    } else {
      assert (list + [want])[1..] == list[1..] + [want];
      WithoutLast(list[1..], want);
    }
  }

  /** agentEntryOK: every event of the agent holds its owned group. */
  predicate EntryOk(doc: Document, o: Owner) {
    && "hooks" in doc && doc["hooks"].Obj?
    && forall e :: e in HookEvents(o.agent) ==>
         e in HooksOf(doc) && HooksOf(doc)[e].Arr? && HookGroup(o, e) in HooksOf(doc)[e].items
  }

  /** No event of the agent holds an owned group. */
  predicate EntryAbsent(doc: Document, o: Owner) {
    forall e :: e in HookEvents(o.agent) ==> HookGroup(o, e) !in ListOf(HooksOf(doc), e)
  }

  function Count(list: seq<Json>, want: Json): nat {
    multiset(list)[want]
  }

  /** The hooks an install leaves behind. */
  lemma InstalledHooks(doc: Document, o: Owner, registered: bool, present: bool)
    requires Modify(doc, o, true, registered, present).Ok?
    ensures var d := Modify(doc, o, true, registered, present).doc;
            && "hooks" in d && d["hooks"].Obj?
            && forall e :: e in HookEvents(o.agent) ==>
                 && e in HooksOf(d)
                 && HooksOf(d)[e] == Arr(Without(ListOf(HooksOf(doc), e), HookGroup(o, e)) + [HookGroup(o, e)])
  {
    hide HookEvents, HookGroup, EventError, Contains;
    var hooks, events := HooksOf(doc), HookEvents(o.agent);
    RewriteEffect(hooks, o, events, true, registered, present);
    var r := Rewrite(hooks, o, events, true, registered, present).doc;
    assert RewrittenAt(hooks, r, o, events[0], true);
    assert HooksOf(WithHooks(doc, r)) == r && r != map[];
    hide Rewrite, Without;
  }

  /** After an install the entry checks out, with exactly one owned group per event. */
  lemma InstallOwnsOnce(doc: Document, o: Owner, registered: bool, present: bool)
    requires Modify(doc, o, true, registered, present).Ok?
    ensures var d := Modify(doc, o, true, registered, present).doc;
            && EntryOk(d, o)
            && forall e :: e in HookEvents(o.agent) ==> Count(ListOf(HooksOf(d), e), HookGroup(o, e)) == 1
  {
    InstalledHooks(doc, o, registered, present);
    var d := Modify(doc, o, true, registered, present).doc;
    hide HookEvents, HookGroup, Modify, Without, Count;
    forall e | e in HookEvents(o.agent)
      ensures HookGroup(o, e) in ListOf(HooksOf(d), e) && Count(ListOf(HooksOf(d), e), HookGroup(o, e)) == 1
    {
      CountAppended(ListOf(HooksOf(doc), e), HookGroup(o, e));
    }
  }

  lemma CountAppended(list: seq<Json>, want: Json)
    ensures Count(Without(list, want) + [want], want) == 1
  {
    WithoutMembers(list, want);
    assert want !in multiset(Without(list, want));
  }

  /** Removing leaves no owned group, and never an empty list or an empty hooks object behind. */
  lemma UninstallOwnsNothing(doc: Document, o: Owner, registered: bool, present: bool)
    requires Modify(doc, o, false, registered, present).Ok?
    ensures var d := Modify(doc, o, false, registered, present).doc;
            EntryAbsent(d, o) && TidyFor(d, o)
  {
    hide HookEvents, HookGroup, EventError, Contains;
    var hooks, events := HooksOf(doc), HookEvents(o.agent);
    RewriteEffect(hooks, o, events, false, registered, present);
    var r := Rewrite(hooks, o, events, false, registered, present).doc;
    assert HooksOf(WithHooks(doc, r)) == r;
    forall e | e in events
      ensures HookGroup(o, e) !in ListOf(r, e) && (e in r ==> r[e] != Arr([]))
    {
      assert RewrittenAt(hooks, r, o, e, false);
      WithoutMembers(ListOf(hooks, e), HookGroup(o, e));
    }
  }

  lemma CommandsTellGroupsApart(o: Owner, q: Owner, event: string)
    requires o.agent == q.agent && o.windows == q.windows && o.command != q.command
    ensures HookGroup(o, event) != HookGroup(q, event)
  {
    var a, b := HookGroup(o, event).fields["hooks"].items[0].fields,
        HookGroup(q, event).fields["hooks"].items[0].fields;
    assert a["command"] == Text(o.command) && b["command"] == Text(q.command);
  }

  /** Rewriting for one owner never brings in a group of another one. */
  lemma OtherOwnersStayAbsent(doc: Document, o: Owner, q: Owner, install: bool, registered: bool, present: bool)
    requires Modify(doc, o, install, registered, present).Ok? && EntryAbsent(doc, q)
    requires o.agent == q.agent && o.windows == q.windows && o.command != q.command
    ensures EntryAbsent(Modify(doc, o, install, registered, present).doc, q)
  {
    hide HookEvents, HookGroup, EventError, Contains;
    var hooks, events := HooksOf(doc), HookEvents(o.agent);
    RewriteEffect(hooks, o, events, install, registered, present);
    var r := Rewrite(hooks, o, events, install, registered, present).doc;
    assert HooksOf(WithHooks(doc, r)) == r;
    forall e | e in events
      ensures HookGroup(q, e) !in ListOf(r, e)
    {
      assert RewrittenAt(hooks, r, o, e, install);
      CommandsTellGroupsApart(o, q, e);
      WithoutMembers(ListOf(hooks, e), HookGroup(o, e));
    }
  }

  /** A document without hooks takes any installation. */
  lemma EmptyTakesInstall(o: Owner, registered: bool)
    ensures Modify(map[], o, true, registered, false).Ok?
  {
    hide HookGroup, Mentions;
    RewriteEffect(map[], o, HookEvents(o.agent), true, registered, false);
  }

  /** No empty list at an event of the agent and no empty hooks object. */
  predicate TidyFor(doc: Document, o: Owner) {
    && ("hooks" in doc ==> doc["hooks"] != Obj(map[]))
    && forall e :: e in HookEvents(o.agent) && e in HooksOf(doc) ==> HooksOf(doc)[e] != Arr([])
  }

  /** Installing again succeeds and changes nothing. */
  lemma InstallIsIdempotent(doc: Document, o: Owner, registered: bool, present: bool, again: bool)
    requires Modify(doc, o, true, registered, present).Ok?
    ensures var d := Modify(doc, o, true, registered, present).doc;
            Modify(d, o, true, again, true) == Ok(d)
  {
    hide HookEvents, HookGroup, EventError, Contains;
    var hooks, events := HooksOf(doc), HookEvents(o.agent);
    RewriteEffect(hooks, o, events, true, registered, present);
    var r := Rewrite(hooks, o, events, true, registered, present).doc;
    assert RewrittenAt(hooks, r, o, events[0], true);
    assert HooksOf(WithHooks(doc, r)) == r && r != map[];
    RewriteEffect(r, o, events, true, again, true);
    forall e | e in events
      ensures EventError(r, o, e, true, again, true) == None
      ensures Without(ListOf(r, e), HookGroup(o, e)) + [HookGroup(o, e)] == ListOf(r, e)
    {
      InstalledEvent(hooks, r, o, e, registered, present, true, again, true);
      assert RewrittenAt(hooks, r, o, e, true);
      WithoutAppend(ListOf(hooks, e), HookGroup(o, e));
    }
    var t := Rewrite(r, o, events, true, again, true).doc;
    SameDocument(r, t, o, events, true);
    assert WithHooks(WithHooks(doc, r), r) == WithHooks(doc, r);
  }

  lemma SameDocument(r: Document, t: Document, o: Owner, events: seq<string>, install: bool)
    requires forall e :: e in events ==> RewrittenAt(r, t, o, e, install)
    requires forall e :: e in events ==>
               var next := Without(ListOf(r, e), HookGroup(o, e)) + (if install then [HookGroup(o, e)] else []);
               if e in r then next != [] && r[e] == Arr(next) else next == []
    requires forall k :: k !in events ==> SameAt(r, t, k)
    ensures t == r
  {
    forall k
      ensures SameAt(r, t, k)
    {
      if k in events {
        assert RewrittenAt(r, t, o, k, install);
      }
    }
    assert forall k :: k in r <==> SameAt(r, t, k) && k in t;
    assert r.Keys == t.Keys;
  }

  /** The first half: the rewritten hooks of an install, and that uninstalling them has no error. */
  lemma InstalledThenRemoved(doc: Document, o: Owner, present: bool, registered: bool)
    returns (r: Document, t: Document)
    requires Modify(doc, o, true, registered, present).Ok?
    ensures var hooks, events := HooksOf(doc), HookEvents(o.agent);
            && Modify(doc, o, true, registered, present).doc == WithHooks(doc, r)
            && Modify(WithHooks(doc, r), o, false, true, true) == Ok(WithHooks(WithHooks(doc, r), t))
            && (forall e :: e in events ==> RewrittenAt(hooks, r, o, e, true) && RewrittenAt(r, t, o, e, false))
            && (forall e :: e in events && e in hooks ==> hooks[e].Arr?)
            && (forall k :: k !in events ==> SameAt(hooks, r, k) && SameAt(r, t, k))
  {
    hide HookEvents, HookGroup, EventError, Contains;
    var hooks, events := HooksOf(doc), HookEvents(o.agent);
    RewriteEffect(hooks, o, events, true, registered, present);
    r := Rewrite(hooks, o, events, true, registered, present).doc;
    var d := WithHooks(doc, r);
    assert RewrittenAt(hooks, r, o, events[0], true);
    assert HooksOf(d) == r && r != map[];
    hide Rewrite, Without, WithHooks;
    forall e | e in events
      ensures EventError(r, o, e, false, true, true) == None && (e in hooks ==> hooks[e].Arr?)
    {
      hide RewrittenAt;
      InstalledEvent(hooks, r, o, e, registered, present, false, true, true);
    }
    RewriteEffect(r, o, events, false, true, true);
    t := Rewrite(r, o, events, false, true, true).doc;
  }

  /** Uninstalling what was just installed succeeds, and gives back the original document exactly
      when that document held no owned group, no empty list at the agent's events and no empty
      hooks object. */
  lemma UninstallUndoesInstall(doc: Document, o: Owner, present: bool, registered: bool)
    requires Modify(doc, o, true, registered, present).Ok?
    ensures var d := Modify(doc, o, true, registered, present).doc;
            var u := Modify(d, o, false, true, true);
            u.Ok? && (u.doc == doc <==> EntryAbsent(doc, o) && TidyFor(doc, o))
  {
    var hooks, events := HooksOf(doc), HookEvents(o.agent);
    assert "hooks" in doc ==> doc["hooks"].Obj?;
    hide HookEvents, HookGroup, Modify, RewrittenAt, Without;
    var r, t := InstalledThenRemoved(doc, o, present, registered);
    var d := WithHooks(doc, r);
    if Modify(d, o, false, true, true).doc == doc {
      UninstallOwnsNothing(d, o, true, true);
    }
    if EntryAbsent(doc, o) && TidyFor(doc, o) {
      RestoredHooks(hooks, r, t, o, events);
      assert WithHooks(WithHooks(doc, r), hooks) == WithHooks(doc, hooks);
      assert WithHooks(doc, hooks) == doc;
    }
  }

  /** An event that was installed without error has no error for any later rewrite. */
  lemma InstalledEvent(hooks: Document, r: Document, o: Owner, e: string, registered: bool, present: bool,
                       install: bool, registered': bool, present': bool)
    requires EventError(hooks, o, e, true, registered, present) == None && RewrittenAt(hooks, r, o, e, true)
    ensures EventError(r, o, e, install, registered', present') == None
    ensures e in hooks ==> hooks[e].Arr?
  {
    hide HookGroup, Mentions;
    WithoutMembers(ListOf(hooks, e), HookGroup(o, e));
    assert forall x :: x in ListOf(r, e) && x != HookGroup(o, e) ==> x in ListOf(hooks, e);
    assert HookGroup(o, e) in ListOf(r, e);
  }

  lemma RestoredHooks(hooks: Document, r: Document, t: Document, o: Owner, events: seq<string>)
    requires forall e :: e in events ==> RewrittenAt(hooks, r, o, e, true) && RewrittenAt(r, t, o, e, false)
    requires forall e :: e in events ==> HookGroup(o, e) !in ListOf(hooks, e)
    requires forall e :: e in events && e in hooks ==> hooks[e].Arr? && hooks[e] != Arr([])
    requires forall k :: k !in events ==> SameAt(hooks, r, k) && SameAt(r, t, k)
    ensures t == hooks
  {
    hide HookGroup;
    forall k
      ensures SameAt(hooks, t, k)
    {
      if k in events {
        assert RewrittenAt(hooks, r, o, k, true) && RewrittenAt(r, t, o, k, false);
        WithoutAppend(ListOf(hooks, k), HookGroup(o, k));
        WithoutTwice(ListOf(hooks, k), HookGroup(o, k));
      }
    }
    assert forall k :: k in hooks <==> SameAt(hooks, t, k) && k in t;
    assert hooks.Keys == t.Keys;
  }
}
