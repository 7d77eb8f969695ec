/** What an installed hook document says, event by event and field by field. */
module HookContents {
  import opened Common
  import opened HookDocument

  /** The events every agent's hook is installed for; Codex has no failure event. */
  predicate Hooked(agent: string, event: string) {
    || event == "SessionStart" || event == "PreToolUse" || event == "PostToolUse" || event == "SessionEnd"
    || event == "UserPromptSubmit" || (event == "PostToolUseFailure" && agent != "codex")
  }

  /** A review may take a day and two minutes; Codex ends its sessions quickly. */
  function Seconds(agent: string, event: string): int {
    if event == "PreToolUse" then 86520 else if agent == "codex" && event == "SessionEnd" then 3 else 10
  }

  /** The fields of the one handler, and no others. */
  predicate HandlerFields(h: map<string, Json>, o: Owner, seconds: int) {
    && "type" in h && h["type"] == Text("command")
    && "command" in h && h["command"] == Text(o.command)
    && "timeout" in h && h["timeout"] == Number(seconds)
    && ("commandWindows" in h <==> o.agent == "codex" && o.windows)
    && ("commandWindows" in h ==> h["commandWindows"] == Text(o.command))
    && ("shell" in h <==> o.agent == "claude" && o.windows)
    && ("shell" in h ==> h["shell"] == Text("powershell"))
    && h.Keys <= {"type", "command", "timeout", "commandWindows", "shell"}
  }

  /** A group whose only handler runs the owner's command. */
  predicate Runs(g: Json, o: Owner, seconds: int) {
    && g.Obj? && g.fields.Keys == {"hooks"} && g.fields["hooks"].Arr? && |g.fields["hooks"].items| == 1
    && g.fields["hooks"].items[0].Obj? && HandlerFields(g.fields["hooks"].items[0].fields, o, seconds)
  }

  lemma HookedIsEvent(agent: string, event: string)
    ensures Hooked(agent, event) <==> event in HookEvents(agent)
  {
  }

  lemma SameFields(h: map<string, Json>, k: map<string, Json>, o: Owner, seconds: int)
    requires HandlerFields(h, o, seconds) && HandlerFields(k, o, seconds)
    ensures h == k
  {
    assert h.Keys == k.Keys;
  }

  /** The owned group is the one group that says this. */
  lemma RunsIsOwned(g: Json, o: Owner, event: string)
    requires Hooked(o.agent, event)
    ensures Runs(g, o, Seconds(o.agent, event)) <==> g == HookGroup(o, event)
  {
    var want := HookGroup(o, event);
    assert Runs(want, o, Seconds(o.agent, event));
    if Runs(g, o, Seconds(o.agent, event)) {
      SameFields(g.fields["hooks"].items[0].fields, want.fields["hooks"].items[0].fields, o, Seconds(o.agent, event));
      assert g.fields["hooks"].items == [g.fields["hooks"].items[0]];
      assert g.fields["hooks"] == want.fields["hooks"];
      assert g.fields == want.fields;
    }
  }

  /** Exactly one group of a list runs the owner's command. */
  predicate RunsOnce(list: seq<Json>, o: Owner, seconds: int) {
    exists i :: 0 <= i < |list| && RunsOnlyAt(list, i, o, seconds)
  }

  predicate RunsOnlyAt(list: seq<Json>, i: nat, o: Owner, seconds: int)
    requires i < |list|
  {
    Runs(list[i], o, seconds) && forall j :: 0 <= j < |list| && j != i ==> !Runs(list[j], o, seconds)
  }

  /** After an install every one of the agent's events runs the command exactly once, a tool call being
      held for the whole review. */
  lemma InstallRunsEverywhere(doc: Document, o: Owner, registered: bool, present: bool)
    requires Modify(doc, o, true, registered, present).Ok?
    ensures var d := Modify(doc, o, true, registered, present).doc;
            && "hooks" in d && d["hooks"].Obj?
            && forall e :: Hooked(o.agent, e) ==>
                 && e in d["hooks"].fields && d["hooks"].fields[e].Arr?
                 && RunsOnce(d["hooks"].fields[e].items, o, Seconds(o.agent, e))
  {
    var d := Modify(doc, o, true, registered, present).doc;
    InstalledHooks(doc, o, registered, present);
    hide Modify, HookEvents, HookGroup, Hooked, Seconds, RunsOnce;
    forall e | Hooked(o.agent, e)
      ensures e in d["hooks"].fields && d["hooks"].fields[e].Arr?
      ensures RunsOnce(d["hooks"].fields[e].items, o, Seconds(o.agent, e))
    {
      HookedIsEvent(o.agent, e);
      OwnedLast(ListOf(HooksOf(doc), e), o, e);
    }
  }

  lemma OwnedLast(list: seq<Json>, o: Owner, e: string)
    requires Hooked(o.agent, e)
    ensures RunsOnce(Without(list, HookGroup(o, e)) + [HookGroup(o, e)], o, Seconds(o.agent, e))
  {
    hide Without, HookGroup, Runs, Hooked, Seconds;
    var want := HookGroup(o, e);
    var others := Without(list, want);
    var all := others + [want];
    WithoutMembers(list, want);
    forall j | 0 <= j < |all|
      ensures Runs(all[j], o, Seconds(o.agent, e)) <==> j == |others|
    {
      RunsIsOwned(all[j], o, e);
      assert j < |others| ==> others[j] in others;
    }
    assert RunsOnlyAt(all, |others|, o, Seconds(o.agent, e));
  }

  /** Nothing at the event speaks of the command. */
  predicate Quiet(hooks: Document, event: string, command: string) {
    event in hooks ==> !Mentions(hooks[event], command)
  }

  lemma QuietList(hooks: Document, event: string, command: string)
    requires Quiet(hooks, event, command)
    ensures forall x :: x in ListOf(hooks, event) ==> !Mentions(x, command)
  {
  }

  lemma QuietItems(items: seq<Json>, command: string)
    requires forall x :: x in items ==> !Mentions(x, command)
    ensures !Mentions(Arr(items), command)
  {
  }

  /** In a document that did not speak of the command, an install touches the agent's events only. */
  lemma InstallStaysAtEvents(doc: Document, o: Owner, registered: bool, present: bool)
    requires Modify(doc, o, true, registered, present).Ok?
    requires forall e :: Quiet(HooksOf(doc), e, o.command)
    ensures var d := Modify(doc, o, true, registered, present).doc;
            && (forall e :: !Hooked(o.agent, e) ==> Quiet(HooksOf(d), e, o.command))
            && (forall e, x :: Hooked(o.agent, e) && x in ListOf(HooksOf(d), e) && Mentions(x, o.command) ==>
                  Runs(x, o, Seconds(o.agent, e)))
  {
    var d := Modify(doc, o, true, registered, present).doc;
    OthersStay(doc, o, true, registered, present);
    InstalledHooks(doc, o, registered, present);
    hide Modify, HookEvents, HookGroup, Hooked, Seconds, Mentions, Runs, Without;
    forall e | !Hooked(o.agent, e)
      ensures Quiet(HooksOf(d), e, o.command)
    {
      HookedIsEvent(o.agent, e);
      assert SameAt(HooksOf(doc), HooksOf(d), e) && Quiet(HooksOf(doc), e, o.command);
    }
    forall e, x | Hooked(o.agent, e) && x in ListOf(HooksOf(d), e) && Mentions(x, o.command)
      ensures Runs(x, o, Seconds(o.agent, e))
    {
      HookedIsEvent(o.agent, e);
      QuietList(HooksOf(doc), e, o.command);
      WithoutMembers(ListOf(HooksOf(doc), e), HookGroup(o, e));
      RunsIsOwned(x, o, e);
    }
  }

  /** And after uninstalling again nothing speaks of the command any more. */
  lemma UninstallIsQuiet(doc: Document, o: Owner, registered: bool, present: bool)
    requires Modify(doc, o, true, registered, present).Ok?
    requires forall e :: Quiet(HooksOf(doc), e, o.command)
    ensures var u := Modify(Modify(doc, o, true, registered, present).doc, o, false, true, true);
            u.Ok? && forall e :: Quiet(HooksOf(u.doc), e, o.command)
  {
    var d := Modify(doc, o, true, registered, present).doc;
    UninstallUndoesInstall(doc, o, present, registered);
    InstallStaysAtEvents(doc, o, registered, present);
    var u := Modify(d, o, false, true, true).doc;
    OthersStay(d, o, false, true, true);
    UninstallOwnsNothing(d, o, true, true);
    EventsAreLists(d, o, false, true, true);
    hide Modify, HookEvents, HookGroup, Hooked, Seconds, Mentions, Runs, Without, TidyFor;
    forall e
      ensures Quiet(HooksOf(u), e, o.command)
    {
      HookedIsEvent(o.agent, e);
      if Hooked(o.agent, e) {
        RemovedIsQuiet(d, u, o, e);
      } else {
        assert SameAt(HooksOf(d), HooksOf(u), e) && Quiet(HooksOf(d), e, o.command);
      }
    }
  }

  lemma EventsAreLists(doc: Document, o: Owner, install: bool, registered: bool, present: bool)
    requires Modify(doc, o, install, registered, present).Ok?
    ensures var d := Modify(doc, o, install, registered, present).doc;
            forall e :: Hooked(o.agent, e) && e in HooksOf(d) ==> HooksOf(d)[e].Arr?
  {
    var d := Modify(doc, o, install, registered, present).doc;
    hide HookEvents, HookGroup, Hooked, EventError, Without;
    RewriteEffect(HooksOf(doc), o, HookEvents(o.agent), install, registered, present);
    var r := Rewrite(HooksOf(doc), o, HookEvents(o.agent), install, registered, present).doc;
    assert HooksOf(WithHooks(doc, r)) == r;
    forall e | Hooked(o.agent, e) && e in r
      ensures r[e].Arr?
    {
      HookedIsEvent(o.agent, e);
      assert RewrittenAt(HooksOf(doc), r, o, e, install);
    }
  }

  lemma RemovedIsQuiet(d: Document, u: Document, o: Owner, e: string)
    requires Hooked(o.agent, e) && EntryAbsent(u, o)
    requires Without(ListOf(HooksOf(u), e), HookGroup(o, e)) == Without(ListOf(HooksOf(d), e), HookGroup(o, e))
    requires forall x :: x in ListOf(HooksOf(d), e) && Mentions(x, o.command) ==> Runs(x, o, Seconds(o.agent, e))
    requires e in HooksOf(u) ==> HooksOf(u)[e].Arr?
    ensures Quiet(HooksOf(u), e, o.command)
  {
    hide HookEvents, HookGroup, Hooked, Seconds, Mentions, Runs, Without;
    HookedIsEvent(o.agent, e);
    var want := HookGroup(o, e);
    WithoutMembers(ListOf(HooksOf(u), e), want);
    WithoutMembers(ListOf(HooksOf(d), e), want);
    forall x | x in ListOf(HooksOf(u), e)
      ensures !Mentions(x, o.command)
    {
      RunsIsOwned(x, o, e);
      assert x in Without(ListOf(HooksOf(u), e), want);
    }
    QuietItems(ListOf(HooksOf(u), e), o.command);
  }

  /** A handler of a group whose command text contains the owner's. */
  predicate Reuses(g: Json, command: string, before: string, behind: string) {
    && g.Obj? && "hooks" in g.fields && g.fields["hooks"].Arr?
    && exists h :: h in g.fields["hooks"].items && ReusesAt(h, command, before, behind)
  }

  predicate ReusesAt(h: Json, command: string, before: string, behind: string) {
    h.Obj? && "command" in h.fields && h.fields["command"] == Text(before + command + behind)
  }

  lemma ReusesIsMentioned(g: Json, command: string, before: string, behind: string)
    requires Reuses(g, command, before, behind)
    ensures Mentions(g, command)
  {
    var t := before + command + behind;
    assert OccursAt(t, |before|, command) by {
      assert t[|before|..|before| + |command|] == command;
    }
    assert Mentions(Text(t), command);
    hide OccursAt, Contains;
    var h :| h in g.fields["hooks"].items && ReusesAt(h, command, before, behind);
    assert Mentions(h, command);
    assert Mentions(g.fields["hooks"], command);
  }

  /** An owned handler that somebody changed is never overwritten or removed: the rewrite is refused. */
  lemma ChangedHandlerIsRefused(doc: Document, o: Owner, install: bool, registered: bool, present: bool,
                                e: string, g: Json, before: string, behind: string)
    requires Hooked(o.agent, e) && e in HooksOf(doc) && HooksOf(doc)[e].Arr? && g in HooksOf(doc)[e].items
    requires Reuses(g, o.command, before, behind) && !Runs(g, o, Seconds(o.agent, e))
    ensures Modify(doc, o, install, registered, present).Failed?
  {
    HookedIsEvent(o.agent, e);
    ReusesIsMentioned(g, o.command, before, behind);
    RunsIsOwned(g, o, e);
    hide HookEvents, HookGroup, Hooked, Seconds, Mentions, Runs, Reuses, Rewrite;
    RewriteEffect(HooksOf(doc), o, HookEvents(o.agent), install, registered, present);
    assert EventError(HooksOf(doc), o, e, install, registered, present) != None;
  }
}
