/** What a client operation does for the user: which installations there are afterwards, what is never
    touched, and that an uninstall undoes an install. */
module InstallLaws {
  import opened Common
  import opened HookDocument
  import opened HookContents
  import opened ClientFiles
  import opened ClientInstall

  // ---------------------------------------------------------------- what a hook in place means

  /** In a document every event of the agent runs the command; Pi has a link and OpenCode a file of its own. */
  lemma PresentRuns(fs: Disk, v: Entry)
    requires Present(fs, v)
    ensures v.agent == "pi" ==> At(fs, v.path) == Link(v.managed)
    ensures v.agent == "opencode" ==> exists mode :: At(fs, v.path) == File(Bytes(v.managed), mode)
    ensures v.agent != "pi" && v.agent != "opencode" ==>
              && At(fs, v.path).File? && At(fs, v.path).content.Hooks?
              && var doc := At(fs, v.path).content.doc;
                 && "hooks" in doc && doc["hooks"].Obj?
                 && forall e :: Hooked(v.agent, e) ==>
                      && e in doc["hooks"].fields && doc["hooks"].fields[e].Arr?
                      && exists g :: g in doc["hooks"].fields[e].items && Runs(g, OwnerOf(v), Seconds(v.agent, e))
  {
    hide HookGroup, HookEvents, Hooked, Seconds, Runs;
    if v.agent == "opencode" {
      assert At(fs, v.path) == File(Bytes(v.managed), At(fs, v.path).mode);
    } else if v.agent != "pi" {
      var doc := At(fs, v.path).content.doc;
      forall e | Hooked(v.agent, e)
        ensures e in doc["hooks"].fields && doc["hooks"].fields[e].Arr?
        ensures exists g :: g in doc["hooks"].fields[e].items && Runs(g, OwnerOf(v), Seconds(v.agent, e))
      {
        HookedIsEvent(v.agent, e);
        RunsIsOwned(HookGroup(OwnerOf(v), e), OwnerOf(v), e);
        assert HookGroup(OwnerOf(v), e) in doc["hooks"].fields[e].items;
      }
    }
  }

  // ---------------------------------------------------------------- which installations there are

  /** A switch replaces the agent's installations of the other scope, and for Grok every other one. */
  predicate SwitchedAway(r: Request, k: Key) {
    && r.install && r.switch && k.agent == r.candidate.agent
    && (k.scope != r.candidate.scope || (k.agent == "grok" && k.project != r.candidate.project))
  }

  /** Key k is registered after the operation. */
  predicate ListedAfter(entries: seq<Entry>, r: Request, k: Key) {
    if r.install then k == KeyOf(r.candidate) || (Listed(entries, k) && !SwitchedAway(r, k))
    else Listed(entries, k) && k != KeyOf(r.candidate)
  }

  lemma NextListed(fs: Disk, l: Layout, r: Request, k: Key)
    requires Agrees(fs, l) && PlanOf(fs, l.registry, r).Ready?
    ensures Listed(PlanOf(fs, l.registry, r).book.entries, k) <==>
              ListedAfter(ReadBook(fs, l.registry).value.entries, r, k)
  {
    var entries, next := ReadBook(fs, l.registry).value.entries, PlanOf(fs, l.registry, r).book.entries;
    var origin := NextMembers(fs, l, r);
    CandidateIsListed(fs, l, r);
    hide PlanOf, BookAgrees, AdaptersAgree, Agrees;
    if v :| v in entries && KeyOf(v) == k && !Takes(r, v) {
      assert v in next;
    }
  }

  /** An operation that takes effect leaves exactly the installations it should, listed and on the disk:
      an install adds its own, a switch takes the agent's other scopes away, an uninstall its own. */
  lemma OperationLists(fs: Disk, l: Layout, r: Request, failing: set<nat>, k: Key)
    requires Separate(l) && Agrees(fs, l) && Fits(l, r)
    requires Operated(fs, l.registry, l.adapters, r, failing) != fs
    ensures var end := Operated(fs, l.registry, l.adapters, r, failing);
            && ReadBook(end, l.registry).Some?
            && (Listed(ReadBook(end, l.registry).value.entries, k) <==>
                  ListedAfter(ReadBook(fs, l.registry).value.entries, r, k))
            && (!ListedAfter(ReadBook(fs, l.registry).value.entries, r, k) ==>
                  forall program :: !Present(end, Wanted(l, k, program)))
  {
    hide *;
    AgreesReads(fs, l);
    var end := Operated(fs, l.registry, l.adapters, r, failing);
    var after := OperatedParts(fs, l, r, failing);
    CommittedParts(fs, l, r, after);
    RegistryIsWritten(fs, l, r, after);
    RegistryElsewhere(l);
    NextListed(fs, l, r, k);
    SameBook(after, end, l.registry);
    OperationKeepsAgreement(fs, l, r, failing);
    forall program | !Listed(ReadBook(end, l.registry).value.entries, k)
      ensures !Present(end, Wanted(l, k, program))
    {
      CarriedIffPresent(end, l, k, program);
      CarriedIsListed(ReadBook(end, l.registry).value.entries, l, k, program);
    }
  }

  lemma RegistryElsewhere(l: Layout)
    requires Separate(l)
    ensures l.registry !in l.adapters
  {
  }

  lemma SameBook(after: Disk, end: Disk, registry: string)
    requires At(end, registry) == At(after, registry)
    ensures ReadBook(end, registry) == ReadBook(after, registry)
  {
  }

  lemma CarriedIsListed(entries: seq<Entry>, l: Layout, k: Key, program: string)
    ensures Carried(entries, l, k, program) ==> Listed(entries, k)
  {
  }

  // ---------------------------------------------------------------- what is never touched

  /** Something at the hook's place that the client did not write and cannot merge with. */
  predicate Foreign(n: Node, v: Entry) {
    && n != Absent
    && (v.agent == "pi" ==> n != Link(v.managed))
    && (v.agent == "opencode" ==> !(n.File? && n.content == Bytes(v.managed)))
    && (v.agent != "pi" && v.agent != "opencode" ==> !(n.File? && n.content.Hooks?))
  }

  lemma ForeignHasNoEdit(fs: Disk, v: Entry, install: bool)
    requires Foreign(At(fs, v.path), v)
    ensures HookEdit(fs, v, install) == None
  {
  }

  /** A foreign file, link or directory at the place of a hook makes the install refuse, and nothing changes. */
  lemma ForeignFileIsKept(fs: Disk, l: Layout, r: Request, failing: set<nat>)
    requires WellPlaced(l) && Agrees(fs, l) && Fits(l, r) && r.install
    requires Foreign(At(fs, l.place(KeyOf(r.candidate))), r.candidate)
    ensures Operated(fs, l.registry, l.adapters, r, failing) == fs
  {
    AgreesReads(fs, l);
    TargetPath(fs, l, r);
    hide Agrees, WellPlaced, Fits;
    var v := TargetEntry(ReadBook(fs, l.registry).value.entries, r);
    assert v.agent == r.candidate.agent && v.path == l.place(KeyOf(r.candidate)) && v.managed == l.managed(v.agent);
    FitsManaged(l, r);
    ForeignHasNoEdit(fs, v, true);
    RefusedWithoutHook(fs, l.registry, r);
  }

  lemma FitsManaged(l: Layout, r: Request)
    requires Fits(l, r) && r.install
    ensures r.candidate.managed == l.managed(r.candidate.agent)
  {
    hide Shipped;
  }

  lemma RefusedWithoutHook(fs: Disk, registry: string, r: Request)
    requires r.install && ReadBook(fs, registry).Some?
    requires HookEdit(fs, TargetEntry(ReadBook(fs, registry).value.entries, r), true) == None
    ensures !PlanOf(fs, registry, r).Ready?
  {
    hide HookEdit, Removals, AdapterEdits, TargetEntry, GrokConflict, Kept, Recorded, CurrentIndex;
  }

  /** With nothing registered, an adapter file of unknown origin makes the install refuse. */
  lemma UnknownAdapterIsKept(fs: Disk, l: Layout, r: Request, failing: set<nat>, p: string)
    requires Fits(l, r) && r.install
    requires ReadBook(fs, l.registry).Some? && ReadBook(fs, l.registry).value.entries == []
    requires p in l.adapters && At(fs, p) != Absent
    ensures Operated(fs, l.registry, l.adapters, r, failing) == fs
  {
    if PlanOf(fs, l.registry, r).Ready? {
      var book := ReadBook(fs, l.registry).value;
      var i := ShippedAt(l, r, book.resources, p);
      hide Fits;
      PlanParts(fs, l.registry, r);
      AdapterEditAt(fs, r.resources, book, |r.resources|);
      assert false;
    }
  }

  /** The final clean-up takes away a recorded file that is as recorded, and no other one. */
  lemma {:induction false} CleanupTakesIntact(fs: Disk, recorded: map<string, string>, adapters: seq<string>, n: nat,
                                              p: string)
    requires n <= |adapters|
    ensures At(Cleanup(fs, recorded, adapters, n), p)
         == if p in adapters[..n] && IntactAt(fs, recorded, p) then Absent else At(fs, p)
  {
    if n > 0 {
      CleanupTakesIntact(fs, recorded, adapters, n - 1, p);
      assert adapters[..n] == adapters[..n - 1] + [adapters[n - 1]];
    }
  }

  /** Everything in a document that is not the owner's: other keys, other events, other groups. */
  ghost predicate KeepsOthers(before: Document, after: Document, v: Entry) {
    && (forall k :: k in before && k != "hooks" ==> k in after && after[k] == before[k])
    && (forall e :: e in HooksOf(before) && !Hooked(v.agent, e) ==>
          e in HooksOf(after) && HooksOf(after)[e] == HooksOf(before)[e])
    && (forall e, g :: Hooked(v.agent, e) && g in ListOf(HooksOf(before), e)
                       && !Runs(g, OwnerOf(v), Seconds(v.agent, e)) ==>
          g in ListOf(HooksOf(after), e))
  }

  lemma ModifyKeepsOthers(doc: Document, v: Entry, install: bool, registered: bool, present: bool)
    requires Modify(doc, OwnerOf(v), install, registered, present).Ok?
    ensures KeepsOthers(doc, Modify(doc, OwnerOf(v), install, registered, present).doc, v)
  {
    var o, d := OwnerOf(v), Modify(doc, OwnerOf(v), install, registered, present).doc;
    OthersStay(doc, o, install, registered, present);
    hide Modify, HookEvents, HookGroup, Hooked, Seconds, Runs, Without;
    forall e | e in HooksOf(doc) && !Hooked(v.agent, e)
      ensures e in HooksOf(d) && HooksOf(d)[e] == HooksOf(doc)[e]
    {
      HookedIsEvent(v.agent, e);
      assert SameAt(HooksOf(doc), HooksOf(d), e);
    }
    forall e, g | Hooked(v.agent, e) && g in ListOf(HooksOf(doc), e) && !Runs(g, o, Seconds(v.agent, e))
      ensures g in ListOf(HooksOf(d), e)
    {
      HookedIsEvent(v.agent, e);
      RunsIsOwned(g, o, e);
      WithoutMembers(ListOf(HooksOf(doc), e), HookGroup(o, e));
      WithoutMembers(ListOf(HooksOf(d), e), HookGroup(o, e));
    }
    forall k | k in doc && k != "hooks"
      ensures k in d && d[k] == doc[k]
    {
      assert SameAt(doc, d, k);
    }
  }

  /** Installing and removing a hook keep what others have in the document; the file itself goes only if
      the client created it and nothing of anybody else is in it. */
  lemma HookEditKeepsOthers(fs: Disk, v: Entry, install: bool)
    requires v.agent != "pi" && v.agent != "opencode" && HookEdit(fs, v, install).Some?
    requires At(fs, v.path).File? && At(fs, v.path).content.Hooks?
    ensures var doc, n := At(fs, v.path).content.doc, ClientFiles.Target(HookEdit(fs, v, install).value);
            && (n == Absent || (n.File? && n.content.Hooks? && n.mode == At(fs, v.path).mode))
            && KeepsOthers(doc, if n == Absent then map[] else n.content.doc, v)
            && (n == Absent ==> !install && v.createdFile)
  {
    var doc := At(fs, v.path).content.doc;
    ModifyKeepsOthers(doc, v, install, true, true);
    hide Modify, KeepsOthers;
  }

  /** A node that is no longer what the plan saw makes the edit refuse: something new, another link,
      something that is no file, or a file with other content. */
  lemma ChangedNodeIsRefused(n: Node, e: Edit)
    ensures !e.existed && n != Absent ==> Apply(n, e) == None
    ensures e.existed && e.oldLink != "" && n != Link(e.oldLink) ==> Apply(n, e) == None
    ensures e.existed && e.oldLink == "" && (!n.File? || Some(n.content) != e.before) && e.before.Some? ==>
              Apply(n, e) == None
  {
  }

  /** And one that is still what the plan saw gets the new content with the recorded mode, the new link,
      or nothing at all. */
  lemma PlannedNodeIsWritten(fs: Disk, e: Edit)
    requires Planned(fs, e) && (e.existed && e.oldLink != "" ==> e.newLink == "")
    ensures Apply(At(fs, e.path), e).Some?
    ensures e.newLink != "" ==> Apply(At(fs, e.path), e) == Some(Link(e.newLink))
    ensures e.newLink == "" && e.after.Some? ==> Apply(At(fs, e.path), e) == Some(File(e.after.value, e.mode))
    ensures e.newLink == "" && e.after == None ==> Apply(At(fs, e.path), e) == Some(Absent)
  {
  }

  // ---------------------------------------------------------------- an uninstall undoes an install

  /** Disks that show the same node everywhere are the same disk. */
  lemma SameDisk(a: Disk, b: Disk)
    requires WellFormed(a) && WellFormed(b) && forall p :: At(a, p) == At(b, p)
    ensures a == b
  {
    forall p
      ensures p in a <==> p in b
      ensures p in a ==> a[p] == b[p]
    {
      assert At(a, p) == At(b, p);
    }
    assert a.Keys == b.Keys;
  }

  /** The rest of the disk is as before a plain install. */
  lemma InstalledElsewhere(fs: Disk, l: Layout, r: Request, p: string)
    requires WellPlaced(l) && Plain(fs, l, r)
    requires p != r.candidate.path && p != l.registry && p !in l.adapters
    ensures At(Operated(fs, l.registry, l.adapters, r, {}), p) == At(fs, p)
  {
    var plan, book := PlanOf(fs, l.registry, r), ReadBook(fs, l.registry).value;
    PlainEdits(fs, l, r);
    PlainAdapters(fs, l, r, book);
    HookEditApplies(fs, r.candidate, true);
    RegistryEditApplies(fs, l.registry, plan.book);
    var after := PlainCommits(fs, l, r);
    hide HookEdit, PlanOf, RegistryEdit, AdapterEdits, Apply, Recorded, WellPlaced, CurrentIndex, Replaces, Fits,
         ApplyAll, Target, Independent;
    UnnamedPathStays(fs, plan.edits, p);
    assert plan.book.entries != [];
  }

  /** What an uninstall can give back: a document without empty event lists and empty hooks object. */
  predicate Restores(n: Node, v: Entry) {
    v.agent != "pi" && v.agent != "opencode" && n.File? && n.content.Hooks? ==> TidyFor(n.content.doc, OwnerOf(v))
  }

  /** The removal edit of a hook that was just installed leads back to what was there before, if that
      can be given back. */
  lemma HookUndone(fs: Disk, v: Entry, mid: Disk)
    requires WellFormed(fs) && HookEdit(fs, v, true).Some? && Gone(fs, v)
    requires (v.agent == "pi" ==> v.managed != "") && At(mid, v.path) == ClientFiles.Target(HookEdit(fs, v, true).value)
    ensures var e := HookEdit(mid, v.(createdFile := !HookEdit(fs, v, true).value.existed), false);
            && e.Some? && e.value.path == v.path
            && (ClientFiles.Target(e.value) == At(fs, v.path) <==> Restores(At(fs, v.path), v))
  {
    if v.agent != "pi" && v.agent != "opencode" {
      var doc := if At(fs, v.path) == Absent then map[] else At(fs, v.path).content.doc;
      var present := At(fs, v.path) != Absent;
      EmptyIsTidy(OwnerOf(v));
      UninstallUndoesInstall(doc, OwnerOf(v), present, true);
      hide Modify, EntryAbsent, TidyFor;
    }
  }

  lemma EmptyIsTidy(o: Owner)
    ensures EntryAbsent(map[], o) && TidyFor(map[], o)
  {
    hide HookGroup, HookEvents;
  }

  lemma LastUninstallPlan(fs: Disk, registry: string, v: Entry, resources: map<string, string>, c: Entry)
    requires ReadBook(fs, registry) == Some(Book([v], resources)) && At(fs, registry) != Absent
    requires KeyOf(v) == KeyOf(c) && HookEdit(fs, v, false).Some?
    ensures var last := RegistryEdit(fs, registry, Book([], resources));
            last.Some? && PlanOf(fs, registry, Request(false, false, c, []))
                          == Ready([HookEdit(fs, v, false).value, last.value], Book([], resources))
  {
    hide HookEdit;
    var r, entries, e := Request(false, false, c, []), [v], HookEdit(fs, v, false).value;
    assert Removals(fs, r, entries, 0, 0) == Some([]) && [] + [e] == [e];
    assert Removals(fs, r, entries, 0, 1) == Some([e]);
    assert Kept(r, entries, 0, 1) == [];
  }

  /** Uninstalling the only installation: its hook is undone, and registry and adapter files are gone. */
  lemma LastUninstall(fs: Disk, l: Layout, v: Entry, resources: map<string, string>, c: Entry, p: string)
    requires WellPlaced(l) && WellFormed(fs) && ReadBook(fs, l.registry) == Some(Book([v], resources))
    requires KeyOf(v) == KeyOf(c) && HookEdit(fs, v, false).Some? && v.path == l.place(KeyOf(v))
    requires AdaptersIntact(fs, l, resources)
    ensures var end := Operated(fs, l.registry, l.adapters, Request(false, false, c, []), {});
            && WellFormed(end)
            && At(end, p) == if p == v.path then ClientFiles.Target(HookEdit(fs, v, false).value)
                             else if p == l.registry || p in l.adapters then Absent
                             else At(fs, p)
  {
    var e, last := HookEdit(fs, v, false).value, RegistryEdit(fs, l.registry, Book([], resources)).value;
    LastUninstallPlan(fs, l.registry, v, resources, c);
    HookEditApplies(fs, v, false);
    RegistryEditApplies(fs, l.registry, Book([], resources));
    assert WellPlacedAt(l, KeyOf(v)) && l.registry !in l.adapters;
    var edits := [e, last];
    hide HookEdit, PlanOf, RegistryEdit, ClientFiles.Target, Apply, WellPlaced;
    assert Independent(fs, edits);
    DistinctEditsApply(fs, edits);
    var after := ApplyAll(fs, edits).value;
    ApplyAllWellFormed(fs, edits);
    assert At(after, edits[0].path) == ClientFiles.Target(e) && At(after, edits[1].path) == ClientFiles.Target(last);
    forall q | q != v.path && q != l.registry
      ensures At(after, q) == At(fs, q)
    {
      UnnamedPathStays(fs, edits, q);
    }
    hide ApplyAll, Independent;
    CleanupIsLocal(after, resources, l.adapters, |l.adapters|, p);
    forall q | q in l.adapters
      ensures At(after, q) == Absent || IntactAt(after, resources, q)
    {
      assert IntactAt(fs, resources, q);
    }
    CleanupRemoves(after, resources, l.adapters, |l.adapters|);
    assert l.adapters[..|l.adapters|] == l.adapters;
    hide Cleanup;
    assert Operated(fs, l.registry, l.adapters, Request(false, false, c, []), {})
        == Cleanup(after, resources, l.adapters, |l.adapters|);
  }

  /** From an untouched directory, an install followed by the uninstall of the same installation gives
      back the whole disk, hook file, registry and adapter files, exactly when the hook document was tidy. */
  lemma UninstallRestoresDisk(fs: Disk, l: Layout, k: Key, program: string)
    requires WellPlaced(l) && Untouched(fs, l) && Tidy(fs, l)
    requires HookEdit(fs, Wanted(l, k, program), true).Some?
    ensures var ops := [Operation(Request(true, false, Wanted(l, k, program), Package(l, program)), {}),
                        Operation(Request(false, false, Wanted(l, k, program), []), {})];
            && AllFit(l, ops)
            && (RunOperations(fs, l, ops) == fs <==> Restores(At(fs, l.place(k)), Wanted(l, k, program)))
  {
    var r := RequestFits(l, k, program);
    var u := Request(false, false, Wanted(l, k, program), []);
    var v := Wanted(l, k, program);
    assert Fits(l, u);
    assert WellPlacedAt(l, k) && Gone(fs, Wanted(l, k, program));
    InstallFromScratch(fs, l, r);
    var mid := PlainInstall(fs, l, r);
    var resources := ReadBook(mid, l.registry).value.resources;
    var w := v.(createdFile := !HookEdit(fs, v, true).value.existed);
    HookUndone(fs, v, mid);
    assert ReadBook(fs, l.registry) == Some(Book([], map[])) && [] + [w] == [w];
    assert ReadBook(mid, l.registry) == Some(Book([w], resources));
    var end := Operated(mid, l.registry, l.adapters, u, {});
    forall p
      ensures WellFormed(end)
      ensures p != v.path || Restores(At(fs, v.path), v) ==> At(end, p) == At(fs, p)
      ensures p == v.path && !Restores(At(fs, v.path), v) ==> At(end, p) != At(fs, p)
    {
      hide HookEdit, Plain, Operated, WellPlaced, Untouched, PlanOf, Gone, Restores, Package, Fits, Recorded;
      LastUninstall(mid, l, w, resources, u.candidate, p);
      if p != v.path && p != l.registry && p !in l.adapters {
        InstalledElsewhere(fs, l, r, p);
      }
    }
    if Restores(At(fs, v.path), v) {
      SameDisk(end, fs);
    } else {
      assert At(end, v.path) != At(fs, v.path);
    }
    hide Operated, HookEdit, Plain, PlanOf, Fits, Package;
    var o1, o2 := Operation(r, {}), Operation(u, {});
    assert [o1, o2] == [o1] + [o2] && [o2] == [o2] + [];
    OneStepRun(fs, l, o1, [o2]);
    OneStepRun(mid, l, o2, []);
    EmptyRun(end, l);
  }
}
