/** Install, switch and uninstall: planning the edits of one client operation, and the agreement
    between the registry and the hooks that are really in place. */
module ClientInstall {
  import opened Common
  import opened HookDocument
  import opened ClientFiles

  const NEW_FILE_MODE: int := 0x180

  datatype Key = Key(agent: string, scope: string, project: string)

  function KeyOf(v: Entry): Key {
    Key(v.agent, v.scope, v.project)
  }

  function OwnerOf(v: Entry): Owner {
    Owner(v.agent, v.command, false)
  }

  // ---------------------------------------------------------------- single edits

  function RegularEdit(fs: Disk, p: string, data: Option<Content>): Option<Edit> {
    match At(fs, p)
    case Absent => Some(Edit(p, None, data, NEW_FILE_MODE, "", "", false))
    case File(c, m) => Some(Edit(p, Some(c), data, m, "", "", true))
    case _ => None
  }

  /** The edit that puts an installation's hook in place or takes it away; None refuses. */
  function HookEdit(fs: Disk, v: Entry, install: bool): Option<Edit> {
    if v.agent == "pi" then
      var newLink := if install then v.managed else "";
      match At(fs, v.path)
      case Absent => Some(Edit(v.path, None, None, NEW_FILE_MODE, "", newLink, false))
      case Link(l) => if l == v.managed then Some(Edit(v.path, None, None, NEW_FILE_MODE, l, newLink, true)) else None
      case _ => None
    else if v.agent == "opencode" then
      var e := RegularEdit(fs, v.path, if install then Some(Bytes(v.managed)) else None);
      if e.Some? && e.value.existed && e.value.before != Some(Bytes(v.managed)) then None else e
    else
      match At(fs, v.path)
      case Absent =>
        var r := Modify(map[], OwnerOf(v), install, true, false);
        if r.Failed? then None
        else Some(Edit(v.path, None, if install then Some(Hooks(r.doc)) else None, NEW_FILE_MODE, "", "", false))
      case File(Hooks(doc), m) =>
        var r := Modify(doc, OwnerOf(v), install, true, true);
        if r.Failed? then None
        else Some(Edit(v.path, Some(Hooks(doc)),
                       if !install && v.createdFile && r.doc == map[] then None else Some(Hooks(r.doc)),
                       m, "", "", true))
      case _ => None
  }

  /** The installation's hook is in place. */
  predicate Present(fs: Disk, v: Entry) {
    if v.agent == "pi" then At(fs, v.path) == Link(v.managed)
    else if v.agent == "opencode" then At(fs, v.path).File? && At(fs, v.path).content == Bytes(v.managed)
    else At(fs, v.path).File? && At(fs, v.path).content.Hooks? && EntryOk(At(fs, v.path).content.doc, OwnerOf(v))
  }

  /** Nothing of the installation's hook is in place. */
  predicate Gone(fs: Disk, v: Entry) {
    if v.agent == "pi" then At(fs, v.path) != Link(v.managed)
    else if v.agent == "opencode" then !(At(fs, v.path).File? && At(fs, v.path).content == Bytes(v.managed))
    else At(fs, v.path).File? && At(fs, v.path).content.Hooks? ==> EntryAbsent(At(fs, v.path).content.doc, OwnerOf(v))
  }

  lemma PresentIsNotGone(fs: Disk, v: Entry)
    requires Present(fs, v)
    ensures !Gone(fs, v)
  {
    hide HookGroup, HookEvents;
    if v.agent != "pi" && v.agent != "opencode" {
      assert HookEvents(v.agent)[0] in HookEvents(v.agent);
    }
  }

  lemma HookEditIsPlanned(fs: Disk, v: Entry, install: bool)
    requires WellFormed(fs) && HookEdit(fs, v, install).Some?
    ensures Planned(fs, HookEdit(fs, v, install).value) && HookEdit(fs, v, install).value.path == v.path
  {
    hide Modify;
  }

  /** Once the edit's target is at its path, the hook is in place after an install and gone after a removal. */
  lemma HookEditEffect(fs: Disk, v: Entry, install: bool, after: Disk)
    requires HookEdit(fs, v, install).Some? && (v.agent == "pi" ==> v.managed != "")
    requires At(after, v.path) == Target(HookEdit(fs, v, install).value)
    ensures if install then Present(after, v) else Gone(after, v)
  {
    if v.agent != "pi" && v.agent != "opencode" {
      var doc := if At(fs, v.path) == Absent then map[] else At(fs, v.path).content.doc;
      var present := At(fs, v.path) != Absent;
      if install {
        InstallOwnsOnce(doc, OwnerOf(v), true, present);
      } else {
        UninstallOwnsNothing(doc, OwnerOf(v), true, present);
      }
      hide Modify, EntryOk, EntryAbsent, TidyFor;
    }
  }

  // ---------------------------------------------------------------- the plan

  datatype Request = Request(install: bool, switch: bool, candidate: Entry, resources: seq<(string, string)>)

  datatype Book = Book(entries: seq<Entry>, resources: map<string, string>)

  function ReadBook(fs: Disk, registry: string): Option<Book> {
    match At(fs, registry)
    case Absent => Some(Book([], map[]))
    case File(Registry(entries, resources), _) => Some(Book(entries, resources))
    case _ => None
  }

  /** The index of the entry with the requested agent, scope and project, or the length. */
  function CurrentIndex(entries: seq<Entry>, k: Key): (i: nat)
    ensures i <= |entries|
    ensures i < |entries| ==> KeyOf(entries[i]) == k
    ensures forall j :: 0 <= j < i ==> KeyOf(entries[j]) != k
  {
    if entries == [] || KeyOf(entries[0]) == k then 0 else 1 + CurrentIndex(entries[1..], k)
  }

  predicate GrokConflict(entries: seq<Entry>, r: Request) {
    && r.install && !r.switch && r.candidate.agent == "grok"
    && exists v :: v in entries && v.agent == "grok" && KeyOf(v) != KeyOf(r.candidate)
  }

  /** The installations a switch of the candidate's agent replaces. */
  predicate Replaces(r: Request, v: Entry) {
    && r.switch && v.agent == r.candidate.agent
    && (v.scope != r.candidate.scope || (v.agent == "grok" && v.project != r.candidate.project))
  }

  predicate Removes(r: Request, v: Entry, isCurrent: bool) {
    if r.install then Replaces(r, v) else isCurrent
  }

  /** The first n entries without the removed ones. */
  function Kept(r: Request, entries: seq<Entry>, current: nat, n: nat): seq<Entry>
    requires n <= |entries|
  {
    if n == 0 then []
    else
      Kept(r, entries, current, n - 1) +
      (if Removes(r, entries[n - 1], n - 1 == current) then [] else [entries[n - 1]])
  }

  /** The edits that take the removed ones of the first n entries off the disk; None refuses. */
  function Removals(fs: Disk, r: Request, entries: seq<Entry>, current: nat, n: nat): Option<seq<Edit>>
    requires n <= |entries|
  {
    if n == 0 then Some([])
    else
      var earlier := Removals(fs, r, entries, current, n - 1);
      if earlier == None || !Removes(r, entries[n - 1], n - 1 == current) then earlier
      else
        var e := HookEdit(fs, entries[n - 1], false);
        if e == None then None else Some(earlier.value + [e.value])
  }

  /** Adapter files are shared: they are created once and must afterwards be unchanged and unmodified. */
  function AdapterEdit(fs: Disk, p: string, text: string, book: Book): Option<Edit> {
    var e := RegularEdit(fs, p, Some(Bytes(text)));
    if e.Some? && e.value.existed
       && (book.entries == [] || p !in book.resources || e.value.before != Some(Bytes(book.resources[p]))
           || book.resources[p] != text)
    then None else e
  }

  function AdapterEdits(fs: Disk, resources: seq<(string, string)>, book: Book, n: nat): Option<seq<Edit>>
    requires n <= |resources|
  {
    if n == 0 then Some([])
    else
      var earlier := AdapterEdits(fs, resources, book, n - 1);
      var e := AdapterEdit(fs, resources[n - 1].0, resources[n - 1].1, book);
      if earlier == None || e == None then None else Some([e.value] + earlier.value)
  }

  function Recorded(book: map<string, string>, resources: seq<(string, string)>, n: nat): map<string, string>
    requires n <= |resources|
  {
    if n == 0 then book else Recorded(book, resources, n - 1)[resources[n - 1].0 := resources[n - 1].1]
  }

  /** A plan: the edits and the registry they lead to. `Idle` is an uninstall of nothing. */
  datatype Plan = Refused | Idle | Ready(edits: seq<Edit>, book: Book)

  function RegistryEdit(fs: Disk, registry: string, book: Book): Option<Edit> {
    RegularEdit(fs, registry, if book.entries == [] then None else Some(Registry(book.entries, book.resources)))
  }

  function Finish(fs: Disk, registry: string, edits: seq<Edit>, book: Book): Plan {
    var e := RegistryEdit(fs, registry, book);
    if e == None then Refused else Ready(edits + [e.value], book)
  }

  function TargetEntry(entries: seq<Entry>, r: Request): Entry {
    var c := CurrentIndex(entries, KeyOf(r.candidate));
    if c < |entries| then entries[c] else r.candidate
  }

  function PlanOf(fs: Disk, registry: string, r: Request): Plan {
    var book := ReadBook(fs, registry);
    if book == None || GrokConflict(book.value.entries, r) then Refused
    else
      var entries := book.value.entries;
      var c := CurrentIndex(entries, KeyOf(r.candidate));
      if !r.install && c == |entries| then Idle
      else
        var removals := Removals(fs, r, entries, c, |entries|);
        var kept := Kept(r, entries, c, |entries|);
        if removals == None then Refused
        else if !r.install then Finish(fs, registry, removals.value, Book(kept, book.value.resources))
        else
          var hook := HookEdit(fs, TargetEntry(entries, r), true);
          var adapters := AdapterEdits(fs, r.resources, book.value, |r.resources|);
          if hook == None || adapters == None then Refused
          else Finish(fs, registry, adapters.value + (removals.value + [hook.value]),
                      Book(if c < |entries| then kept else kept + [r.candidate.(createdFile := !hook.value.existed)],
                           Recorded(book.value.resources, r.resources, |r.resources|)))
  }

  /** Once nothing is registered, recorded and unmodified adapter files are deleted. */
  function Cleanup(fs: Disk, recorded: map<string, string>, adapters: seq<string>, n: nat): Disk
    requires n <= |adapters|
  {
    if n == 0 then fs
    else
      var earlier := Cleanup(fs, recorded, adapters, n - 1);
      var p := adapters[n - 1];
      if p in recorded && At(earlier, p).File? && At(earlier, p).content == Bytes(recorded[p])
      then Put(earlier, p, Absent)
      else earlier
  }

  /** One whole client operation; `failing` are the edits whose file primitive fails. */
  function Operated(fs: Disk, registry: string, adapters: seq<string>, r: Request, failing: set<nat>): Disk {
    match PlanOf(fs, registry, r)
    case Ready(edits, book) =>
      var after := ApplyAll(fs, edits);
      if after == None || (exists i :: 0 <= i < |edits| && i in failing) then fs
      else if book.entries == [] then Cleanup(after.value, book.resources, adapters, |adapters|)
      else after.value
    case _ => fs
  }

  // ---------------------------------------------------------------- where planned edits come from

  datatype Origin = Adapter(i: nat) | Removal(v: Entry) | Hook | Record

  /** The registered entries the operation takes away, by key. */
  predicate Takes(r: Request, v: Entry) {
    if r.install then Replaces(r, v) else KeyOf(v) == KeyOf(r.candidate)
  }

  predicate Originates(fs: Disk, registry: string, r: Request, book: Book, e: Edit, o: Origin) {
    match o
    case Adapter(i) =>
      r.install && i < |r.resources| && AdapterEdit(fs, r.resources[i].0, r.resources[i].1, book) == Some(e)
    case Removal(v) => v in book.entries && Takes(r, v) && HookEdit(fs, v, false) == Some(e)
    case Hook => r.install && HookEdit(fs, TargetEntry(book.entries, r), true) == Some(e)
    case Record => e.path == registry && Planned(fs, e)
  }

  lemma {:induction false} RemovalOrigin(fs: Disk, r: Request, entries: seq<Entry>, n: nat, e: Edit) returns (v: Entry)
    requires n <= |entries|
    requires Removals(fs, r, entries, CurrentIndex(entries, KeyOf(r.candidate)), n).Some?
    requires e in Removals(fs, r, entries, CurrentIndex(entries, KeyOf(r.candidate)), n).value
    ensures v in entries && Takes(r, v) && HookEdit(fs, v, false) == Some(e)
  {
    hide HookEdit, Replaces;
    var c := CurrentIndex(entries, KeyOf(r.candidate));
    assert n > 0;
    v := entries[n - 1];
    if e in Removals(fs, r, entries, c, n - 1).value {
      v := RemovalOrigin(fs, r, entries, n - 1, e);
    }
  }

  /** The adapter edits are those of the resources, in reverse order. */
  lemma {:induction false} AdapterEditAt(fs: Disk, resources: seq<(string, string)>, book: Book, n: nat)
    requires n <= |resources| && AdapterEdits(fs, resources, book, n).Some?
    ensures var edits := AdapterEdits(fs, resources, book, n).value;
            && |edits| == n
            && forall i :: 0 <= i < n ==>
                 AdapterEdit(fs, resources[i].0, resources[i].1, book) == Some(edits[n - 1 - i])
  {
    hide AdapterEdit;
    if n > 0 {
      AdapterEditAt(fs, resources, book, n - 1);
    }
  }

  lemma AdapterOrigin(fs: Disk, resources: seq<(string, string)>, book: Book, e: Edit) returns (i: nat)
    requires AdapterEdits(fs, resources, book, |resources|).Some?
    requires e in AdapterEdits(fs, resources, book, |resources|).value
    ensures i < |resources| && AdapterEdit(fs, resources[i].0, resources[i].1, book) == Some(e)
  {
    hide AdapterEdit;
    AdapterEditAt(fs, resources, book, |resources|);
    var edits := AdapterEdits(fs, resources, book, |resources|).value;
    var j :| 0 <= j < |edits| && edits[j] == e;
    i := |resources| - 1 - j;
  }

  lemma AdapterEditIsPlanned(fs: Disk, p: string, text: string, book: Book)
    requires AdapterEdit(fs, p, text, book).Some?
    ensures var e := AdapterEdit(fs, p, text, book).value;
            && Planned(fs, e) && e.path == p && Target(e).File? && Target(e).content == Bytes(text)
            && Apply(At(fs, p), e).Some?
  {
  }

  lemma PlanOrigin(fs: Disk, registry: string, r: Request, e: Edit) returns (o: Origin)
    requires PlanOf(fs, registry, r).Ready? && e in PlanOf(fs, registry, r).edits
    ensures Originates(fs, registry, r, ReadBook(fs, registry).value, e, o)
  {
    var book := ReadBook(fs, registry).value;
    var entries := book.entries;
    var c := CurrentIndex(entries, KeyOf(r.candidate));
    var removals := Removals(fs, r, entries, c, |entries|).value;
    var plan := PlanOf(fs, registry, r);
    hide HookEdit, Takes, AdapterEdit, AdapterEdits, Removals, Kept, Recorded, GrokConflict, TargetEntry, CurrentIndex;
    if e in removals {
      var v := RemovalOrigin(fs, r, entries, |entries|, e);
      o := Removal(v);
    } else if Some(e) == RegistryEdit(fs, registry, plan.book) {
      o := Record;
    } else if HookEdit(fs, TargetEntry(entries, r), true) == Some(e) && r.install {
      o := Hook;
    } else {
      var i := AdapterOrigin(fs, r.resources, book, e);
      o := Adapter(i);
    }
  }

  /** Every edit of a plan was made by looking at the disk it is applied to. */
  lemma PlanIsPlanned(fs: Disk, registry: string, r: Request)
    requires WellFormed(fs) && PlanOf(fs, registry, r).Ready?
    ensures forall e :: e in PlanOf(fs, registry, r).edits ==> Planned(fs, e)
  {
    var book := ReadBook(fs, registry).value;
    forall e | e in PlanOf(fs, registry, r).edits
      ensures Planned(fs, e)
    {
      var o := PlanOrigin(fs, registry, r, e);
      hide PlanOf, HookEdit, AdapterEdit, TargetEntry, Takes, Planned;
      match o
      case Removal(v) => HookEditIsPlanned(fs, v, false);
      case Hook => HookEditIsPlanned(fs, TargetEntry(book.entries, r), true);
      case Adapter(i) => AdapterEditIsPlanned(fs, r.resources[i].0, r.resources[i].1, book);
      case Record =>
    }
  }

  // ---------------------------------------------------------------- agreement

  /** One client directory: its registry, its adapter files (one of them, `runtime`, names the hook
      program), and where each agent, scope and project keeps its hook. The command of a hook
      depends on the agent and the program, the managed text of an entry on the agent alone. */
  datatype Layout = Layout(
    registry: string, adapters: seq<string>, runtime: string,
    place: Key -> string, command: (string, string) -> string, managed: string -> string)

  /** The installation of key k that an install with the given hook program asks for. */
  function Wanted(l: Layout, k: Key, program: string): Entry {
    Entry(k.agent, k.scope, k.project, l.place(k), l.command(k.agent, program), l.managed(k.agent), false)
  }

  predicate WellPlacedAt(l: Layout, k: Key) {
    && (k.agent == "pi" ==> l.managed(k.agent) != "")
    && l.place(k) != l.registry && l.place(k) !in l.adapters
  }

  /** Hooks lie outside the client directory, and every agent has a file name of its own. */
  ghost predicate WellPlaced(l: Layout) {
    && (forall k :: WellPlacedAt(l, k))
    && (forall k, j :: l.place(k) == l.place(j) ==> k.agent == j.agent)
    && l.registry !in l.adapters && l.runtime in l.adapters && Distinct(l.adapters)
  }

  /** No two installations share a hook file. */
  ghost predicate OwnFiles(l: Layout) {
    forall k, j :: l.place(k) == l.place(j) ==> k == j
  }

  ghost predicate Separate(l: Layout) {
    WellPlaced(l) && OwnFiles(l)
  }

  predicate Registered(v: Entry, l: Layout) {
    v.path == l.place(KeyOf(v)) && v.managed == l.managed(v.agent)
  }

  /** What one install asks for: each adapter file once, and the hook of the program in `runtime`. */
  predicate Fits(l: Layout, r: Request) {
    r.install ==>
      && Registered(r.candidate, l)
      && (forall i, j :: 0 <= i < j < |r.resources| ==> r.resources[i].0 != r.resources[j].0)
      && (forall i :: 0 <= i < |r.resources| ==> r.resources[i].0 in l.adapters)
      && (forall p :: p in l.adapters ==> p in Shipped(r))
      && l.runtime in Shipped(r)
      && r.candidate.command == l.command(r.candidate.agent, Shipped(r)[l.runtime])
  }

  function Shipped(r: Request): map<string, string> {
    Recorded(map[], r.resources, |r.resources|)
  }

  predicate Listed(entries: seq<Entry>, k: Key) {
    exists v :: v in entries && KeyOf(v) == k
  }

  /** Two entries of one agent and one path stand for the same text on disk. */
  predicate SameHook(v: Entry, w: Entry) {
    && v.agent == w.agent && v.path == w.path
    && (if v.agent == "pi" || v.agent == "opencode" then v.managed == w.managed else v.command == w.command)
  }

  /** Key k is registered with the command of this program. */
  predicate Carried(entries: seq<Entry>, l: Layout, k: Key, program: string) {
    exists v :: v in entries && KeyOf(v) == k && SameHook(v, Wanted(l, k, program))
  }

  predicate UniqueKeys(entries: seq<Entry>) {
    forall i, j :: 0 <= i < j < |entries| ==> KeyOf(entries[i]) != KeyOf(entries[j])
  }

  predicate OneGrok(entries: seq<Entry>) {
    forall v, w :: v in entries && w in entries && v.agent == "grok" && w.agent == "grok" ==> KeyOf(v) == KeyOf(w)
  }

  predicate InPlace(fs: Disk, l: Layout, v: Entry) {
    Registered(v, l) && Present(fs, v)
  }

  ghost predicate BookAgrees(fs: Disk, entries: seq<Entry>, l: Layout) {
    && (forall v :: v in entries ==> InPlace(fs, l, v))
    && (forall k, b :: !Carried(entries, l, k, b) ==> Gone(fs, Wanted(l, k, b)))
  }

  /** Adapter file p is recorded and lies on the disk as recorded. */
  predicate IntactAt(fs: Disk, recorded: map<string, string>, p: string) {
    p in recorded && At(fs, p).File? && At(fs, p).content == Bytes(recorded[p])
  }

  predicate AdaptersIntact(fs: Disk, l: Layout, recorded: map<string, string>) {
    forall p :: p in l.adapters ==> IntactAt(fs, recorded, p)
  }

  /** Every registered hook calls the program the shared runtime file names. */
  predicate OneProgram(entries: seq<Entry>, l: Layout, recorded: map<string, string>) {
    forall v :: v in entries ==> l.runtime in recorded && v.command == l.command(v.agent, recorded[l.runtime])
  }

  /** The registry and the shared adapter files. */
  predicate AdaptersAgree(fs: Disk, l: Layout, book: Book) {
    && (At(fs, l.registry) == Absent <==> book.entries == [])
    && (book.entries != [] ==> AdaptersIntact(fs, l, book.resources) && OneProgram(book.entries, l, book.resources))
  }

  /** The registry is readable, its keys are unique, Grok has one entry at most, an installation is
      listed exactly when its hook is in place, and while anything is listed the adapter files are
      all in place, unmodified, and name the program of every registered hook. */
  ghost predicate Agrees(fs: Disk, l: Layout) {
    && WellFormed(fs) && ReadBook(fs, l.registry).Some?
    && UniqueKeys(ReadBook(fs, l.registry).value.entries) && OneGrok(ReadBook(fs, l.registry).value.entries)
    && BookAgrees(fs, ReadBook(fs, l.registry).value.entries, l)
    && AdaptersAgree(fs, l, ReadBook(fs, l.registry).value)
  }

  lemma SameHookSamePresence(fs: Disk, v: Entry, w: Entry)
    requires SameHook(v, w)
    ensures Present(fs, v) == Present(fs, w) && Gone(fs, v) == Gone(fs, w)
  {
    hide EntryOk, EntryAbsent;
  }

  lemma PresenceIsLocal(fs: Disk, after: Disk, v: Entry)
    requires At(after, v.path) == At(fs, v.path)
    ensures Present(after, v) == Present(fs, v) && Gone(after, v) == Gone(fs, v)
  {
    hide EntryOk, EntryAbsent;
  }

  lemma CarriedIffPresent(fs: Disk, l: Layout, k: Key, program: string)
    requires Agrees(fs, l)
    ensures Carried(ReadBook(fs, l.registry).value.entries, l, k, program) <==> Present(fs, Wanted(l, k, program))
  {
    hide Present, Gone;
    var entries := ReadBook(fs, l.registry).value.entries;
    var w := Wanted(l, k, program);
    if Carried(entries, l, k, program) {
      var v :| v in entries && KeyOf(v) == k && SameHook(v, w);
      assert InPlace(fs, l, v);
      SameHookSamePresence(fs, v, w);
    } else if Present(fs, w) {
      PresentIsNotGone(fs, w);
    }
  }

  /** Rewriting one entry's hook file brings in no hook of another command. */
  lemma OtherCommandsStayGone(fs: Disk, v: Entry, install: bool, after: Disk, w: Entry)
    requires HookEdit(fs, v, install).Some? && At(after, v.path) == Target(HookEdit(fs, v, install).value)
    requires v.agent != "pi" && v.agent != "opencode"
    requires w.agent == v.agent && w.path == v.path && w.command != v.command && Gone(fs, w)
    ensures Gone(after, w)
  {
    var doc := if At(fs, v.path) == Absent then map[] else At(fs, v.path).content.doc;
    var present := At(fs, v.path) != Absent;
    assert EntryAbsent(doc, OwnerOf(w)) by {
      hide HookGroup, HookEvents;
    }
    OtherOwnersStayAbsent(doc, OwnerOf(v), OwnerOf(w), install, true, present);
    hide Modify, EntryAbsent;
    assert install ==> Target(HookEdit(fs, v, install).value).File?;
  }

  // ---------------------------------------------------------------- the registry after a plan

  lemma KeysIdentify(entries: seq<Entry>, v: Entry, w: Entry)
    requires UniqueKeys(entries) && v in entries && w in entries && KeyOf(v) == KeyOf(w)
    ensures v == w
  {
    var i :| 0 <= i < |entries| && entries[i] == v;
    var j :| 0 <= j < |entries| && entries[j] == w;
    assert !(i < j) && !(j < i);
  }

  lemma RemovesIsTakes(r: Request, entries: seq<Entry>, i: nat)
    requires UniqueKeys(entries) && i < |entries|
    ensures Removes(r, entries[i], i == CurrentIndex(entries, KeyOf(r.candidate))) <==> Takes(r, entries[i])
  {
    var c := CurrentIndex(entries, KeyOf(r.candidate));
    if KeyOf(entries[i]) == KeyOf(r.candidate) {
      assert !(c < i) && !(i < c);
    }
  }

  lemma {:induction false} KeptMembers(r: Request, entries: seq<Entry>, n: nat)
    requires n <= |entries| && UniqueKeys(entries)
    ensures var kept := Kept(r, entries, CurrentIndex(entries, KeyOf(r.candidate)), n);
            && (forall v :: v in kept <==> v in entries[..n] && !Takes(r, v))
            && UniqueKeys(kept)
  {
    if n > 0 {
      KeptMembers(r, entries, n - 1);
      RemovesIsTakes(r, entries, n - 1);
      var c := CurrentIndex(entries, KeyOf(r.candidate));
      var earlier, last := Kept(r, entries, c, n - 1), entries[n - 1];
      hide Takes, Removes;
      assert entries[..n] == entries[..n - 1] + [last];
      forall v | v in earlier
        ensures KeyOf(v) != KeyOf(last)
      {
        var i :| 0 <= i < n - 1 && entries[i] == v;
      }
      hide CurrentIndex;
    }
  }

  lemma {:induction false} RemovalMade(fs: Disk, r: Request, entries: seq<Entry>, n: nat, i: nat)
    requires i < n <= |entries| && UniqueKeys(entries) && Takes(r, entries[i])
    requires Removals(fs, r, entries, CurrentIndex(entries, KeyOf(r.candidate)), n).Some?
    ensures var e := HookEdit(fs, entries[i], false);
            e.Some? && e.value in Removals(fs, r, entries, CurrentIndex(entries, KeyOf(r.candidate)), n).value
  {
    hide HookEdit;
    if i == n - 1 {
      RemovesIsTakes(r, entries, i);
    } else {
      RemovalMade(fs, r, entries, n - 1, i);
    }
  }

  /** Which entries the new registry lists. */
  lemma NextMembers(fs: Disk, l: Layout, r: Request) returns (origin: bool)
    requires Agrees(fs, l) && PlanOf(fs, l.registry, r).Ready?
    ensures var entries, next := ReadBook(fs, l.registry).value.entries, PlanOf(fs, l.registry, r).book.entries;
            && UniqueKeys(next)
            && (forall v :: v in next <==>
                  || (v in entries && !Takes(r, v))
                  || (r.install && !Listed(entries, KeyOf(r.candidate)) && v == r.candidate.(createdFile := origin)))
  {
    var entries := ReadBook(fs, l.registry).value.entries;
    var c := CurrentIndex(entries, KeyOf(r.candidate));
    KeptMembers(r, entries, |entries|);
    assert entries[..|entries|] == entries;
    var kept := Kept(r, entries, c, |entries|);
    origin := r.install && !HookEdit(fs, TargetEntry(entries, r), true).value.existed;
    assert Listed(entries, KeyOf(r.candidate)) <==> c < |entries|;
    hide Kept, Removals, HookEdit, Takes, GrokConflict, AdapterEdits, Recorded, CurrentIndex, RegistryEdit, BookAgrees;
    hide TargetEntry, AdaptersAgree;
    if r.install && c == |entries| {
      assert PlanOf(fs, l.registry, r).book.entries == kept + [r.candidate.(createdFile := origin)];
    } else {
      assert PlanOf(fs, l.registry, r).book.entries == kept;
    }
  }

  /** A candidate that is not registered yet is the only Grok installation afterwards. */
  lemma NextGrok(fs: Disk, l: Layout, r: Request)
    requires Agrees(fs, l) && PlanOf(fs, l.registry, r).Ready?
    ensures OneGrok(PlanOf(fs, l.registry, r).book.entries)
  {
    var entries, next := ReadBook(fs, l.registry).value.entries, PlanOf(fs, l.registry, r).book.entries;
    var origin := NextMembers(fs, l, r);
    assert !GrokConflict(entries, r);
    hide PlanOf, BookAgrees, AdaptersAgree;
    forall v, w | v in next && w in next && v.agent == "grok" && w.agent == "grok"
      ensures KeyOf(v) == KeyOf(w)
    {
    }
  }

  lemma PlanParts(fs: Disk, registry: string, r: Request)
    requires PlanOf(fs, registry, r).Ready?
    ensures var plan := PlanOf(fs, registry, r);
            var book := ReadBook(fs, registry);
            && book.Some?
            && plan.edits != [] && RegistryEdit(fs, registry, plan.book) == Some(plan.edits[|plan.edits| - 1])
            && (r.install ==> AdapterEdits(fs, r.resources, book.value, |r.resources|).Some?)
            && plan.book.resources
                 == if r.install then Recorded(book.value.resources, r.resources, |r.resources|)
                    else book.value.resources
  {
    hide HookEdit, Removals, Takes, AdapterEdits, TargetEntry, CurrentIndex, Kept, Recorded, RegistryEdit, GrokConflict;
  }

  lemma AdapterInPlan(fs: Disk, registry: string, r: Request, e: Edit)
    requires PlanOf(fs, registry, r).Ready? && r.install
    requires e in AdapterEdits(fs, r.resources, ReadBook(fs, registry).value, |r.resources|).value
    ensures e in PlanOf(fs, registry, r).edits
  {
    hide HookEdit, Removals, Takes, AdapterEdits, TargetEntry, CurrentIndex, Kept, Recorded, RegistryEdit, GrokConflict;
  }

  // ---------------------------------------------------------------- the disk after a plan

  ghost predicate Committed(fs: Disk, l: Layout, r: Request, after: Disk) {
    && Separate(l) && Agrees(fs, l) && Fits(l, r)
    && PlanOf(fs, l.registry, r).Ready? && ApplyAll(fs, PlanOf(fs, l.registry, r).edits) == Some(after)
  }

  lemma AgreesReads(fs: Disk, l: Layout)
    requires Agrees(fs, l)
    ensures ReadBook(fs, l.registry).Some?
  {
  }

  lemma CommittedParts(fs: Disk, l: Layout, r: Request, after: Disk)
    requires Committed(fs, l, r, after)
    ensures WellPlaced(l) && Agrees(fs, l) && Fits(l, r) && ReadBook(fs, l.registry).Some?
    ensures PlanOf(fs, l.registry, r).Ready?
  {
    hide PlanOf, WellPlaced, OwnFiles, ApplyAll, Fits;
  }

  lemma RegisteredPath(fs: Disk, l: Layout, v: Entry)
    requires WellPlaced(l) && Agrees(fs, l) && v in ReadBook(fs, l.registry).value.entries
    ensures Registered(v, l) && WellPlacedAt(l, KeyOf(v)) && Present(fs, v) && (v.agent == "pi" ==> v.managed != "")
  {
    assert InPlace(fs, l, v);
    hide Present, Gone;
    assert WellPlacedAt(l, KeyOf(v));
  }

  lemma TargetPath(fs: Disk, l: Layout, r: Request)
    requires WellPlaced(l) && Agrees(fs, l) && Fits(l, r) && r.install
    ensures var v := TargetEntry(ReadBook(fs, l.registry).value.entries, r);
            && Registered(v, l) && KeyOf(v) == KeyOf(r.candidate) && (v.agent == "pi" ==> v.managed != "")
            && WellPlacedAt(l, KeyOf(v))
  {
    var entries := ReadBook(fs, l.registry).value.entries;
    var v := TargetEntry(entries, r);
    assert WellPlacedAt(l, KeyOf(r.candidate));
    hide Present, Gone;
    if v in entries {
      RegisteredPath(fs, l, v);
    }
  }

  /** Where a planned edit comes from when it goes to an adapter file. */
  lemma AdapterPath(fs: Disk, l: Layout, r: Request, e: Edit)
    returns (i: nat)
    requires WellPlaced(l) && Agrees(fs, l) && Fits(l, r) && PlanOf(fs, l.registry, r).Ready?
    requires e in PlanOf(fs, l.registry, r).edits && e.path in l.adapters
    ensures Originates(fs, l.registry, r, ReadBook(fs, l.registry).value, e, Adapter(i))
  {
    AgreesReads(fs, l);
    assert l.registry !in l.adapters;
    hide PlanOf, Takes, TargetEntry, HookEdit, AdapterEdit, Agrees, Planned, Fits, WellPlaced;
    var book := ReadBook(fs, l.registry).value;
    var o := PlanOrigin(fs, l.registry, r, e);
    i := 0;
    match o
    case Removal(v) =>
      HookEditIsPlanned(fs, v, false);
      RegisteredPath(fs, l, v);
    case Hook =>
      HookEditIsPlanned(fs, TargetEntry(book.entries, r), true);
      TargetPath(fs, l, r);
    case Adapter(j) => i := j;
    case Record =>
  }

  /** Which key's hook file a planned edit of a hook file belongs to. */
  lemma OriginPath(fs: Disk, l: Layout, r: Request, e: Edit, k: Key)
    returns (o: Origin)
    requires Separate(l) && Agrees(fs, l) && Fits(l, r) && PlanOf(fs, l.registry, r).Ready?
    requires e in PlanOf(fs, l.registry, r).edits && e.path == l.place(k)
    ensures var entries := ReadBook(fs, l.registry).value.entries;
            || (o == Hook && r.install && k == KeyOf(r.candidate)
                && HookEdit(fs, TargetEntry(entries, r), true) == Some(e))
            || (o.Removal? && o.v in entries && Takes(r, o.v) && k == KeyOf(o.v) && HookEdit(fs, o.v, false) == Some(e))
  {
    var book := ReadBook(fs, l.registry).value;
    o := PlanOrigin(fs, l.registry, r, e);
    assert WellPlacedAt(l, k);
    hide PlanOf, Takes, TargetEntry, HookEdit, AdapterEdit, Present, Gone, Planned;
    match o
    case Removal(v) =>
      HookEditIsPlanned(fs, v, false);
      RegisteredPath(fs, l, v);
    case Hook =>
      HookEditIsPlanned(fs, TargetEntry(book.entries, r), true);
      TargetPath(fs, l, r);
    case Adapter(i) =>
      AdapterEditIsPlanned(fs, r.resources[i].0, r.resources[i].1, book);
    case Record =>
  }

  /** Installing never takes away the installation it is for. */
  lemma CandidateStays(r: Request, v: Entry)
    requires r.install && Takes(r, v)
    ensures KeyOf(v) != KeyOf(r.candidate)
  {
  }

  lemma RemovalInPlan(fs: Disk, registry: string, r: Request, v: Entry)
    requires PlanOf(fs, registry, r).Ready? && v in ReadBook(fs, registry).value.entries && Takes(r, v)
    requires UniqueKeys(ReadBook(fs, registry).value.entries)
    ensures HookEdit(fs, v, false).Some? && HookEdit(fs, v, false).value in PlanOf(fs, registry, r).edits
  {
    hide HookEdit, Removals, Takes, AdapterEdits, TargetEntry, CurrentIndex, Kept, Recorded, RegistryEdit, GrokConflict;
    var entries := ReadBook(fs, registry).value.entries;
    var i :| 0 <= i < |entries| && entries[i] == v;
    RemovalMade(fs, r, entries, |entries|, i);
  }

  lemma HookInPlan(fs: Disk, registry: string, r: Request)
    requires PlanOf(fs, registry, r).Ready? && r.install
    ensures var e := HookEdit(fs, TargetEntry(ReadBook(fs, registry).value.entries, r), true);
            e.Some? && e.value in PlanOf(fs, registry, r).edits
  {
    hide HookEdit, Removals, Takes, AdapterEdits, TargetEntry, CurrentIndex, Kept, Recorded, RegistryEdit, GrokConflict;
  }

  /** What the plan leaves at the path of an entry it takes away. */
  lemma RemovalWins(fs: Disk, l: Layout, r: Request, after: Disk, v: Entry)
    requires Committed(fs, l, r, after) && v in ReadBook(fs, l.registry).value.entries && Takes(r, v)
    ensures HookEdit(fs, v, false).Some? && At(after, v.path) == Target(HookEdit(fs, v, false).value)
  {
    hide PlanOf, HookEdit, Takes, BookAgrees, AdaptersAgree, OneGrok, Target, ApplyAll, Fits;
    var entries := ReadBook(fs, l.registry).value.entries;
    RegisteredPath(fs, l, v);
    RemovalInPlan(fs, l.registry, r, v);
    var e := HookEdit(fs, v, false).value;
    HookEditIsPlanned(fs, v, false);
    forall x | x in PlanOf(fs, l.registry, r).edits && x.path == e.path
      ensures x == e
    {
      var o := OriginPath(fs, l, r, x, KeyOf(v));
      if o == Hook {
        CandidateStays(r, v);
      } else {
        KeysIdentify(entries, v, o.v);
      }
    }
    AgreedEditWins(fs, PlanOf(fs, l.registry, r).edits, e);
  }

  lemma RemovedIsGone(fs: Disk, l: Layout, r: Request, after: Disk, v: Entry)
    requires Committed(fs, l, r, after) && v in ReadBook(fs, l.registry).value.entries && Takes(r, v)
    ensures Gone(after, v)
  {
    hide PlanOf, HookEdit, Takes, BookAgrees, AdaptersAgree, OneGrok, Target, ApplyAll, Fits;
    RemovalWins(fs, l, r, after, v);
    RegisteredPath(fs, l, v);
    HookEditEffect(fs, v, false, after);
  }

  /** What the plan leaves at the path of the entry it installs. */
  lemma HookWins(fs: Disk, l: Layout, r: Request, after: Disk)
    requires Committed(fs, l, r, after) && r.install
    ensures var v := TargetEntry(ReadBook(fs, l.registry).value.entries, r);
            HookEdit(fs, v, true).Some? && At(after, v.path) == Target(HookEdit(fs, v, true).value)
  {
    hide PlanOf, HookEdit, Takes, BookAgrees, AdaptersAgree, OneGrok, Target, ApplyAll, Fits, TargetEntry;
    var v := TargetEntry(ReadBook(fs, l.registry).value.entries, r);
    TargetPath(fs, l, r);
    HookInPlan(fs, l.registry, r);
    var e := HookEdit(fs, v, true).value;
    HookEditIsPlanned(fs, v, true);
    forall x | x in PlanOf(fs, l.registry, r).edits && x.path == e.path
      ensures x == e
    {
      var o := OriginPath(fs, l, r, x, KeyOf(v));
      if o.Removal? {
        CandidateStays(r, o.v);
      }
    }
    AgreedEditWins(fs, PlanOf(fs, l.registry, r).edits, e);
  }

  lemma TargetIsPresent(fs: Disk, l: Layout, r: Request, after: Disk)
    requires Committed(fs, l, r, after) && r.install
    ensures Present(after, TargetEntry(ReadBook(fs, l.registry).value.entries, r))
  {
    hide PlanOf, HookEdit, Takes, BookAgrees, AdaptersAgree, OneGrok, Target, ApplyAll, Fits, TargetEntry;
    HookWins(fs, l, r, after);
    TargetPath(fs, l, r);
    HookEditEffect(fs, TargetEntry(ReadBook(fs, l.registry).value.entries, r), true, after);
  }

  /** Hook files of installations that are neither installed nor taken away are not touched. */
  lemma OtherHooksStay(fs: Disk, l: Layout, r: Request, after: Disk, k: Key)
    requires Committed(fs, l, r, after)
    requires r.install ==> k != KeyOf(r.candidate)
    requires forall v :: v in ReadBook(fs, l.registry).value.entries && KeyOf(v) == k ==> !Takes(r, v)
    ensures At(after, l.place(k)) == At(fs, l.place(k))
  {
    var edits := PlanOf(fs, l.registry, r).edits;
    hide PlanOf, HookEdit, Takes, BookAgrees, AdaptersAgree, OneGrok, Target, ApplyAll, Fits, TargetEntry;
    forall i | 0 <= i < |edits|
      ensures edits[i].path != l.place(k)
    {
      if edits[i].path == l.place(k) {
        var o := OriginPath(fs, l, r, edits[i], k);
        hide *;
        assert false;
      }
    }
    UnnamedPathStays(fs, edits, l.place(k));
  }

  lemma RegistryIsWritten(fs: Disk, l: Layout, r: Request, after: Disk)
    requires Committed(fs, l, r, after)
    ensures var book := PlanOf(fs, l.registry, r).book;
            && ReadBook(after, l.registry).Some? && ReadBook(after, l.registry).value.entries == book.entries
            && (book.entries != [] ==> ReadBook(after, l.registry).value == book)
            && (At(after, l.registry) == Absent <==> book.entries == [])
  {
    hide PlanOf, Agrees, Separate, Fits, ApplyAll;
    var plan := PlanOf(fs, l.registry, r);
    PlanParts(fs, l.registry, r);
    LastEditWins(fs, plan.edits, |plan.edits| - 1);
  }

  /** A recorded resource: with distinct paths, the text under each path is the one shipped. */
  lemma {:induction false} RecordedAt(base: map<string, string>, resources: seq<(string, string)>, n: nat)
    requires n <= |resources|
    requires forall i, j :: 0 <= i < j < |resources| ==> resources[i].0 != resources[j].0
    ensures var all := Recorded(base, resources, n);
            && (forall i :: 0 <= i < n ==> resources[i].0 in all && all[resources[i].0] == resources[i].1)
            && (forall p :: p in all ==> p in base || exists i :: 0 <= i < n && resources[i].0 == p)
  {
    if n > 0 {
      RecordedAt(base, resources, n - 1);
    }
  }

  /** The resource an adapter file is written from. */
  lemma ShippedAt(l: Layout, r: Request, base: map<string, string>, p: string) returns (i: nat)
    requires r.install && Fits(l, r) && p in l.adapters
    ensures i < |r.resources| && r.resources[i].0 == p && r.resources[i].1 == Shipped(r)[p]
    ensures var all := Recorded(base, r.resources, |r.resources|);
            p in all && all[p] == r.resources[i].1
  {
    RecordedAt(map[], r.resources, |r.resources|);
    RecordedAt(base, r.resources, |r.resources|);
    hide Recorded, Registered;
    i :| 0 <= i < |r.resources| && r.resources[i].0 == p;
  }

  lemma AdaptersAreWritten(fs: Disk, l: Layout, r: Request, after: Disk)
    requires Committed(fs, l, r, after) && r.install
    ensures AdaptersIntact(after, l, PlanOf(fs, l.registry, r).book.resources)
  {
    hide PlanOf, HookEdit, AdapterEdit, AdapterEdits, Agrees, Target, ApplyAll, Fits, Recorded, Separate;
    hide RegistryEdit;
    CommittedParts(fs, l, r, after);
    var plan, book := PlanOf(fs, l.registry, r), ReadBook(fs, l.registry).value;
    PlanParts(fs, l.registry, r);
    forall p | p in l.adapters
      ensures IntactAt(after, plan.book.resources, p)
    {
      var i := ShippedAt(l, r, book.resources, p);
      AdapterWins(fs, l, r, after, i);
    }
  }

  /** What an install leaves at the path of one of its resources. */
  lemma AdapterWins(fs: Disk, l: Layout, r: Request, after: Disk, i: nat)
    requires Committed(fs, l, r, after) && r.install && i < |r.resources|
    ensures At(after, r.resources[i].0).File? && At(after, r.resources[i].0).content == Bytes(r.resources[i].1)
  {
    hide PlanOf, HookEdit, AdapterEdit, AdapterEdits, Agrees, Target, ApplyAll, Recorded, Separate, Planned;
    hide RegistryEdit, Registered, Shipped, WellPlaced;
    CommittedParts(fs, l, r, after);
    var plan, book := PlanOf(fs, l.registry, r), ReadBook(fs, l.registry).value;
    PlanParts(fs, l.registry, r);
    AdapterEditAt(fs, r.resources, book, |r.resources|);
    var p, edits := r.resources[i].0, AdapterEdits(fs, r.resources, book, |r.resources|).value;
    var e := edits[|r.resources| - 1 - i];
    AdapterInPlan(fs, l.registry, r, e);
    AdapterEditIsPlanned(fs, p, r.resources[i].1, book);
    forall x | x in plan.edits && x.path == e.path
      ensures x == e
    {
      var j := AdapterPath(fs, l, r, x);
      AdapterEditIsPlanned(fs, r.resources[j].0, r.resources[j].1, book);
      assert r.resources[i].0 == r.resources[j].0;
    }
    AgreedEditWins(fs, plan.edits, e);
  }

  lemma AdaptersStay(fs: Disk, l: Layout, r: Request, after: Disk, p: string)
    requires Committed(fs, l, r, after) && !r.install && p in l.adapters
    ensures At(after, p) == At(fs, p)
  {
    hide PlanOf, HookEdit, AdapterEdit, AdapterEdits, Agrees, Target, ApplyAll, Fits, Recorded, WellPlaced, OwnFiles;
    var edits := PlanOf(fs, l.registry, r).edits;
    forall i | 0 <= i < |edits|
      ensures edits[i].path != p
    {
      if edits[i].path == p {
        var _ := AdapterPath(fs, l, r, edits[i]);
        hide *;
        assert false;
      }
    }
    UnnamedPathStays(fs, edits, p);
  }

  /** The refusals of an install keep the program while anything is registered. */
  lemma RuntimeStays(fs: Disk, l: Layout, r: Request)
    requires WellPlaced(l) && Agrees(fs, l) && Fits(l, r) && r.install && PlanOf(fs, l.registry, r).Ready?
    requires ReadBook(fs, l.registry).value.entries != []
    ensures l.runtime in Shipped(r) && Shipped(r)[l.runtime] == ReadBook(fs, l.registry).value.resources[l.runtime]
  {
    hide PlanOf, BookAgrees, AdapterEdits, Recorded, OneProgram, Registered;
    var book := ReadBook(fs, l.registry).value;
    PlanParts(fs, l.registry, r);
    AdapterEditAt(fs, r.resources, book, |r.resources|);
    var i := ShippedAt(l, r, book.resources, l.runtime);
    assert IntactAt(fs, book.resources, l.runtime);
    assert AdapterEdit(fs, l.runtime, r.resources[i].1, book).Some?;
  }

  /** While anything is registered, an install by another program is refused and changes nothing. */
  lemma OtherProgramIsRefused(fs: Disk, l: Layout, r: Request, failing: set<nat>)
    requires WellPlaced(l) && Agrees(fs, l) && Fits(l, r) && r.install
    requires ReadBook(fs, l.registry).value.entries != []
    requires Shipped(r)[l.runtime] != ReadBook(fs, l.registry).value.resources[l.runtime]
    ensures PlanOf(fs, l.registry, r) == Refused && Operated(fs, l.registry, l.adapters, r, failing) == fs
  {
    assert !PlanOf(fs, l.registry, r).Idle? by {
      hide Agrees, WellPlaced, Fits, Removals, HookEdit, AdapterEdits;
    }
    hide PlanOf, Agrees, WellPlaced, Fits, Shipped;
    if PlanOf(fs, l.registry, r).Ready? {
      RuntimeStays(fs, l, r);
    }
  }

  lemma RuntimeAfter(fs: Disk, l: Layout, r: Request)
    requires WellPlaced(l) && Agrees(fs, l) && Fits(l, r) && r.install && PlanOf(fs, l.registry, r).Ready?
    ensures var next := PlanOf(fs, l.registry, r).book.resources;
            l.runtime in next && l.runtime in Shipped(r) && next[l.runtime] == Shipped(r)[l.runtime]
  {
    hide PlanOf, Agrees, AdapterEdits, Recorded, Registered;
    PlanParts(fs, l.registry, r);
    var i := ShippedAt(l, r, ReadBook(fs, l.registry).value.resources, l.runtime);
  }

  lemma NextProgram(fs: Disk, l: Layout, r: Request)
    requires WellPlaced(l) && Agrees(fs, l) && Fits(l, r) && PlanOf(fs, l.registry, r).Ready?
    ensures OneProgram(PlanOf(fs, l.registry, r).book.entries, l, PlanOf(fs, l.registry, r).book.resources)
  {
    var book, next := ReadBook(fs, l.registry).value, PlanOf(fs, l.registry, r).book;
    var origin := NextMembers(fs, l, r);
    if r.install {
      RuntimeAfter(fs, l, r);
      if book.entries != [] {
        RuntimeStays(fs, l, r);
      }
    }
    PlanParts(fs, l.registry, r);
    hide PlanOf, BookAgrees, AdaptersIntact, AdapterEdits, Recorded, Shipped, Takes, WellPlaced, RegistryEdit,
         UniqueKeys;
    hide OneGrok, Registered;
    forall v | v in next.entries
      ensures l.runtime in next.resources && v.command == l.command(v.agent, next.resources[l.runtime])
    {
      if v in book.entries {
        assert OneProgram(book.entries, l, book.resources);
      }
    }
  }

  lemma ListedAreInPlace(fs: Disk, l: Layout, r: Request, after: Disk, v: Entry)
    requires Committed(fs, l, r, after) && v in PlanOf(fs, l.registry, r).book.entries
    ensures InPlace(after, l, v)
  {
    var entries := ReadBook(fs, l.registry).value.entries;
    var origin := NextMembers(fs, l, r);
    if r.install {
      TargetPath(fs, l, r);
      TargetIsPresent(fs, l, r, after);
    }
    hide PlanOf, Present, Gone, Takes, ApplyAll, AdaptersAgree, OneGrok;
    if v in entries && !Takes(r, v) {
      RegisteredPath(fs, l, v);
      if r.install && KeyOf(v) == KeyOf(r.candidate) {
        KeysIdentify(entries, v, TargetEntry(entries, r));
      } else {
        forall w | w in entries && KeyOf(w) == KeyOf(v)
          ensures !Takes(r, w)
        {
          KeysIdentify(entries, v, w);
        }
        OtherHooksStay(fs, l, r, after, KeyOf(v));
        PresenceIsLocal(fs, after, v);
      }
    } else {
      assert TargetEntry(entries, r) == r.candidate;
      SameHookSamePresence(after, r.candidate, v);
    }
  }

  /** What was asked for is what gets registered. */
  lemma CandidateIsListed(fs: Disk, l: Layout, r: Request)
    requires Agrees(fs, l) && PlanOf(fs, l.registry, r).Ready?
    ensures Listed(PlanOf(fs, l.registry, r).book.entries, KeyOf(r.candidate)) <==> r.install
    ensures r.install ==>
              exists v :: v in PlanOf(fs, l.registry, r).book.entries && KeyOf(v) == KeyOf(r.candidate)
                          && SameHook(v, TargetEntry(ReadBook(fs, l.registry).value.entries, r))
  {
    var entries, next := ReadBook(fs, l.registry).value.entries, PlanOf(fs, l.registry, r).book.entries;
    var origin := NextMembers(fs, l, r);
    hide PlanOf, BookAgrees, AdaptersAgree;
    if r.install {
      var w := TargetEntry(entries, r);
      if w in entries {
        assert !Takes(r, w);
        assert w in next;
        assert SameHook(w, w);
      } else {
        var u := r.candidate.(createdFile := origin);
        assert u in next && SameHook(u, w);
      }
    }
  }

  /** A file whose registered or requested entry was rewritten holds no hook of another program. */
  lemma RewrittenIsGone(fs: Disk, l: Layout, after: Disk, v: Entry, install: bool, program: string)
    requires Registered(v, l)
    requires HookEdit(fs, v, install).Some? && At(after, v.path) == Target(HookEdit(fs, v, install).value)
    requires !SameHook(v, Wanted(l, KeyOf(v), program)) && Gone(fs, Wanted(l, KeyOf(v), program))
    ensures Gone(after, Wanted(l, KeyOf(v), program))
  {
    hide HookEdit, Target, Gone;
    OtherCommandsStayGone(fs, v, install, after, Wanted(l, KeyOf(v), program));
  }

  /** The only registered entry of a key decides what that key carries. */
  lemma CarriedBy(entries: seq<Entry>, l: Layout, v: Entry, program: string)
    requires UniqueKeys(entries) && v in entries
    ensures Carried(entries, l, KeyOf(v), program) <==> SameHook(v, Wanted(l, KeyOf(v), program))
  {
    hide SameHook;
    if Carried(entries, l, KeyOf(v), program) {
      var w :| w in entries && KeyOf(w) == KeyOf(v) && SameHook(w, Wanted(l, KeyOf(v), program));
      KeysIdentify(entries, v, w);
    }
  }

  lemma UncarriedIsGone(fs: Disk, l: Layout, k: Key, program: string)
    requires Agrees(fs, l) && !Carried(ReadBook(fs, l.registry).value.entries, l, k, program)
    ensures Gone(fs, Wanted(l, k, program))
  {
    hide Gone, Carried;
  }

  /** The case of a key with an entry that is taken away. */
  lemma TakenLeavesNothing(fs: Disk, l: Layout, r: Request, after: Disk, v: Entry, program: string)
    requires Committed(fs, l, r, after) && v in ReadBook(fs, l.registry).value.entries && Takes(r, v)
    ensures Gone(after, Wanted(l, KeyOf(v), program))
  {
    var entries := ReadBook(fs, l.registry).value.entries;
    var w := Wanted(l, KeyOf(v), program);
    RegisteredPath(fs, l, v);
    CarriedBy(entries, l, v, program);
    hide PlanOf, Gone, Takes, ApplyAll, HookEdit, SameHook, Carried, BookAgrees, AdaptersAgree;
    if SameHook(v, w) {
      RemovedIsGone(fs, l, r, after, v);
      SameHookSamePresence(after, v, w);
    } else {
      RemovalWins(fs, l, r, after, v);
      UncarriedIsGone(fs, l, KeyOf(v), program);
      RewrittenIsGone(fs, l, after, v, false, program);
    }
  }

  /** The case of the key that is installed. */
  lemma InstalledLeavesOne(fs: Disk, l: Layout, r: Request, after: Disk, program: string)
    requires Committed(fs, l, r, after) && r.install
    requires !SameHook(TargetEntry(ReadBook(fs, l.registry).value.entries, r), Wanted(l, KeyOf(r.candidate), program))
    ensures Gone(after, Wanted(l, KeyOf(r.candidate), program))
  {
    var entries := ReadBook(fs, l.registry).value.entries;
    var v := TargetEntry(entries, r);
    TargetPath(fs, l, r);
    HookWins(fs, l, r, after);
    assert !Carried(entries, l, KeyOf(v), program) by {
      if v in entries {
        CarriedBy(entries, l, v, program);
      } else {
        assert !Listed(entries, KeyOf(v));
      }
    }
    hide PlanOf, Gone, Takes, ApplyAll, HookEdit, SameHook, Carried, BookAgrees, AdaptersAgree, TargetEntry;
    UncarriedIsGone(fs, l, KeyOf(v), program);
    RewrittenIsGone(fs, l, after, v, true, program);
  }

  lemma UncarriedAreGone(fs: Disk, l: Layout, r: Request, after: Disk, k: Key, program: string)
    requires Committed(fs, l, r, after) && !Carried(PlanOf(fs, l.registry, r).book.entries, l, k, program)
    ensures Gone(after, Wanted(l, k, program))
  {
    var entries, next := ReadBook(fs, l.registry).value.entries, PlanOf(fs, l.registry, r).book.entries;
    var w := Wanted(l, k, program);
    var _ := NextMembers(fs, l, r);
    hide PlanOf, Present, Gone, Takes, ApplyAll, AdaptersAgree, BookAgrees, SameHook, TargetEntry, Separate, Fits;
    if v :| v in entries && KeyOf(v) == k && Takes(r, v) {
      TakenLeavesNothing(fs, l, r, after, v, program);
    } else if r.install && k == KeyOf(r.candidate) {
      CandidateIsListed(fs, l, r);
      var u :| u in next && KeyOf(u) == k && SameHook(u, TargetEntry(entries, r));
      if SameHook(TargetEntry(entries, r), w) {
        SameHookChains(u, TargetEntry(entries, r), w);
      }
      InstalledLeavesOne(fs, l, r, after, program);
    } else {
      assert !Carried(entries, l, k, program);
      UncarriedIsGone(fs, l, k, program);
      OtherHooksStay(fs, l, r, after, k);
      PresenceIsLocal(fs, after, w);
    }
  }

  lemma SameHookChains(u: Entry, v: Entry, w: Entry)
    requires SameHook(u, v) && SameHook(v, w)
    ensures SameHook(u, w)
  {
  }

  // ---------------------------------------------------------------- the whole operation

  lemma {:induction false} CleanupIsLocal(fs: Disk, recorded: map<string, string>, adapters: seq<string>, n: nat,
                                          p: string)
    requires n <= |adapters| && WellFormed(fs)
    ensures WellFormed(Cleanup(fs, recorded, adapters, n))
    ensures p !in adapters ==> At(Cleanup(fs, recorded, adapters, n), p) == At(fs, p)
  {
    if n > 0 {
      CleanupIsLocal(fs, recorded, adapters, n - 1, p);
    }
  }

  lemma {:induction false} CleanupRemoves(fs: Disk, recorded: map<string, string>, adapters: seq<string>, n: nat)
    requires n <= |adapters| && forall p :: p in adapters ==> At(fs, p) == Absent || IntactAt(fs, recorded, p)
    ensures var end := Cleanup(fs, recorded, adapters, n);
            && (forall p :: p in adapters[..n] ==> At(end, p) == Absent)
            && (forall p :: p in adapters ==> At(end, p) == Absent || IntactAt(end, recorded, p))
  {
    if n > 0 {
      CleanupRemoves(fs, recorded, adapters, n - 1);
      assert adapters[..n] == adapters[..n - 1] + [adapters[n - 1]];
      assert adapters[n - 1] in adapters;
    }
  }

  /** A committed operation, before and after the clean-up of adapter files. */
  lemma OperatedParts(fs: Disk, l: Layout, r: Request, failing: set<nat>)
    returns (after: Disk)
    requires Separate(l) && Agrees(fs, l) && Fits(l, r)
    requires Operated(fs, l.registry, l.adapters, r, failing) != fs
    ensures Committed(fs, l, r, after) && WellFormed(after)
    ensures var end := Operated(fs, l.registry, l.adapters, r, failing);
            var book := PlanOf(fs, l.registry, r).book;
            && WellFormed(end)
            && end == (if book.entries == [] then Cleanup(after, book.resources, l.adapters, |l.adapters|) else after)
            && (forall p :: p !in l.adapters ==> At(end, p) == At(after, p))
  {
    var plan := PlanOf(fs, l.registry, r);
    hide PlanOf, BookAgrees, ApplyAll, WellPlaced, OwnFiles, Fits, Cleanup, AdaptersAgree;
    after := ApplyAll(fs, plan.edits).value;
    ApplyAllWellFormed(fs, plan.edits);
    var end := Operated(fs, l.registry, l.adapters, r, failing);
    forall p
      ensures WellFormed(end) && (p !in l.adapters ==> At(end, p) == At(after, p))
    {
      CleanupIsLocal(after, plan.book.resources, l.adapters, |l.adapters|, p);
    }
  }

  lemma BookStillAgrees(fs: Disk, l: Layout, r: Request, after: Disk, end: Disk)
    requires Committed(fs, l, r, after) && forall p :: p !in l.adapters ==> At(end, p) == At(after, p)
    ensures BookAgrees(end, PlanOf(fs, l.registry, r).book.entries, l)
  {
    hide *;
    CommittedParts(fs, l, r, after);
    var next := PlanOf(fs, l.registry, r).book.entries;
    forall v | v in next
      ensures InPlace(end, l, v)
    {
      ListedAreInPlace(fs, l, r, after, v);
      InPlaceOutside(fs, l, r, after, end, v);
    }
    forall k, b | !Carried(next, l, k, b)
      ensures Gone(end, Wanted(l, k, b))
    {
      UncarriedAreGone(fs, l, r, after, k, b);
      GoneOutside(fs, l, r, after, end, k, b);
    }
    BookAgreesFrom(end, next, l);
  }

  lemma BookAgreesFrom(fs: Disk, entries: seq<Entry>, l: Layout)
    requires forall v :: v in entries ==> InPlace(fs, l, v)
    requires forall k, b :: !Carried(entries, l, k, b) ==> Gone(fs, Wanted(l, k, b))
    ensures BookAgrees(fs, entries, l)
  {
    hide InPlace, Carried, Gone;
  }

  lemma InPlaceOutside(fs: Disk, l: Layout, r: Request, after: Disk, end: Disk, v: Entry)
    requires Committed(fs, l, r, after) && InPlace(after, l, v)
    requires forall p :: p !in l.adapters ==> At(end, p) == At(after, p)
    ensures InPlace(end, l, v)
  {
    hide Present, Gone, PlanOf, Agrees, Fits, ApplyAll;
    assert WellPlacedAt(l, KeyOf(v));
    PresenceIsLocal(after, end, v);
  }

  lemma GoneOutside(fs: Disk, l: Layout, r: Request, after: Disk, end: Disk, k: Key, b: string)
    requires Committed(fs, l, r, after) && Gone(after, Wanted(l, k, b))
    requires forall p :: p !in l.adapters ==> At(end, p) == At(after, p)
    ensures Gone(end, Wanted(l, k, b))
  {
    hide Present, Gone, PlanOf, Agrees, Fits, ApplyAll;
    assert WellPlacedAt(l, k);
    PresenceIsLocal(after, end, Wanted(l, k, b));
  }

  lemma NextAdapters(fs: Disk, l: Layout, r: Request, after: Disk)
    requires Committed(fs, l, r, after)
    ensures var next := PlanOf(fs, l.registry, r).book;
            && OneProgram(next.entries, l, next.resources)
            && (r.install || ReadBook(fs, l.registry).value.entries != [] ==> AdaptersIntact(after, l, next.resources))
  {
    hide PlanOf, BookAgrees, ApplyAll, WellPlaced, OwnFiles, Fits, OneProgram, UniqueKeys, OneGrok;
    NextProgram(fs, l, r);
    PlanParts(fs, l.registry, r);
    if r.install {
      AdaptersAreWritten(fs, l, r, after);
    } else {
      forall p | p in l.adapters && ReadBook(fs, l.registry).value.entries != []
        ensures IntactAt(after, PlanOf(fs, l.registry, r).book.resources, p)
      {
        AdaptersStay(fs, l, r, after, p);
        assert IntactAt(fs, ReadBook(fs, l.registry).value.resources, p);
      }
    }
  }

  /** Only a registered installation can be uninstalled. */
  lemma UninstallNeedsEntry(fs: Disk, registry: string, r: Request)
    requires PlanOf(fs, registry, r).Ready? && !r.install
    ensures ReadBook(fs, registry).value.entries != []
  {
    hide HookEdit, Removals, AdapterEdits, Kept, Recorded, RegistryEdit, GrokConflict;
  }

  /** The main step: a client operation, whether it commits, is refused or rolls back, keeps the
      registry, the hooks and the adapter files on disk in agreement. */
  lemma OperationKeepsAgreement(fs: Disk, l: Layout, r: Request, failing: set<nat>)
    requires Separate(l) && Agrees(fs, l) && Fits(l, r)
    ensures Agrees(Operated(fs, l.registry, l.adapters, r, failing), l)
  {
    var end := Operated(fs, l.registry, l.adapters, r, failing);
    if end != fs {
      var after := OperatedParts(fs, l, r, failing);
      BookStillAgrees(fs, l, r, after, end);
      RegistryIsWritten(fs, l, r, after);
      NextGrok(fs, l, r);
      var _ := NextMembers(fs, l, r);
      NextAdapters(fs, l, r, after);
      if !r.install {
        UninstallNeedsEntry(fs, l.registry, r);
      }
      assert At(end, l.registry) == At(after, l.registry);
      hide PlanOf, ApplyAll, Operated, BookAgrees, Fits, OneProgram, AdaptersIntact, Cleanup, OneGrok, UniqueKeys,
           Takes;
      hide WellPlaced, OwnFiles;
    }
  }

  /** Adapter files are there only while something is registered. */
  predicate Tidy(fs: Disk, l: Layout) {
    At(fs, l.registry) == Absent ==> forall p :: p in l.adapters ==> At(fs, p) == Absent
  }

  /** The last uninstall takes the adapter files with it, so another program can come in. */
  lemma OperationKeepsTidy(fs: Disk, l: Layout, r: Request, failing: set<nat>)
    requires Separate(l) && Agrees(fs, l) && Fits(l, r) && Tidy(fs, l)
    ensures Tidy(Operated(fs, l.registry, l.adapters, r, failing), l)
  {
    var end := Operated(fs, l.registry, l.adapters, r, failing);
    if end != fs && At(end, l.registry) == Absent {
      var after := OperatedParts(fs, l, r, failing);
      RegistryIsWritten(fs, l, r, after);
      NextAdapters(fs, l, r, after);
      if !r.install {
        UninstallNeedsEntry(fs, l.registry, r);
      }
      var book := PlanOf(fs, l.registry, r).book;
      assert At(end, l.registry) == At(after, l.registry);
      hide PlanOf, ApplyAll, Operated, Agrees, Fits, Cleanup, WellPlaced, OwnFiles, OneProgram;
      CleanupRemoves(after, book.resources, l.adapters, |l.adapters|);
      assert l.adapters[..|l.adapters|] == l.adapters;
    }
  }

  // ---------------------------------------------------------------- runs

  datatype Operation = Operation(request: Request, failing: set<nat>)

  function RunOperations(fs: Disk, l: Layout, ops: seq<Operation>): Disk
    decreases |ops|
  {
    if ops == [] then fs
    else RunOperations(Operated(fs, l.registry, l.adapters, ops[0].request, ops[0].failing), l, ops[1..])
  }

  predicate AllFit(l: Layout, ops: seq<Operation>) {
    forall o :: o in ops ==> Fits(l, o.request)
  }

  /** Nothing is registered and no hook of any program of the client is in place. */
  ghost predicate Untouched(fs: Disk, l: Layout) {
    WellFormed(fs) && At(fs, l.registry) == Absent && forall k, b :: Gone(fs, Wanted(l, k, b))
  }

  lemma UntouchedAgrees(fs: Disk, l: Layout)
    requires Untouched(fs, l)
    ensures Agrees(fs, l)
  {
    hide Gone;
  }

  /** From an untouched directory, whatever is installed, switched and uninstalled by whatever
      programs, succeeding or failing at any edit: the registry lists exactly the hooks that are in
      place, and no adapter file is left once nothing is registered. */
  lemma {:induction false} EveryRunAgrees(fs: Disk, l: Layout, ops: seq<Operation>)
    requires Separate(l) && (Untouched(fs, l) || Agrees(fs, l)) && AllFit(l, ops)
    ensures Agrees(RunOperations(fs, l, ops), l)
    ensures forall k, b :: Carried(ReadBook(RunOperations(fs, l, ops), l.registry).value.entries, l, k, b)
                           <==> Present(RunOperations(fs, l, ops), Wanted(l, k, b))
    ensures Tidy(fs, l) ==> Tidy(RunOperations(fs, l, ops), l)
    decreases |ops|
  {
    hide Agrees, Untouched, Operated, Fits, Separate, Present, Tidy, Carried;
    if Untouched(fs, l) {
      UntouchedAgrees(fs, l);
    }
    if ops == [] {
      AgreesReads(fs, l);
      forall k, b
        ensures Carried(ReadBook(fs, l.registry).value.entries, l, k, b) <==> Present(fs, Wanted(l, k, b))
      {
        CarriedIffPresent(fs, l, k, b);
      }
    } else {
      var r, failing := ops[0].request, ops[0].failing;
      OperationKeepsAgreement(fs, l, r, failing);
      if Tidy(fs, l) {
        OperationKeepsTidy(fs, l, r, failing);
      }
      EveryRunAgrees(Operated(fs, l.registry, l.adapters, r, failing), l, ops[1..]);
    }
  }

  // ---------------------------------------------------------------- plans that commit

  predicate DistinctPaths(edits: seq<Edit>) {
    forall i, j :: 0 <= i < j < |edits| ==> edits[i].path != edits[j].path
  }

  /** Each edit applies to the disk on its own, and no two go to one path. */
  predicate Independent(fs: Disk, edits: seq<Edit>) {
    DistinctPaths(edits) && forall i :: 0 <= i < |edits| ==> Apply(At(fs, edits[i].path), edits[i]).Some?
  }

  lemma OneMoreEdit(fs: Disk, edits: seq<Edit>, e: Edit)
    requires Independent(fs, edits) && Apply(At(fs, e.path), e).Some?
    requires forall i :: 0 <= i < |edits| ==> edits[i].path != e.path
    ensures Independent(fs, edits + [e])
  {
    hide Apply;
  }

  /** Edits of different paths, each applicable on its own, apply together. */
  lemma {:induction false} DistinctEditsApply(fs: Disk, edits: seq<Edit>)
    requires Independent(fs, edits)
    ensures ApplyAll(fs, edits).Some?
    ensures forall i :: 0 <= i < |edits| ==> At(ApplyAll(fs, edits).value, edits[i].path) == Target(edits[i])
    decreases |edits|
  {
    if edits != [] {
      var n := Apply(At(fs, edits[0].path), edits[0]);
      hide Apply, Target;
      var next := Put(fs, edits[0].path, n.value);
      forall i | 0 <= i < |edits[1..]|
        ensures Apply(At(next, edits[1..][i].path), edits[1..][i]).Some?
      {
        assert edits[1..][i] == edits[i + 1] && At(next, edits[i + 1].path) == At(fs, edits[i + 1].path);
      }
      DistinctEditsApply(next, edits[1..]);
      forall i | 0 <= i < |edits|
        ensures At(ApplyAll(fs, edits).value, edits[i].path) == Target(edits[i])
      {
        LastEditWins(fs, edits, i);
      }
    }
  }

  lemma HookEditApplies(fs: Disk, v: Entry, install: bool)
    requires WellFormed(fs) && HookEdit(fs, v, install).Some?
    ensures Apply(At(fs, v.path), HookEdit(fs, v, install).value).Some?
    ensures HookEdit(fs, v, install).value.path == v.path
  {
    hide Modify;
  }

  lemma RegistryEditApplies(fs: Disk, registry: string, book: Book)
    requires RegistryEdit(fs, registry, book).Some?
    ensures var e := RegistryEdit(fs, registry, book).value;
            && e.path == registry && Apply(At(fs, registry), e).Some?
            && (book.entries == [] ==> Target(e) == Absent)
            && (book.entries != [] ==> Target(e).File? && Target(e).content == Registry(book.entries, book.resources))
  {
  }

  lemma {:induction false} NothingRemoved(fs: Disk, r: Request, entries: seq<Entry>, current: nat, n: nat)
    requires n <= |entries| && r.install && forall v :: v in entries ==> !Replaces(r, v)
    ensures Removals(fs, r, entries, current, n) == Some([]) && Kept(r, entries, current, n) == entries[..n]
  {
    if n > 0 {
      NothingRemoved(fs, r, entries, current, n - 1);
      assert entries[..n] == entries[..n - 1] + [entries[n - 1]];
    }
  }

  /** An install that replaces nothing and is not refused. */
  predicate Plain(fs: Disk, l: Layout, r: Request) {
    && WellFormed(fs) && Fits(l, r) && r.install && PlanOf(fs, l.registry, r).Ready?
    && ReadBook(fs, l.registry).Some? && CurrentIndex(ReadBook(fs, l.registry).value.entries, KeyOf(r.candidate))
                                           == |ReadBook(fs, l.registry).value.entries|
    && forall v :: v in ReadBook(fs, l.registry).value.entries ==> !Replaces(r, v)
  }

  lemma PlainEdits(fs: Disk, l: Layout, r: Request)
    requires Plain(fs, l, r)
    ensures var plan, book := PlanOf(fs, l.registry, r), ReadBook(fs, l.registry).value;
            var hook := HookEdit(fs, r.candidate, true);
            var adapters := AdapterEdits(fs, r.resources, book, |r.resources|);
            && hook.Some? && adapters.Some? && RegistryEdit(fs, l.registry, plan.book).Some?
            && plan.edits == adapters.value + [hook.value] + [RegistryEdit(fs, l.registry, plan.book).value]
            && plan.book == Book(book.entries + [r.candidate.(createdFile := !hook.value.existed)],
                                 Recorded(book.resources, r.resources, |r.resources|))
  {
    var entries := ReadBook(fs, l.registry).value.entries;
    NothingRemoved(fs, r, entries, |entries|, |entries|);
    assert entries[..|entries|] == entries;
    hide HookEdit, Removals, AdapterEdits, Kept, Recorded, RegistryEdit, GrokConflict, Fits, CurrentIndex, Replaces;
    var adapters := AdapterEdits(fs, r.resources, ReadBook(fs, l.registry).value, |r.resources|).value;
    var hook := HookEdit(fs, r.candidate, true).value;
    assert [] + [hook] == [hook];
  }

  lemma PlainAdapters(fs: Disk, l: Layout, r: Request, book: Book)
    requires Fits(l, r) && r.install && AdapterEdits(fs, r.resources, book, |r.resources|).Some?
    ensures var adapters := AdapterEdits(fs, r.resources, book, |r.resources|).value;
            Independent(fs, adapters) && forall i :: 0 <= i < |adapters| ==> adapters[i].path in l.adapters
  {
    hide AdapterEdit, AdapterEdits, Apply, Recorded, Registered;
    var n, adapters := |r.resources|, AdapterEdits(fs, r.resources, book, |r.resources|).value;
    AdapterEditAt(fs, r.resources, book, n);
    forall i | 0 <= i < n
      ensures adapters[i].path == r.resources[n - 1 - i].0 && Apply(At(fs, adapters[i].path), adapters[i]).Some?
    {
      assert n - 1 - (n - 1 - i) == i;
      AdapterEditIsPlanned(fs, r.resources[n - 1 - i].0, r.resources[n - 1 - i].1, book);
    }
  }

  /** Its edits go to different paths. */
  lemma PlainEditsApply(fs: Disk, l: Layout, r: Request)
    requires WellPlaced(l) && Plain(fs, l, r)
    ensures Independent(fs, PlanOf(fs, l.registry, r).edits)
  {
    var plan, book := PlanOf(fs, l.registry, r), ReadBook(fs, l.registry).value;
    PlainEdits(fs, l, r);
    PlainAdapters(fs, l, r, book);
    HookEditApplies(fs, r.candidate, true);
    RegistryEditApplies(fs, l.registry, plan.book);
    assert WellPlacedAt(l, KeyOf(r.candidate)) && l.registry !in l.adapters;
    var adapters := AdapterEdits(fs, r.resources, book, |r.resources|).value;
    var hook, last := HookEdit(fs, r.candidate, true).value, RegistryEdit(fs, l.registry, plan.book).value;
    hide HookEdit, PlanOf, RegistryEdit, AdapterEdits, Apply, Recorded, WellPlaced, CurrentIndex, Independent;
    OneMoreEdit(fs, adapters, hook);
    OneMoreEdit(fs, adapters + [hook], last);
  }

  /** Its edits apply, and each leaves its own target. */
  lemma PlainCommits(fs: Disk, l: Layout, r: Request) returns (after: Disk)
    requires WellPlaced(l) && Plain(fs, l, r)
    ensures ApplyAll(fs, PlanOf(fs, l.registry, r).edits) == Some(after) && WellFormed(after)
    ensures var edits := PlanOf(fs, l.registry, r).edits;
            forall i :: 0 <= i < |edits| ==> At(after, edits[i].path) == Target(edits[i])
  {
    hide PlanOf, WellPlaced, Independent, ApplyAll, Fits, Replaces, CurrentIndex;
    var plan := PlanOf(fs, l.registry, r);
    PlainEditsApply(fs, l, r);
    DistinctEditsApply(fs, plan.edits);
    after := ApplyAll(fs, plan.edits).value;
    ApplyAllWellFormed(fs, plan.edits);
  }

  lemma PlainAdaptersAfter(fs: Disk, l: Layout, r: Request, after: Disk)
    requires Plain(fs, l, r)
    requires var edits := PlanOf(fs, l.registry, r).edits;
             forall i :: 0 <= i < |edits| ==> At(after, edits[i].path) == Target(edits[i])
    ensures AdaptersIntact(after, l, PlanOf(fs, l.registry, r).book.resources)
  {
    var plan, book := PlanOf(fs, l.registry, r), ReadBook(fs, l.registry).value;
    PlainEdits(fs, l, r);
    var n := |r.resources|;
    AdapterEditAt(fs, r.resources, book, n);
    hide HookEdit, PlanOf, RegistryEdit, AdapterEdits, AdapterEdit, Apply, Recorded, CurrentIndex, Replaces, Fits,
         Target;
    var adapters := AdapterEdits(fs, r.resources, book, n).value;
    forall p | p in l.adapters
      ensures IntactAt(after, plan.book.resources, p)
    {
      var i := ShippedAt(l, r, book.resources, p);
      assert plan.edits[n - 1 - i] == adapters[n - 1 - i];
      AdapterEditIsPlanned(fs, p, r.resources[i].1, book);
    }
  }

  /** What a plain install leaves behind when no primitive fails. */
  lemma PlainInstall(fs: Disk, l: Layout, r: Request) returns (after: Disk)
    requires WellPlaced(l) && Plain(fs, l, r)
    ensures after == Operated(fs, l.registry, l.adapters, r, {}) && WellFormed(after)
    ensures var plan, hook := PlanOf(fs, l.registry, r), HookEdit(fs, r.candidate, true);
            var book := ReadBook(fs, l.registry).value;
            && hook.Some? && At(after, r.candidate.path) == Target(hook.value)
            && ReadBook(after, l.registry) == Some(plan.book)
            && plan.book == Book(book.entries + [r.candidate.(createdFile := !hook.value.existed)],
                                 Recorded(book.resources, r.resources, |r.resources|))
            && AdaptersIntact(after, l, plan.book.resources)
  {
    var plan, book := PlanOf(fs, l.registry, r), ReadBook(fs, l.registry).value;
    PlainEdits(fs, l, r);
    after := PlainCommits(fs, l, r);
    PlainAdaptersAfter(fs, l, r, after);
    hide HookEdit, PlanOf, RegistryEdit, AdapterEdits, ApplyAll, Apply, Recorded, WellPlaced, CurrentIndex;
    hide Replaces, Fits, Target, AdaptersIntact;
    HookEditApplies(fs, r.candidate, true);
    RegistryEditApplies(fs, l.registry, plan.book);
    var n, adapters := |r.resources|, AdapterEdits(fs, r.resources, book, |r.resources|).value;
    AdapterEditAt(fs, r.resources, book, n);
    assert plan.edits[n] == HookEdit(fs, r.candidate, true).value;
    assert plan.edits[n + 1] == RegistryEdit(fs, l.registry, plan.book).value;
  }

  /** With nothing registered and no adapter file left behind, an install of any program goes
      through wherever the hook file can take it. */
  lemma InstallFromScratch(fs: Disk, l: Layout, r: Request)
    requires WellPlaced(l) && WellFormed(fs) && Fits(l, r) && r.install
    requires At(fs, l.registry) == Absent && Tidy(fs, l) && HookEdit(fs, r.candidate, true).Some?
    ensures Plain(fs, l, r)
  {
    hide HookEdit, Removals, AdapterEdits, AdapterEdit, Kept, Recorded, WellPlaced, Registered, Replaces;
    NothingRemoved(fs, r, [], 0, 0);
    assert forall i :: 0 <= i < |r.resources| ==> At(fs, r.resources[i].0) == Absent;
    hide Fits, Tidy;
    FreshAdapters(fs, r.resources, Book([], map[]), |r.resources|);
    assert TargetEntry([], r) == r.candidate;
  }

  lemma {:induction false} FreshAdapters(fs: Disk, resources: seq<(string, string)>, book: Book, n: nat)
    requires n <= |resources|
    requires forall i :: 0 <= i < |resources| ==>
               || At(fs, resources[i].0) == Absent
               || (book.entries != [] && IntactAt(fs, book.resources, resources[i].0)
                   && book.resources[resources[i].0] == resources[i].1)
    ensures AdapterEdits(fs, resources, book, n).Some?
  {
    if n > 0 {
      FreshAdapters(fs, resources, book, n - 1);
    }
  }

  // ---------------------------------------------------------------- shared hook files

  /** Every adapter file once, the runtime file naming the program. */
  function Package(l: Layout, program: string): seq<(string, string)> {
    seq(|l.adapters|, i requires 0 <= i < |l.adapters| => (l.adapters[i], program))
  }

  /** An install of key k that a client can ask for in this layout. */
  lemma RequestFits(l: Layout, k: Key, program: string) returns (r: Request)
    requires WellPlaced(l)
    ensures r == Request(true, false, Wanted(l, k, program), Package(l, program)) && Fits(l, r)
  {
    r := Request(true, false, Wanted(l, k, program), Package(l, program));
    var n := |r.resources|;
    RecordedAt(map[], r.resources, n);
    hide Recorded;
    forall p | p in l.adapters
      ensures p in Shipped(r) && Shipped(r)[p] == program
    {
      var i :| 0 <= i < |l.adapters| && l.adapters[i] == p;
      assert r.resources[i] == (p, program);
    }
  }

  lemma EmptyDiskTakesHook(v: Entry)
    ensures HookEdit(map[], v, true).Some?
  {
    EmptyTakesInstall(OwnerOf(v), true);
    hide Modify;
  }

  /** A single install already disagrees for a second key of the same hook file. */
  lemma SharedFileDisagrees(l: Layout, k: Key, j: Key) returns (ops: seq<Operation>)
    requires WellPlaced(l) && k != j && l.place(k) == l.place(j)
    ensures Untouched(map[], l) && AllFit(l, ops) && !Agrees(RunOperations(map[], l, ops), l)
  {
    var r := RequestFits(l, k, "");
    var fs: Disk := map[];
    ops := [Operation(r, {})];
    EmptyDiskTakesHook(r.candidate);
    InstallFromScratch(fs, l, r);
    var after := PlainInstall(fs, l, r);
    assert WellPlacedAt(l, k) && k.agent == j.agent;
    HookEditEffect(fs, r.candidate, true, after);
    hide PlanOf, HookEdit, Present, Gone, Fits, WellPlaced, Operated, Recorded, AdaptersIntact, Plain;
    assert ops[1..] == [] && RunOperations(after, l, []) == after;
    assert RunOperations(fs, l, ops) == after;
    var v := ReadBook(after, l.registry).value.entries[0];
    assert ReadBook(after, l.registry).value.entries == [v] && KeyOf(v) == k;
    SameHookSamePresence(after, r.candidate, Wanted(l, j, ""));
    if Agrees(after, l) {
      CarriedIffPresent(after, l, j, "");
      assert false;
    }
    UntouchedWhenEmpty(l);
  }

  lemma UntouchedWhenEmpty(l: Layout)
    ensures Untouched(map[], l)
  {
  }

  /** All runs from all untouched directories agree exactly when no two installations share a hook
      file. */
  lemma AgreementIffOwnFiles(l: Layout)
    requires WellPlaced(l)
    ensures OwnFiles(l)
       <==> forall fs, ops :: Untouched(fs, l) && AllFit(l, ops) ==> Agrees(RunOperations(fs, l, ops), l)
  {
    hide WellPlaced, Untouched, AllFit, Agrees, RunOperations, Tidy, Carried, Present;
    if OwnFiles(l) {
      forall fs, ops | Untouched(fs, l) && AllFit(l, ops)
        ensures Agrees(RunOperations(fs, l, ops), l)
      {
        EveryRunAgrees(fs, l, ops);
      }
    } else {
      var k, j :| l.place(k) == l.place(j) && k != j;
      var ops := SharedFileDisagrees(l, k, j);
    }
  }

  /** A hook that is in place can be put there again, changing nothing, and can be taken away. */
  lemma Reinstall(fs: Disk, v: Entry, after: Disk, w: Entry)
    requires WellFormed(fs) && HookEdit(fs, v, true).Some? && (v.agent == "pi" ==> v.managed != "")
    requires At(after, v.path) == Target(HookEdit(fs, v, true).value)
    requires w.agent == v.agent && w.path == v.path && w.command == v.command && w.managed == v.managed
    ensures HookEdit(after, w, true).Some? && Target(HookEdit(after, w, true).value) == At(after, w.path)
    ensures HookEdit(after, w, false).Some?
  {
    if v.agent != "pi" && v.agent != "opencode" {
      var doc := if At(fs, v.path) == Absent then map[] else At(fs, v.path).content.doc;
      var present := At(fs, v.path) != Absent;
      assert OwnerOf(w) == OwnerOf(v);
      InstallIsIdempotent(doc, OwnerOf(v), true, present, true);
      UninstallUndoesInstall(doc, OwnerOf(v), present, true);
      hide Modify, EntryAbsent, TidyFor;
    }
  }

  lemma SharedPlan(fs: Disk, registry: string, v: Entry, w: Entry, resources: map<string, string>, c: Entry)
    requires ReadBook(fs, registry) == Some(Book([v, w], resources)) && At(fs, registry) != Absent
    requires KeyOf(v) == KeyOf(c) != KeyOf(w) && HookEdit(fs, v, false).Some?
    ensures var last := RegistryEdit(fs, registry, Book([w], resources));
            last.Some? && PlanOf(fs, registry, Request(false, false, c, []))
                          == Ready([HookEdit(fs, v, false).value, last.value], Book([w], resources))
  {
    hide HookEdit;
    var r, entries, e := Request(false, false, c, []), [v, w], HookEdit(fs, v, false).value;
    assert Removals(fs, r, entries, 0, 0) == Some([]) && [] + [e] == [e];
    assert Removals(fs, r, entries, 0, 1) == Some([e]);
    assert Removals(fs, r, entries, 0, 2) == Some([e]);
    assert Kept(r, entries, 0, 1) == [];
    assert Kept(r, entries, 0, 2) == [w];
  }

  /** Uninstalling the first of two installations in one hook file removes the hook of the second,
      which stays registered. */
  lemma UninstallLosesOther(fs: Disk, l: Layout, v: Entry, w: Entry, resources: map<string, string>, c: Entry)
    requires WellFormed(fs) && ReadBook(fs, l.registry) == Some(Book([v, w], resources))
    requires KeyOf(v) == KeyOf(c) != KeyOf(w) && HookEdit(fs, v, false).Some?
    requires SameHook(v, w) && v.path != l.registry && (v.agent == "pi" ==> v.managed != "")
    ensures var end := Operated(fs, l.registry, l.adapters, Request(false, false, c, []), {});
            ReadBook(end, l.registry) == Some(Book([w], resources)) && !Present(end, w)
  {
    var e, last := HookEdit(fs, v, false).value, RegistryEdit(fs, l.registry, Book([w], resources)).value;
    SharedPlan(fs, l.registry, v, w, resources, c);
    HookEditApplies(fs, v, false);
    RegistryEditApplies(fs, l.registry, Book([w], resources));
    var edits := [e, last];
    hide HookEdit, PlanOf, RegistryEdit, Target, Apply, Present, Gone;
    assert Independent(fs, edits);
    DistinctEditsApply(fs, edits);
    var end := ApplyAll(fs, edits).value;
    assert At(end, edits[0].path) == Target(e) && At(end, edits[1].path) == Target(last);
    hide ApplyAll;
    assert end == Operated(fs, l.registry, l.adapters, Request(false, false, c, []), {});
    HookEditEffect(fs, v, false, end);
    SameHookSamePresence(end, v, w);
    if Present(end, w) {
      PresentIsNotGone(end, w);
    }
  }

  function ThreeSteps(r1: Request, r2: Request, r3: Request): seq<Operation> {
    [Operation(r1, {}), Operation(r2, {}), Operation(r3, {})]
  }

  lemma ThreeStepRun(fs: Disk, l: Layout, r1: Request, r2: Request, r3: Request)
    ensures RunOperations(fs, l, ThreeSteps(r1, r2, r3))
         == Operated(Operated(Operated(fs, l.registry, l.adapters, r1, {}), l.registry, l.adapters, r2, {}),
                     l.registry, l.adapters, r3, {})
  {
    hide Operated;
    var one := Operated(fs, l.registry, l.adapters, r1, {});
    var two := Operated(one, l.registry, l.adapters, r2, {});
    var end := Operated(two, l.registry, l.adapters, r3, {});
    var o1, o2, o3 := Operation(r1, {}), Operation(r2, {}), Operation(r3, {});
    assert [o1, o2, o3] == [o1] + [o2, o3] && [o2, o3] == [o2] + [o3] && [o3] == [o3] + [];
    hide RunOperations;
    OneStepRun(fs, l, o1, [o2, o3]);
    OneStepRun(one, l, o2, [o3]);
    OneStepRun(two, l, o3, []);
    EmptyRun(end, l);
  }

  lemma EmptyRun(fs: Disk, l: Layout)
    ensures RunOperations(fs, l, []) == fs
  {
  }

  lemma OneStepRun(fs: Disk, l: Layout, o: Operation, rest: seq<Operation>)
    ensures RunOperations(fs, l, [o] + rest)
         == RunOperations(Operated(fs, l.registry, l.adapters, o.request, o.failing), l, rest)
  {
    hide Operated;
    assert ([o] + rest)[0] == o && ([o] + rest)[1..] == rest;
  }

  /** The two installs: both are registered in the end, and their common hook can be taken away. */
  lemma TwoInstalls(fs: Disk, l: Layout, r1: Request, r2: Request) returns (two: Disk, v: Entry, w: Entry)
    requires WellPlaced(l) && WellFormed(fs) && At(fs, l.registry) == Absent && Tidy(fs, l)
    requires Fits(l, r1) && Fits(l, r2) && r1.install && r2.install && !r2.switch && r1.resources == r2.resources
    requires KeyOf(r1.candidate) != KeyOf(r2.candidate) && SameHook(r1.candidate, r2.candidate)
    requires r1.candidate.command == r2.candidate.command && r1.candidate.agent != "grok"
    requires HookEdit(fs, r1.candidate, true).Some?
    ensures two == Operated(Operated(fs, l.registry, l.adapters, r1, {}), l.registry, l.adapters, r2, {})
    ensures WellFormed(two) && ReadBook(two, l.registry).Some? && ReadBook(two, l.registry).value.entries == [v, w]
    ensures v == r1.candidate.(createdFile := v.createdFile) && w == r2.candidate.(createdFile := w.createdFile)
    ensures HookEdit(two, v, false).Some?
  {
    assert WellPlacedAt(l, KeyOf(r1.candidate));
    InstallFromScratch(fs, l, r1);
    var one := PlainInstall(fs, l, r1);
    hide PlanOf, HookEdit, Fits, WellPlaced, Operated, Recorded, AdaptersIntact, Target, Tidy, WellFormed, Plain;
    assert Registered(r1.candidate, l) && Registered(r2.candidate, l) by {
      hide *;
      FitsParts(l, r1);
      FitsParts(l, r2);
    }
    Reinstall(fs, r1.candidate, one, r2.candidate);
    SecondInstall(one, l, r1, r2);
    two := PlainInstall(one, l, r2);
    v, w := ReadBook(two, l.registry).value.entries[0], ReadBook(two, l.registry).value.entries[1];
    Reinstall(fs, r1.candidate, two, v);
  }

  lemma FitsParts(l: Layout, r: Request)
    requires Fits(l, r) && r.install
    ensures Registered(r.candidate, l)
  {
    hide Shipped;
  }

  /** From any untouched directory: install k, install j, whose hook is in the same file, and
      uninstall k. All three succeed; j stays registered and its hook is gone. */
  lemma SharedFileLosesHook(fs: Disk, l: Layout, k: Key, j: Key, program: string)
    requires WellPlaced(l) && Untouched(fs, l) && Tidy(fs, l)
    requires k != j && l.place(k) == l.place(j) && k.agent != "grok"
    requires HookEdit(fs, Wanted(l, k, program), true).Some?
    ensures var pack := Package(l, program);
            var ops := ThreeSteps(Request(true, false, Wanted(l, k, program), pack),
                                  Request(true, false, Wanted(l, j, program), pack),
                                  Request(false, false, Wanted(l, k, program), []));
            var end := RunOperations(fs, l, ops);
            && AllFit(l, ops) && ReadBook(end, l.registry).Some?
            && Listed(ReadBook(end, l.registry).value.entries, j) && !Present(end, Wanted(l, j, program))
  {
    var r1 := RequestFits(l, k, program);
    var r2 := RequestFits(l, j, program);
    var r3 := Request(false, false, Wanted(l, k, program), []);
    assert Fits(l, r3);
    assert WellPlacedAt(l, k) && k.agent == j.agent;
    hide PlanOf, HookEdit, Present, Gone, Fits, WellPlaced, Operated, Package, Tidy;
    var two, v, w := TwoInstalls(fs, l, r1, r2);
    var resources := ReadBook(two, l.registry).value.resources;
    UninstallLosesOther(two, l, v, w, resources, r3.candidate);
    ThreeStepRun(fs, l, r1, r2, r3);
    var end := RunOperations(fs, l, ThreeSteps(r1, r2, r3));
    assert ReadBook(end, l.registry) == Some(Book([w], resources));
    SameHookSamePresence(end, w, Wanted(l, j, program));
  }

  /** The second install, of another key with the same resources, is not refused either. */
  lemma SecondInstall(one: Disk, l: Layout, r1: Request, r2: Request)
    requires WellPlaced(l) && WellFormed(one) && Fits(l, r1) && Fits(l, r2) && r1.install && r2.install && !r2.switch
    requires r1.resources == r2.resources && KeyOf(r1.candidate) != KeyOf(r2.candidate) && r2.candidate.agent != "grok"
    requires ReadBook(one, l.registry).Some? && |ReadBook(one, l.registry).value.entries| == 1
    requires KeyOf(ReadBook(one, l.registry).value.entries[0]) == KeyOf(r1.candidate)
    requires ReadBook(one, l.registry).value.resources == Shipped(r1)
    requires AdaptersIntact(one, l, Shipped(r1)) && HookEdit(one, r2.candidate, true).Some?
    ensures Plain(one, l, r2)
  {
    var book := ReadBook(one, l.registry).value;
    var entries := book.entries;
    NothingRemoved(one, r2, entries, 1, 1);
    RecordedAt(map[], r1.resources, |r1.resources|);
    assert entries[..1] == entries && entries[1..] == [];
    assert CurrentIndex(entries, KeyOf(r2.candidate)) == 1;
    FreshAdapters(one, r2.resources, book, |r2.resources|);
    hide HookEdit, Removals, AdapterEdits, Kept, Recorded, WellPlaced, Fits, CurrentIndex;
  }

  // ---------------------------------------------------------------- the operation itself

  lemma {:induction false} RemovalsStop(fs: Disk, r: Request, entries: seq<Entry>, current: nat, i: nat, n: nat)
    requires i <= n <= |entries| && Removals(fs, r, entries, current, i) == None
    ensures Removals(fs, r, entries, current, n) == None
  {
    hide HookEdit, Removes;
    if i < n {
      RemovalsStop(fs, r, entries, current, i, n - 1);
    }
  }

  lemma {:induction false} AdaptersStop(fs: Disk, resources: seq<(string, string)>, book: Book, i: nat, n: nat)
    requires i <= n <= |resources| && AdapterEdits(fs, resources, book, i) == None
    ensures AdapterEdits(fs, resources, book, n) == None
  {
    if i < n {
      AdaptersStop(fs, resources, book, i, n - 1);
    }
  }

  method FindCurrent(entries: seq<Entry>, r: Request) returns (current: nat)
    ensures current == CurrentIndex(entries, KeyOf(r.candidate))
  {
    current := 0;
    while current < |entries| && KeyOf(entries[current]) != KeyOf(r.candidate)
      invariant current <= CurrentIndex(entries, KeyOf(r.candidate))
    {
      current := current + 1;
    }
  }

  method HasGrokConflict(entries: seq<Entry>, r: Request) returns (conflict: bool)
    ensures conflict == GrokConflict(entries, r)
  {
    if !r.install || r.switch || r.candidate.agent != "grok" {
      return false;
    }
    for i := 0 to |entries|
      invariant forall j :: 0 <= j < i ==> !(entries[j].agent == "grok" && KeyOf(entries[j]) != KeyOf(r.candidate))
    {
      if entries[i].agent == "grok" && KeyOf(entries[i]) != KeyOf(r.candidate) {
        return true;
      }
    }
    return false;
  }

  method SplitEntries(fs: Disk, r: Request, entries: seq<Entry>, current: nat)
    returns (edits: Option<seq<Edit>>, next: seq<Entry>)
    ensures edits == Removals(fs, r, entries, current, |entries|)
    ensures edits.Some? ==> next == Kept(r, entries, current, |entries|)
  {
    edits, next := Some([]), [];
    for i := 0 to |entries|
      invariant edits.Some? && edits == Removals(fs, r, entries, current, i) && next == Kept(r, entries, current, i)
    {
      if Removes(r, entries[i], i == current) {
        var e := HookEdit(fs, entries[i], false);
        if e == None {
          RemovalsStop(fs, r, entries, current, i + 1, |entries|);
          return None, [];
        }
        edits := Some(edits.value + [e.value]);
      } else {
        next := next + [entries[i]];
      }
    }
  }

  method PrepareAdapters(fs: Disk, r: Request, book: Book)
    returns (edits: Option<seq<Edit>>, recorded: map<string, string>)
    ensures edits == AdapterEdits(fs, r.resources, book, |r.resources|)
    ensures edits.Some? ==> recorded == Recorded(book.resources, r.resources, |r.resources|)
  {
    edits, recorded := Some([]), book.resources;
    for i := 0 to |r.resources|
      invariant edits.Some? && edits == AdapterEdits(fs, r.resources, book, i)
                && recorded == Recorded(book.resources, r.resources, i)
    {
      var (p, text) := r.resources[i];
      var e := AdapterEdit(fs, p, text, book);
      if e == None {
        AdaptersStop(fs, r.resources, book, i + 1, |r.resources|);
        return None, recorded;
      }
      edits := Some([e.value] + edits.value);
      recorded := recorded[p := text];
    }
  }

  method PreparePlan(fs: Disk, registry: string, r: Request) returns (plan: Plan)
    ensures plan == PlanOf(fs, registry, r)
  {
    hide HookEdit, Removals, Kept, AdapterEdits, Recorded, CurrentIndex, GrokConflict, RegularEdit;
    var read := ReadBook(fs, registry);
    if read == None {
      return Refused;
    }
    var entries := read.value.entries;
    var conflict := HasGrokConflict(entries, r);
    if conflict {
      return Refused;
    }
    var current := FindCurrent(entries, r);
    if !r.install && current == |entries| {
      return Idle;
    }
    var target := if current < |entries| then entries[current] else r.candidate;
    var removals, next := SplitEntries(fs, r, entries, current);
    if removals == None {
      return Refused;
    }
    var edits, resources := removals.value, read.value.resources;
    if r.install {
      var hook := HookEdit(fs, target, true);
      if hook == None {
        return Refused;
      }
      if current == |entries| {
        next := next + [target.(createdFile := !hook.value.existed)];
      }
      var adapters, recorded := PrepareAdapters(fs, r, read.value);
      if adapters == None {
        return Refused;
      }
      edits, resources := adapters.value + (edits + [hook.value]), recorded;
    }
    var last := RegistryEdit(fs, registry, Book(next, resources));
    if last == None {
      return Refused;
    }
    return Ready(edits + [last.value], Book(next, resources));
  }

  method RemoveAdapters(client: Client, recorded: map<string, string>, adapters: seq<string>)
    modifies client
    ensures client.files == Cleanup(old(client.files), recorded, adapters, |adapters|)
  {
    for i := 0 to |adapters|
      invariant client.files == Cleanup(old(client.files), recorded, adapters, i)
    {
      var p := adapters[i];
      var n := At(client.files, p);
      if p in recorded && n.File? && n.content == Bytes(recorded[p]) {
        client.files := Put(client.files, p, Absent);
      }
    }
  }

  /** Install, switch or uninstall on a real disk: plan, apply with rollback, then tidy up. */
  method Operate(client: Client, registry: string, adapters: seq<string>, r: Request, failing: set<nat>)
    returns (done: bool)
    requires WellFormed(client.files)
    modifies client
    ensures client.files == Operated(old(client.files), registry, adapters, r, failing)
    ensures !done ==> client.files == old(client.files)
  {
    var plan := PreparePlan(client.files, registry, r);
    hide PlanOf, ApplyAll, Planned;
    if !plan.Ready? {
      return plan.Idle?;
    }
    PlanIsPlanned(client.files, registry, r);
    done := client.Transact(plan.edits, failing);
    if done && plan.book.entries == [] {
      RemoveAdapters(client, plan.book.resources, adapters);
    }
  }
}
