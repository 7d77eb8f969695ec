/** Compare-and-set file edits, applied in order and undone in reverse. */
module ClientFiles {
  import opened Common
  import opened HookDocument

  /** One registered installation. */
  datatype Entry = Entry(
    agent: string, scope: string, project: string, path: string, command: string, managed: string, createdFile: bool)

  /** File contents by their decoded meaning; JSON encoding and digests are taken as injective. */
  datatype Content =
    | Bytes(text: string)
    | Hooks(doc: Document)
    | Registry(entries: seq<Entry>, resources: map<string, string>)

  datatype Node = Absent | File(content: Content, mode: int) | Link(target: string) | Other

  type Disk = map<string, Node>

  function At(fs: Disk, p: string): Node {
    if p in fs then fs[p] else Absent
  }

  function Put(fs: Disk, p: string, n: Node): Disk {
    if n == Absent then fs - {p} else fs[p := n]
  }

  /** The disk records no explicit absences, so equal nodes everywhere mean equal disks; no link
      has an empty target. */
  predicate WellFormed(fs: Disk) {
    forall p :: p in fs ==> fs[p] != Absent && fs[p] != Link("")
  }

  datatype Edit = Edit(
    path: string, before: Option<Content>, after: Option<Content>, mode: int,
    oldLink: string, newLink: string, existed: bool)

  /** Byte comparison; a missing expectation compares like empty bytes. */
  predicate SameBytes(c: Content, expected: Option<Content>) {
    c == if expected.Some? then expected.value else Bytes("")
  }

  /** The check: the node is what the edit expects to find. */
  predicate Expected(n: Node, exists': bool, data: Option<Content>, link: string) {
    if !exists' then n == Absent
    else if link != "" then n == Link(link)
    else n.File? && SameBytes(n.content, data)
  }

  /** The write: remove, link, or replace atomically; None when the primitive refuses. */
  function Written(n: Node, data: Option<Content>, link: string, mode: int): Option<Node> {
    if data == None && link == "" then Some(Absent)
    else if link != "" then
      if n == Link(link) then Some(n) else if n == Absent then Some(Link(link)) else None
    else Some(File(data.value, mode))
  }

  function Apply(n: Node, e: Edit): Option<Node> {
    if Expected(n, e.existed, e.before, e.oldLink) then Written(n, e.after, e.newLink, e.mode) else None
  }

  function Undo(n: Node, e: Edit): Option<Node> {
    if Expected(n, e.after.Some? || e.newLink != "", e.after, e.newLink)
    then Written(n, e.before, e.oldLink, e.mode)
    else None
  }

  /** When undoing an applied edit gives back the node it replaced. */
  predicate Restorable(n: Node, e: Edit) {
    if !e.existed then e.before == None && e.oldLink == ""
    else if e.oldLink != "" then e.newLink != "" || e.after == None
    else n.File? && e.before == Some(n.content) && e.mode == n.mode
  }

  /** Undo restores the node exactly when the edit recorded content and mode faithfully and does
      not turn a link into a file. */
  lemma UndoRestores(n: Node, e: Edit)
    requires Apply(n, e).Some?
    ensures Undo(Apply(n, e).value, e) == Some(n) <==> Restorable(n, e)
  {
  }

  /** An edit planned by looking at the disk fs. */
  predicate Planned(fs: Disk, e: Edit) {
    match At(fs, e.path)
    case Absent => !e.existed && e.before == None && e.oldLink == "" && !(e.after.Some? && e.newLink != "")
    case File(c, m) => e.existed && e.before == Some(c) && e.mode == m && e.oldLink == "" && e.newLink == ""
    case Link(l) => e.existed && e.before == None && l != "" && e.oldLink == l && e.after == None
    case Other => false
  }

  /** How far a disk may have drifted from the planned one while planned edits are applied. */
  predicate KeepsShape(planned: Node, now: Node) {
    match planned
    case Absent => true
    case File(_, m) => now == Absent || (now.File? && now.mode == m)
    case Link(_) => now == Absent || now.Link?
    case Other => now == Other
  }

  predicate Drift(fs: Disk, now: Disk) {
    WellFormed(now) && forall p :: p in fs ==> KeepsShape(fs[p], At(now, p))
  }

  lemma PlannedEditsRestore(fs: Disk, now: Disk, e: Edit)
    requires Planned(fs, e) && Drift(fs, now) && Apply(At(now, e.path), e).Some?
    ensures Restorable(At(now, e.path), e)
    ensures Drift(fs, Put(now, e.path, Apply(At(now, e.path), e).value))
  {
    assert e.path in fs ==> KeepsShape(fs[e.path], At(now, e.path));
  }

  lemma PutBack(fs: Disk, p: string, n: Node)
    requires WellFormed(fs)
    ensures Put(Put(fs, p, n), p, At(fs, p)) == fs
  {
  }

  /** All edits in order; None at the first one that is refused. */
  function ApplyAll(fs: Disk, edits: seq<Edit>): Option<Disk>
    decreases |edits|
  {
    if edits == [] then Some(fs)
    else
      var n := Apply(At(fs, edits[0].path), edits[0]);
      if n == None then None else ApplyAll(Put(fs, edits[0].path, n.value), edits[1..])
  }

  /** What an edit leaves at its path. */
  function Target(e: Edit): Node {
    if e.newLink != "" then Link(e.newLink)
    else if e.after.Some? then File(e.after.value, e.mode)
    else Absent
  }

  lemma AppliedIsTarget(n: Node, e: Edit)
    requires Apply(n, e).Some?
    ensures Apply(n, e).value == Target(e)
  {
  }

  lemma ApplyAllStep(fs: Disk, edits: seq<Edit>)
    requires edits != [] && ApplyAll(fs, edits).Some?
    ensures ApplyAll(fs, edits) == ApplyAll(Put(fs, edits[0].path, Target(edits[0])), edits[1..])
  {
    AppliedIsTarget(At(fs, edits[0].path), edits[0]);
  }

  /** A path no edit names is untouched. */
  lemma {:induction false} UnnamedPathStays(fs: Disk, edits: seq<Edit>, p: string)
    requires ApplyAll(fs, edits).Some? && forall i :: 0 <= i < |edits| ==> edits[i].path != p
    ensures At(ApplyAll(fs, edits).value, p) == At(fs, p)
    decreases |edits|
  {
    if edits != [] {
      ApplyAllStep(fs, edits);
      hide ApplyAll, Target;
      UnnamedPathStays(Put(fs, edits[0].path, Target(edits[0])), edits[1..], p);
    }
  }

  /** The last edit of a path decides what is there in the end. */
  lemma {:induction false} LastEditWins(fs: Disk, edits: seq<Edit>, k: nat)
    requires ApplyAll(fs, edits).Some? && k < |edits|
    requires forall j :: k < j < |edits| ==> edits[j].path != edits[k].path
    ensures At(ApplyAll(fs, edits).value, edits[k].path) == Target(edits[k])
    decreases |edits|
  {
    ApplyAllStep(fs, edits);
    hide ApplyAll, Target;
    var next := Put(fs, edits[0].path, Target(edits[0]));
    if k == 0 {
      UnnamedPathStays(next, edits[1..], edits[0].path);
    } else {
      LastEditWins(next, edits[1..], k - 1);
    }
  }

  /** A path all of whose edits agree on the outcome ends up with that outcome. */
  lemma {:induction false} AgreedEditWins(fs: Disk, edits: seq<Edit>, e: Edit)
    requires ApplyAll(fs, edits).Some? && e in edits
    requires forall x :: x in edits && x.path == e.path ==> Target(x) == Target(e)
    ensures At(ApplyAll(fs, edits).value, e.path) == Target(e)
    decreases |edits|
  {
    ApplyAllStep(fs, edits);
    hide ApplyAll, Target;
    var next := Put(fs, edits[0].path, Target(edits[0]));
    var rest := edits[1..];
    if x :| x in rest && x.path == e.path {
      AgreedEditWins(next, rest, x);
    } else {
      assert e == edits[0];
      UnnamedPathStays(next, rest, e.path);
    }
  }

  lemma {:induction false} ApplyAllWellFormed(fs: Disk, edits: seq<Edit>)
    requires WellFormed(fs) && ApplyAll(fs, edits).Some?
    ensures WellFormed(ApplyAll(fs, edits).value)
    decreases |edits|
  {
    if edits != [] {
      ApplyAllStep(fs, edits);
      assert Target(edits[0]) != Link("");
      hide ApplyAll, Target;
      ApplyAllWellFormed(Put(fs, edits[0].path, Target(edits[0])), edits[1..]);
    }
  }

  lemma {:induction false} ApplyAllAppend(fs: Disk, edits: seq<Edit>, e: Edit)
    requires ApplyAll(fs, edits).Some?
    ensures var mid := ApplyAll(fs, edits).value;
            var n := Apply(At(mid, e.path), e);
            ApplyAll(fs, edits + [e]) == if n == None then None else Some(Put(mid, e.path, n.value))
    decreases |edits|
  {
    if edits == [] {
      assert [e][1..] == [];
    } else {
      assert (edits + [e])[1..] == edits[1..] + [e];
      ApplyAllAppend(Put(fs, edits[0].path, Apply(At(fs, edits[0].path), edits[0]).value), edits[1..], e);
    }
  }

  lemma {:induction false} ApplyAllStops(fs: Disk, edits: seq<Edit>, k: nat)
    requires k < |edits| && ApplyAll(fs, edits[..k + 1]) == None
    ensures ApplyAll(fs, edits) == None
    decreases |edits|
  {
    var n := Apply(At(fs, edits[0].path), edits[0]);
    assert edits[..k + 1][1..] == edits[1..][..k];
    if n.Some? && k > 0 {
      ApplyAllStops(Put(fs, edits[0].path, n.value), edits[1..], k - 1);
    }
  }

  class Client {
    var files: Disk

    constructor (initial: Disk)
      ensures files == initial
    {
      files := initial;
    }

    /** One edit, forwards; `ok` is false when a file primitive fails without effect. */
    method ApplyEdit(e: Edit, ok: bool) returns (done: bool)
      modifies this
      ensures done <==> ok && Apply(old(At(files, e.path)), e).Some?
      ensures files == if done then Put(old(files), e.path, Apply(old(At(files, e.path)), e).value) else old(files)
    {
      var n := At(files, e.path);
      if !Expected(n, e.existed, e.before, e.oldLink) || !ok {
        return false;
      }
      var w := Written(n, e.after, e.newLink, e.mode);
      if w == None {
        return false;
      }
      files := Put(files, e.path, w.value);
      return true;
    }

    /** One edit, backwards, with working primitives. */
    method UndoEdit(e: Edit) returns (done: bool)
      modifies this
      ensures done <==> Undo(old(At(files, e.path)), e).Some?
      ensures files == if done then Put(old(files), e.path, Undo(old(At(files, e.path)), e).value) else old(files)
    {
      var n := At(files, e.path);
      if !Expected(n, e.after.Some? || e.newLink != "", e.after, e.newLink) {
        return false;
      }
      var w := Written(n, e.before, e.oldLink, e.mode);
      if w == None {
        return false;
      }
      files := Put(files, e.path, w.value);
      return true;
    }

    /** The transaction: all edits take effect in order, or every node is what it was before.
        Paths may repeat, and any edit may fail. */
    method Transact(edits: seq<Edit>, failing: set<nat>) returns (ok: bool)
      requires WellFormed(files)
      requires forall e :: e in edits ==> Planned(files, e)
      modifies this
      ensures WellFormed(files)
      ensures ok <==> ApplyAll(old(files), edits).Some? && forall i :: 0 <= i < |edits| ==> i !in failing
      ensures ok ==> Some(files) == ApplyAll(old(files), edits)
      ensures !ok ==> files == old(files)
    {
      ghost var fs := files;
      ghost var snaps := [files];
      var k := 0;
      while k < |edits|
        invariant 0 <= k <= |edits| && |snaps| == k + 1 && snaps[0] == fs && snaps[k] == files
        invariant forall i :: 0 <= i <= k ==> Drift(fs, snaps[i])
        invariant forall i :: 0 <= i < k ==> Undoes(snaps[i], snaps[i + 1], edits[i])
        invariant ApplyAll(fs, edits[..k]) == Some(files)
        invariant forall i :: 0 <= i < k ==> i !in failing
      {
        assert edits[..k + 1] == edits[..k] + [edits[k]];
        ApplyAllAppend(fs, edits[..k], edits[k]);
        var done := ApplyEdit(edits[k], k !in failing);
        if !done {
          if k !in failing {
            ApplyAllStops(fs, edits, k);
          }
          Rollback(edits[..k], snaps);
          return false;
        }
        PlannedEditsRestore(fs, snaps[k], edits[k]);
        UndoRestores(At(snaps[k], edits[k].path), edits[k]);
        PutBack(snaps[k], edits[k].path, Apply(At(snaps[k], edits[k].path), edits[k]).value);
        snaps := snaps + [files];
        k := k + 1;
      }
      assert edits[..k] == edits;
      return true;
    }

    /** Undo the applied edits from the last to the first. */
    method Rollback(applied: seq<Edit>, ghost snaps: seq<Disk>)
      requires |snaps| == |applied| + 1 && files == snaps[|applied|]
      requires forall i :: 0 <= i < |applied| ==> Undoes(snaps[i], snaps[i + 1], applied[i])
      modifies this
      ensures files == snaps[0]
    {
      var j := |applied|;
      while j > 0
        invariant 0 <= j <= |applied| && files == snaps[j]
      {
        j := j - 1;
        assert Undoes(snaps[j], snaps[j + 1], applied[j]);
        var _ := UndoEdit(applied[j]);
      }
    }
  }

  /** Undoing e on the disk `after` gives the disk `before`. */
  predicate Undoes(before: Disk, after: Disk, e: Edit) {
    Undo(At(after, e.path), e).Some? && Put(after, e.path, Undo(At(after, e.path), e).value) == before
  }

  /** Why planned edits never put a file where they found a link: such an edit could be applied and
      then not be undone. */
  lemma LinkToFileIsNotUndone(path: string, target: string, content: Content, mode: int)
    requires target != ""
    ensures var e := Edit(path, None, Some(content), mode, target, "", true);
            Apply(Link(target), e) == Some(File(content, mode)) && Undo(File(content, mode), e) == None
  {
  }
}
