/** What normalising a path does to its text, law by law, and which paths a scope therefore rejects. */
module PathLaws {
  import opened Common
  import opened Reviews
  import opened AgentPaths
  import opened ScopeCheck

  /** The text with forward slashes, as a Windows agent's paths are read. */
  function Read(p: string, windows: bool): string {
    if windows then Forward(p) else p
  }

  /** An ordinary component: no separator in it, and not one of the special ones. */
  predicate Component(c: string, windows: bool) {
    && c != "" && c != "." && c != ".." && '/' !in c && (windows ==> '\\' !in c)
  }

  lemma {:induction false} ForwardConcat(a: string, b: string)
    ensures Forward(a + b) == Forward(a) + Forward(b)
  {
    if a == "" {
      assert a + b == b;
    } else {
      assert (a + b)[1..] == a[1..] + b;
      ForwardConcat(a[1..], b);
    }
  }

  lemma ReadBelow(p: string, x: string, windows: bool)
    ensures Read(p + "/" + x, windows) == Read(p, windows) + "/" + Read(x, windows)
  {
    ForwardConcat(p + "/", x);
    ForwardConcat(p, "/");
    assert Forward("/") == "/";
    hide Forward;
  }

  // ---------------------------------------------------------------- walking on from a directory

  /** How a directory is anchored, and where its components lead. */
  function Anchor(p: string, windows: bool): nat {
    if windows && Share(Read(p, windows) + "/") then 2 else if StartsWith(Read(p, windows) + "/", "/") then 1 else 0
  }

  function Start(p: string, windows: bool): seq<string> {
    Walk(StartsWith(Read(p, windows) + "/", "/"), [], Split(Read(p, windows)))
  }

  /** What follows a share or a drive does not change that it is one. */
  /** What follows a share or a drive does not change that it is one. */
  lemma ShareBelow(t: string, x: string)
    requires Share(t + "/")
    ensures Share(t + "/" + x) && StartsWith(t + "/" + x, "/")
  {
    assert |t| >= 2;
    var u := t[2..];
    assert (t + "/")[2..] == u + "/" && (t + "/" + x)[2..] == u + "/" + x;
    assert (t + "/")[..2] == t[..2] == (t + "/" + x)[..2];
    SplitAppend(u, "");
    SplitAppend(u, x);
    assert u + "/" + "" == u + "/" && Split("") == [""];
    hide Split;
    assert |Split(u)| >= 2;
  }

  lemma DriveBelow(t: string, x: string)
    requires Drive(t + "/")
    ensures Drive(t + "/" + x) && !StartsWith(t + "/" + x, "/") && !StartsWith(t + "/", "/")
    ensures !Share(t + "/" + x) && !Share(t + "/")
  {
    assert |t| >= 2;
    assert (t + "/" + x)[..3] == (t + "/")[..3];
    assert forall i :: 0 <= i < 3 ==> (t + "/" + x)[i] == (t + "/")[i];
    hide Split;
  }

  lemma SlashBelow(t: string, x: string)
    ensures StartsWith(t + "/" + x, "/") == StartsWith(t + "/", "/")
  {
    assert (t + "/" + x)[0] == (t + "/")[0];
  }

  /** Any path below an absolute directory is absolute, has the directory's anchor, and is walked
      from where the directory leads. */
  lemma Below(p: string, x: string, cwd: string, windows: bool)
    requires AgentPathAbs(p + "/", windows)
    ensures AgentPathAbs(p + "/" + x, windows)
    ensures var at := Walk(Anchor(p, windows) > 0, Start(p, windows), Split(Read(x, windows)));
            Named(p + "/" + x, cwd, windows) == Place(Anchor(p, windows), if windows then LowerAll(at) else at)
  {
    var t, y := Read(p, windows), Read(x, windows);
    ReadBelow(p, x, windows);
    ReadBelow(p, "", windows);
    assert p + "/" + "" == p + "/" && Read("", windows) == "" && t + "/" + "" == t + "/";
    SlashBelow(t, y);
    if windows {
      ForwardHasNone(p + "/" + x);
      ForwardKeeps(Forward(p + "/" + x));
      if Share(t + "/") {
        ShareBelow(t, y);
      } else {
        DriveBelow(t, y);
      }
    }
    SplitAppend(t, y);
    var rooted := StartsWith(t + "/", "/");
    hide Split, Walk, Forward, Share, Drive, LowerAll, StartsWith;
    WalkConcat(rooted, [], Split(t), Split(y));
  }

  /** Two paths below one absolute directory that walk to the same place have the same normal form. */
  lemma SameBelow(p: string, x: string, y: string, cwd: string, windows: bool)
    requires AgentPathAbs(p + "/", windows)
    requires Walk(Anchor(p, windows) > 0, Start(p, windows), Split(Read(x, windows)))
          == Walk(Anchor(p, windows) > 0, Start(p, windows), Split(Read(y, windows)))
    ensures AgentPath(p + "/" + x, cwd, windows) == AgentPath(p + "/" + y, cwd, windows)
  {
    hide *;
    Below(p, x, cwd, windows);
    Below(p, y, cwd, windows);
    AgentPathNames(p + "/" + x, cwd, windows);
    AgentPathNames(p + "/" + y, cwd, windows);
  }

  // ---------------------------------------------------------------- the laws

  lemma UpCancels(rooted: bool, at: seq<string>, c: string, rest: seq<string>)
    requires c != "" && c != "." && c != ".."
    ensures Walk(rooted, at, [c] + ([".."] + rest)) == Walk(rooted, at, rest)
  {
    assert ([c] + ([".."] + rest))[1..] == [".."] + rest && ([".."] + rest)[1..] == rest;
    assert (at + [c])[..|at + [c]| - 1] == at;
    assert Enter(rooted, at, c) == at + [c] && Enter(rooted, at + [c], "..") == at;
    assert Walk(rooted, at + [c], [".."] + rest) == Walk(rooted, at, rest);
  }

  lemma UpParts(c: string, y: string)
    requires '/' !in c
    ensures Split(c + "/../" + y) == [c] + ([".."] + Split(y))
  {
    assert c + "/../" + y == c + "/" + (".." + "/" + y);
    SplitAppend(c, ".." + "/" + y);
    SplitAppend("..", y);
    SplitWhole(c);
    SplitWhole("..");
  }

  lemma ReadUp(c: string, q: string, windows: bool)
    requires windows ==> '\\' !in c
    ensures Read(c + "/../" + q, windows) == c + "/../" + Read(q, windows)
  {
    assert c + "/../" + q == (c + "/../") + q;
    ForwardConcat(c + "/../", q);
    if windows {
      ForwardKeeps(c + "/../");
    }
  }

  /** Dot-dot takes back the component before it. */
  lemma UpLaw(p: string, c: string, q: string, cwd: string, windows: bool)
    requires AgentPathAbs(p + "/", windows) && Component(c, windows)
    ensures AgentPath(p + "/" + c + "/../" + q, cwd, windows) == AgentPath(p + "/" + q, cwd, windows)
  {
    assert p + "/" + c + "/../" + q == p + "/" + (c + "/../" + q);
    hide Walk, Split, Forward, AgentPath, AgentPathAbs, Start, Anchor, Read;
    ReadUp(c, q, windows);
    UpParts(c, Read(q, windows));
    UpCancels(Anchor(p, windows) > 0, Start(p, windows), c, Split(Read(q, windows)));
    SameBelow(p, c + "/../" + q, q, cwd, windows);
  }

  /** Dot-dot at the root of a POSIX file system disappears. */
  lemma RootLaw(q: string, cwd: string)
    ensures AgentPath("/../" + q, cwd, false) == AgentPath("/" + q, cwd, false)
  {
    assert "" + "/" == "/" && "/../" + q == "" + "/" + ("../" + q) && "/" + q == "" + "/" + q;
    assert "../" + q == ".." + "/" + q;
    SplitAppend("..", q);
    SplitWhole("..");
    assert Split("") == [""] && Start("", false) == [] && Anchor("", false) == 1 by {
      assert Walk(true, [], [""]) == Walk(true, [], [""][1..]);
      assert [""][1..] == [];
    }
    assert ([".."] + Split(q))[1..] == Split(q);
    assert Walk(true, [], [".."] + Split(q)) == Walk(true, Enter(true, [], ".."), Split(q));
    hide Walk, Split, AgentPath, Start, Anchor;
    SameBelow("", "../" + q, q, cwd, false);
  }

  lemma NothingEntered(rooted: bool, at: seq<string>, c: string, rest: seq<string>)
    requires c == "" || c == "."
    ensures Walk(rooted, at, [c] + rest) == Walk(rooted, at, rest)
  {
    assert ([c] + rest)[1..] == rest;
  }

  /** Dots and doubled separators disappear. */
  lemma DotLaw(p: string, q: string, cwd: string, windows: bool)
    requires AgentPathAbs(p + "/", windows)
    ensures AgentPath(p + "/./" + q, cwd, windows) == AgentPath(p + "/" + q, cwd, windows)
    ensures AgentPath(p + "//" + q, cwd, windows) == AgentPath(p + "/" + q, cwd, windows)
  {
    assert p + "/./" + q == p + "/" + ("./" + q) && p + "//" + q == p + "/" + ("/" + q);
    var y := Read(q, windows);
    assert "./" + q == "." + "/" + q && "/" + q == "" + "/" + q;
    ReadBelow(".", q, windows);
    ReadBelow("", q, windows);
    if windows {
      ForwardKeeps(".");
    }
    assert Read("", windows) == "";
    SplitAppend(".", y);
    SplitAppend("", y);
    SplitWhole(".");
    SplitWhole("");
    hide Walk, Split, Forward, AgentPath, AgentPathAbs, Start, Anchor, Read;
    NothingEntered(Anchor(p, windows) > 0, Start(p, windows), ".", Split(y));
    NothingEntered(Anchor(p, windows) > 0, Start(p, windows), "", Split(y));
    SameBelow(p, "./" + q, q, cwd, windows);
    SameBelow(p, "/" + q, q, cwd, windows);
  }

  lemma WalkEnds(rooted: bool, at: seq<string>, c: string)
    requires c != "" && c != "." && c != ".."
    ensures Walk(rooted, at, [c] + ([".."] + [])) == Walk(rooted, at, [""]) == at
  {
    UpCancels(rooted, at, c, []);
    assert [""][1..] == [];
  }

  /** At the end of a path too: dot-dot takes back a component, and a final separator disappears. */
  lemma EndLaw(p: string, c: string, cwd: string, windows: bool)
    requires AgentPathAbs(p + "/", windows) && Component(c, windows)
    ensures AgentPath(p + "/" + c + "/..", cwd, windows) == AgentPath(p + "/", cwd, windows)
    ensures AgentPath(p + "/" + c + "/", cwd, windows) == AgentPath(p + "/" + c, cwd, windows)
  {
    assert p + "/" + c + "/.." == p + "/" + (c + "/" + "..") && p + "/" + "" == p + "/";
    assert p + "/" + c + "/" == p + "/" + (c + "/" + "");
    ReadBelow(c, "..", windows);
    ReadBelow(c, "", windows);
    if windows {
      ForwardKeeps(c);
      ForwardKeeps("..");
    }
    assert Read("", windows) == "";
    SplitAppend(c, "..");
    SplitAppend(c, "");
    SplitWhole(c);
    SplitWhole("..");
    SplitWhole("");
    var rooted, at := Anchor(p, windows) > 0, Start(p, windows);
    assert [c] + [".."] == [c] + ([".."] + []);
    WalkEnds(rooted, at, c);
    WalkConcat(rooted, at, [c], [""]);
    assert Walk(rooted, Walk(rooted, at, [c]), [""]) == Walk(rooted, at, [c]) by {
      assert [""][1..] == [];
    }
    hide Walk, Split, Forward, AgentPath, AgentPathAbs, Start, Anchor, Read;
    SameBelow(p, c + "/" + "..", "", cwd, windows);
    SameBelow(p, c + "/" + "", c, cwd, windows);
  }

  /** A path of ordinary components after the root is its own normal form. */
  predicate CleanPosix(p: string) {
    StartsWith(p, "/") && (p != "/" ==> forall c :: c in Split(p[1..]) ==> Component(c, false))
  }

  lemma RootStart()
    ensures Start("", false) == [] && Anchor("", false) == 1
  {
    assert "" + "/" == "/" && Split("") == [""];
    assert Walk(true, [], [""]) == Walk(true, [], [""][1..]);
    assert [""][1..] == [];
  }

  lemma OrdinaryWalk(rooted: bool, at: seq<string>, parts: seq<string>)
    requires forall i :: 0 <= i < |at| ==> Component(at[i], false)
    requires forall i :: 0 <= i < |parts| ==> Component(parts[i], false)
    ensures Walk(rooted, at, parts) == at + parts
  {
    assert Resolved(rooted, at + parts);
    WalkIsIdentity(rooted, at, parts);
  }

  lemma CleanLaw(p: string, cwd: string)
    requires CleanPosix(p)
    ensures AgentPath(p, cwd, false) == p
  {
    assert p == "" + "/" + p[1..] && "" + "/" == "/";
    hide Walk, Start, Anchor;
    RootStart();
    Below("", p[1..], cwd, false);
    AgentPathNames(p, cwd, false);
    if p == "/" {
      assert Walk(true, [], Split("")) == [] by {
        RootWalk();
      }
    } else {
      assert forall i :: 0 <= i < |Split(p[1..])| ==> Split(p[1..])[i] in Split(p[1..]);
      OrdinaryWalk(true, [], Split(p[1..]));
      assert [] + Split(p[1..]) == Split(p[1..]);
      JoinedSplit(p[1..]);
    }
    hide AgentPath, Named, Split, Joined;
  }

  lemma RootWalk()
    ensures Walk(true, [], Split("")) == []
  {
    assert Split("") == [""] && [""][1..] == [];
    assert Walk(true, [], [""]) == Walk(true, [], [""][1..]);
  }

  lemma {:induction false} JoinedSplit(p: string)
    ensures Joined(Split(p)) == p
  {
    if p != "" {
      JoinedSplit(p[1..]);
      var rest := Split(p[1..]);
      if p[0] == '/' {
        assert ([""] + rest)[1..] == rest;
      } else {
        assert ([[p[0]] + rest[0]] + rest[1..])[1..] == rest[1..];
      }
    }
  }

  /** Between clean paths containment is equality or a continued prefix of text. */
  lemma CleanWithin(root: string, p: string)
    requires CleanPosix(root) && CleanPosix(p)
    ensures AgentWithin(root, p, false) <==> p == root || root == "/" || StartsWith(p, root + "/")
  {
    CleanLaw(root, "");
    CleanLaw(p, "");
    if root == "/" {
      assert TrimSlashes("/") == TrimSlashes("") by {
        assert "/"[..0] == "";
      }
      assert "" + "/" == "/";
    } else {
      CleanEnds(root);
      TrimSlashesKeeps(root);
    }
    hide AgentPath, CleanPosix;
  }

  lemma CleanEnds(p: string)
    requires CleanPosix(p) && p != "/"
    ensures |p| > 1 && p[|p| - 1] != '/'
  {
    SplitParts(p[1..]);
    JoinedSplit(p[1..]);
    forall i | 0 <= i < |Split(p[1..])|
      ensures SlashFree(Split(p[1..])[i])
    {
      assert Split(p[1..])[i] in Split(p[1..]);
    }
    JoinedEnd(Split(p[1..]));
    assert p == "/" + p[1..];
  }

  /** A relative path is read below the working directory. */
  lemma RelativeLaw(p: string, cwd: string)
    requires p != "" && cwd != "" && !StartsWith(p, "/")
    ensures AgentPath(p, cwd, false) == AgentPath(cwd + "/" + p, "", false)
  {
    hide Walk, Split;
    AgentPathNames(p, cwd, false);
    AgentPathNames(cwd + "/" + p, "", false);
    hide AgentPath;
  }

  /** The case and the kind of separators do not matter to a Windows path. */
  lemma SeparatorLaw(p: string, cwd: string)
    ensures AgentPath(p, cwd, true) == AgentPath(Forward(p), Forward(cwd), true)
  {
    ForwardHasNone(p);
    ForwardHasNone(cwd);
    ForwardKeeps(Forward(p));
    ForwardKeeps(Forward(cwd));
    hide Forward, Clean, Lower, AgentPathAbs, PathJoin;
  }

  /** A Windows path of ordinary components on a drive keeps them, with its ASCII letters in lower case. */
  lemma CleanDriveLaw(p: string, parts: seq<string>, cwd: string)
    requires |p| == 2 && Letter(p[0]) && p[1] == ':'
    requires parts != [] && forall i :: 0 <= i < |parts| ==> Component(parts[i], true)
    ensures var text, r := p + "/" + Joined(parts), AgentPath(p + "/" + Joined(parts), cwd, true);
            && |r| == |text|
            && forall i :: 0 <= i < |r| ==>
                 r[i] == if 'A' <= text[i] <= 'Z' then (text[i] as int + 32) as char else text[i]
  {
    var x := Joined(parts);
    hide AgentPath, Named, Lower, Walk, Split, LowerAll, Start, Anchor, Read, Joined, Forward, AgentPathAbs;
    ReadParts(parts);
    DriveStart(p);
    Below(p, x, cwd, true);
    DriveComponent(p);
    OrdinaryWalk(false, [p], parts);
    AgentPathNames(p + "/" + x, cwd, true);
    WholeDrive(p, parts);
    LowerJoined([p] + parts);
    LowerAllFacts([p] + parts);
    LowerFacts(p + "/" + x);
  }

  lemma ReadParts(parts: seq<string>)
    requires parts != [] && forall i :: 0 <= i < |parts| ==> Component(parts[i], true)
    ensures Split(Read(Joined(parts), true)) == parts
  {
    assert forall i :: 0 <= i < |parts| ==> SlashFree(parts[i]) && '\\' !in parts[i];
    SplitJoined(parts);
    JoinedHasNoBackslash(parts);
    ForwardKeeps(Joined(parts));
  }

  lemma DriveComponent(p: string)
    requires |p| == 2 && Letter(p[0]) && p[1] == ':'
    ensures Component(p, false)
  {
  }

  lemma DriveStart(p: string)
    requires |p| == 2 && Letter(p[0]) && p[1] == ':'
    ensures AgentPathAbs(p + "/", true) && Start(p, true) == [p] && Anchor(p, true) == 0
  {
    ForwardKeeps(p);
    ForwardKeeps(p + "/");
    assert (p + "/")[0] == p[0] && (p + "/")[2] == '/';
    SplitWhole(p);
    DriveComponent(p);
    assert [] + [p] == [p];
    OrdinaryWalk(false, [], [p]);
    hide Walk, Split, Forward;
  }

  lemma WholeDrive(p: string, parts: seq<string>)
    requires parts != []
    ensures Joined([p] + parts) == p + "/" + Joined(parts)
  {
    JoinedConcat([p], parts);
    assert Joined([p]) == p;
    hide Joined;
  }

  // ---------------------------------------------------------------- leaving a scope

  lemma CleanJoined(parts: seq<string>)
    requires parts != [] && forall i :: 0 <= i < |parts| ==> Component(parts[i], false)
    ensures CleanPosix("/" + Joined(parts)) && Split(Joined(parts)) == parts && "/" + Joined(parts) != "/"
  {
    SplitJoined(parts);
    JoinedStart(parts);
    assert ("/" + Joined(parts))[1..] == Joined(parts);
  }

  /** The directory with the given components, without a final separator. */
  function Directory(front: seq<string>): string {
    if front == [] then "" else "/" + Joined(front)
  }

  lemma InDirectory(front: seq<string>, c: string)
    ensures "/" + Joined(front + [c]) == Directory(front) + "/" + c
  {
    if front != [] {
      JoinedConcat(front, [c]);
    }
  }

  /** A clean root is its last component in the directory before it. */
  lemma Parent(root: string) returns (front: seq<string>, last: string)
    requires CleanPosix(root) && root != "/"
    ensures root == Directory(front) + "/" + last && Split(root[1..]) == front + [last]
    ensures forall i :: 0 <= i < |front| ==> Component(front[i], false)
    ensures Component(last, false)
  {
    var parts := Split(root[1..]);
    JoinedSplit(root[1..]);
    assert root == "/" + root[1..];
    front, last := parts[..|parts| - 1], parts[|parts| - 1];
    assert parts == front + [last];
    assert forall i :: 0 <= i < |parts| ==> parts[i] in parts;
    InDirectory(front, last);
  }

  lemma StartsPointwise(a: string, t: string)
    ensures StartsWith(a, t) ==> |t| <= |a| && forall k :: 0 <= k < |t| ==> a[k] == t[k]
  {
    assert forall k :: 0 <= k < |t| <= |a| ==> a[k] == a[..|t|][k];
  }

  lemma SiblingText(dir: string, own: string, c: string)
    requires own != c && '/' !in c
    ensures dir + "/" + c != dir + "/" + own && !StartsWith(dir + "/" + c, dir + "/" + own + "/")
  {
    var a, b := dir + "/" + c, dir + "/" + own;
    assert a[|dir| + 1..] == c && b[|dir| + 1..] == own;
    assert forall k :: |dir| + 1 <= k < |a| ==> a[k] == c[k - |dir| - 1];
    assert (b + "/")[|b|] == '/';
    StartsPointwise(a, b + "/");
  }

  lemma RootedDirectory(front: seq<string>)
    ensures AgentPathAbs(Directory(front) + "/", false)
  {
    assert (Directory(front) + "/")[0] == '/';
  }

  /** Climbing out of a clean root leads to its sibling, which is outside. */
  lemma SiblingIsOutside(root: string, c: string)
    requires CleanPosix(root) && root != "/" && Component(c, false)
    requires c != Split(root[1..])[|Split(root[1..])| - 1]
    ensures AgentPath(root + "/../" + c, "", false) != root
    ensures !AgentWithin(root, root + "/../" + c, false)
  {
    var front, own := Parent(root);
    var dir := Directory(front);
    var sibling := dir + "/" + c;
    InDirectory(front, c);
    CleanJoined(front + [c]);
    RootedDirectory(front);
    assert root + "/../" + c == dir + "/" + own + "/../" + c;
    UpLaw(dir, own, c, "", false);
    CleanLaw(sibling, "");
    CleanLaw(root, "");
    CleanEnds(root);
    TrimSlashesKeeps(root);
    SiblingText(dir, own, c);
    hide AgentPath, CleanPosix, Split, Directory, StartsWith;
  }

  /** So a remote POSIX agent that asks for a sibling of its only authorised root by way of the root is
      rejected. */
  lemma SiblingIsRejected(scopes: seq<Scope>, s: Scope, a: Access, cwd: string, root: string, c: string)
    requires s in scopes && AgentWithin(s.project, cwd, false) && s.paths == [root]
    requires CleanPosix(root) && root != "/" && Component(c, false)
    requires c != Split(root[1..])[|Split(root[1..])| - 1]
    requires a.fileTool && a.path == root + "/../" + c
    ensures FirstHit(Remote(false), scopes, a, cwd).Some?
  {
    var p := Remote(false);
    NoHitIffAllAllow(p, scopes, a, cwd);
    RemoteReads(false, cwd, cwd, s.project);
    RemoteReads(false, a.path, cwd, "");
    RemoteReads(false, root, cwd, "");
    CleanLaw(root, cwd);
    SiblingIsOutside(root, c);
    var target := AgentPath(a.path, cwd, false);
    RemoteReads(false, target, cwd, root);
    AbsoluteIgnoresDirectory(a.path, cwd);
    NormalisationIsStable(a.path, "", false);
    hide AgentPath, CleanPosix, Split, Remote, FirstHit;
    assert AgentPath(target, "", false) == target;
    assert !AgentWithin(root, target, false);
  }

  lemma AbsoluteIgnoresDirectory(p: string, cwd: string)
    requires StartsWith(p, "/")
    ensures AgentPath(p, cwd, false) == AgentPath(p, "", false)
    ensures KeepsShare(Named(p, "", false))
  {
    hide Clean, Walk, Split;
  }

  // ---------------------------------------------------------------- the check in terms of the scopes' fields

  /** The scope lets the path pass: the tool works on no file, the scope restricts no path, the call names
      none, or one of the authorised roots contains it. */
  predicate PathPasses(p: Reading, s: Scope, a: Access, cwd: string) {
    || !a.fileTool || s.paths == [] || a.path == ""
    || exists i :: 0 <= i < |s.paths| && p.contains(p.resolve(s.paths[i], cwd), p.resolve(a.path, cwd))
  }

  predicate HostsPass(s: Scope, a: Access) {
    s.targets == [] || forall i :: 0 <= i < |a.hosts| ==> a.hosts[i] in s.targets
  }

  lemma FieldsDecide(p: Reading, s: Scope, a: Access, cwd: string)
    ensures PathAllowed(p, s, a, cwd) <==> PathPasses(p, s, a, cwd)
    ensures HostsAllowed(s, a) <==> HostsPass(s, a)
  {
    if HostsPass(s, a) && s.targets != [] {
      forall h | h in a.hosts
        ensures h in s.targets
      {
        var i :| 0 <= i < |a.hosts| && a.hosts[i] == h;
      }
    }
  }

  /** A scope counts when its project contains the working directory; no hit means that path and hosts
      pass every one that counts, and a hit names what does not pass. */
  lemma HitByFields(p: Reading, scopes: seq<Scope>, a: Access, cwd: string)
    ensures FirstHit(p, scopes, a, cwd) == None <==>
              forall i :: 0 <= i < |scopes| && p.contains(scopes[i].project, cwd) ==>
                PathPasses(p, scopes[i], a, cwd) && HostsPass(scopes[i], a)
    ensures FirstHit(p, scopes, a, cwd) == Some(PathOutside) ==>
              exists i :: 0 <= i < |scopes| && p.contains(scopes[i].project, cwd) && !PathPasses(p, scopes[i], a, cwd)
    ensures FirstHit(p, scopes, a, cwd) == Some(TargetOutside) ==>
              exists i :: 0 <= i < |scopes| && p.contains(scopes[i].project, cwd) && !HostsPass(scopes[i], a)
  {
    NoHitIffAllAllow(p, scopes, a, cwd);
    forall s
      ensures PathAllowed(p, s, a, cwd) <==> PathPasses(p, s, a, cwd)
      ensures HostsAllowed(s, a) <==> HostsPass(s, a)
    {
      FieldsDecide(p, s, a, cwd);
    }
    hide PathAllowed, HostsAllowed, PathPasses, HostsPass, FirstHit;
    if FirstHit(p, scopes, a, cwd) == None {
      assert forall i :: 0 <= i < |scopes| ==> scopes[i] in scopes;
    } else {
      var k := HitIsFirstObjection(p, scopes, a, cwd);
      assert p.contains(scopes[k].project, cwd);
    }
  }
}
