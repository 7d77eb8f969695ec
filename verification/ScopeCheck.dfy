/** The scope check of a submission: which scopes govern a working directory, and what they allow. */
module ScopeCheck {
  import opened Common
  import opened Reviews
  import A = AgentPaths

  /** What the check reads of a call: whether its tool works on files, the path argument if any, and
      the lower-case hosts of its url, host and target arguments, in that order. */
  datatype Access = Access(fileTool: bool, path: string, hosts: seq<string>)

  /** How paths are read: resolution below a working directory, and containment. */
  datatype Reading = Reading(resolve: (string, string) -> string, contains: (string, string) -> bool)

  predicate Governs(p: Reading, s: Scope, cwd: string) {
    p.contains(s.project, cwd)
  }

  predicate ChecksPath(s: Scope, a: Access) {
    a.fileTool && s.paths != [] && a.path != ""
  }

  predicate Reachable(p: Reading, roots: seq<string>, path: string, cwd: string) {
    exists root :: root in roots && p.contains(p.resolve(root, cwd), path)
  }

  predicate PathAllowed(p: Reading, s: Scope, a: Access, cwd: string) {
    ChecksPath(s, a) ==> Reachable(p, s.paths, p.resolve(a.path, cwd), cwd)
  }

  predicate HostsAllowed(s: Scope, a: Access) {
    s.targets != [] ==> forall h :: h in a.hosts ==> h in s.targets
  }

  /** What one scope says; the path is checked before the hosts. */
  function HitOf(p: Reading, s: Scope, a: Access, cwd: string): Option<ScopeHit> {
    if !Governs(p, s, cwd) then None
    else if !PathAllowed(p, s, a, cwd) then Some(PathOutside)
    else if !HostsAllowed(s, a) then Some(TargetOutside)
    else None
  }

  function FirstHit(p: Reading, scopes: seq<Scope>, a: Access, cwd: string): Option<ScopeHit> {
    if scopes == [] then None
    else if HitOf(p, scopes[0], a, cwd).Some? then HitOf(p, scopes[0], a, cwd)
    else FirstHit(p, scopes[1..], a, cwd)
  }

  method PathReachable(p: Reading, roots: seq<string>, path: string, cwd: string) returns (ok: bool)
    ensures ok == Reachable(p, roots, path, cwd)
  {
    ok := false;
    for i := 0 to |roots|
      invariant ok <==> exists j :: 0 <= j < i && p.contains(p.resolve(roots[j], cwd), path)
    {
      if p.contains(p.resolve(roots[i], cwd), path) {
        ok := true;
      }
    }
  }

  method HostOutside(hosts: seq<string>, targets: seq<string>) returns (outside: bool)
    ensures outside <==> exists h :: h in hosts && h !in targets
  {
    for i := 0 to |hosts|
      invariant forall j :: 0 <= j < i ==> hosts[j] in targets
    {
      if hosts[i] !in targets {
        return true;
      }
    }
    return false;
  }

  /** The loop over the scopes: the first that governs the directory and objects decides. */
  method CheckScopePaths(p: Reading, scopes: seq<Scope>, a: Access, cwd: string) returns (hit: Option<ScopeHit>)
    ensures hit == FirstHit(p, scopes, a, cwd)
  {
    hide Reachable;
    for i := 0 to |scopes|
      invariant FirstHit(p, scopes[i..], a, cwd) == FirstHit(p, scopes, a, cwd)
    {
      var s := scopes[i];
      assert scopes[i..][0] == s && scopes[i..][1..] == scopes[i + 1..];
      if !p.contains(s.project, cwd) {
        continue;
      }
      if a.fileTool && s.paths != [] && a.path != "" {
        var ok := PathReachable(p, s.paths, p.resolve(a.path, cwd), cwd);
        if !ok {
          return Some(PathOutside);
        }
      }
      if s.targets != [] {
        var outside := HostOutside(a.hosts, s.targets);
        if outside {
          return Some(TargetOutside);
        }
      }
    }
    return None;
  }

  /** No scope objects exactly when every governing scope allows the path and all hosts. */
  lemma {:induction false} NoHitIffAllAllow(p: Reading, scopes: seq<Scope>, a: Access, cwd: string)
    ensures FirstHit(p, scopes, a, cwd) == None <==>
              forall s :: s in scopes && Governs(p, s, cwd) ==> PathAllowed(p, s, a, cwd) && HostsAllowed(s, a)
  {
    if scopes != [] {
      hide PathAllowed, HostsAllowed, Governs;
      assert scopes == [scopes[0]] + scopes[1..];
      NoHitIffAllAllow(p, scopes[1..], a, cwd);
    }
  }

  /** The decision is the objection of the first governing scope that has one. */
  lemma {:induction false} HitIsFirstObjection(p: Reading, scopes: seq<Scope>, a: Access, cwd: string) returns (k: nat)
    requires FirstHit(p, scopes, a, cwd).Some?
    ensures k < |scopes| && HitOf(p, scopes[k], a, cwd) == FirstHit(p, scopes, a, cwd)
    ensures forall j :: 0 <= j < k ==> HitOf(p, scopes[j], a, cwd) == None
  {
    hide HitOf;
    if HitOf(p, scopes[0], a, cwd).Some? {
      k := 0;
    } else {
      var i := HitIsFirstObjection(p, scopes[1..], a, cwd);
      k := i + 1;
      assert forall j :: 0 < j < k ==> scopes[j] == scopes[1..][j - 1];
    }
  }

  /** More scopes never lift a rejection. */
  lemma MoreScopesRejectMore(p: Reading, fewer: seq<Scope>, more: seq<Scope>, a: Access, cwd: string)
    requires forall s :: s in fewer ==> s in more
    requires FirstHit(p, fewer, a, cwd).Some?
    ensures FirstHit(p, more, a, cwd).Some?
  {
    NoHitIffAllAllow(p, fewer, a, cwd);
    NoHitIffAllAllow(p, more, a, cwd);
    hide PathAllowed, HostsAllowed, Governs, FirstHit;
  }

  // ---------------------------------------------------------------- remote agents

  /** Paths of a remote agent are read by text, for its platform. */
  function Remote(windows: bool): Reading {
    Reading((p, cwd) => A.AgentPath(p, cwd, windows), (root, p) => A.AgentWithin(root, p, windows))
  }

  lemma RemoteReads(windows: bool, p: string, cwd: string, root: string)
    ensures Remote(windows).resolve(p, cwd) == A.AgentPath(p, cwd, windows)
    ensures Remote(windows).contains(root, p) == A.AgentWithin(root, p, windows)
  {
    hide A.AgentPath, A.AgentWithin;
  }

  /** What SaveScope demands of the paths of a remote scope. */
  predicate AbsolutePaths(s: Scope, windows: bool) {
    forall r :: r in s.paths ==> A.AgentPathAbs(r, windows)
  }

  /** A file access of a remote agent that no scope rejects stays, in every governing scope with
      authorised paths, below one of them, however its dot-dots run: what the path names is contained
      in what the root names, unless the root itself is cut short of its server and share. */
  lemma PermittedPathIsContained(windows: bool, scopes: seq<Scope>, a: Access, cwd: string, s: Scope)
    returns (root: string)
    requires FirstHit(Remote(windows), scopes, a, cwd) == None
    requires s in scopes && A.AgentWithin(s.project, cwd, windows) && ChecksPath(s, a) && AbsolutePaths(s, windows)
    ensures root in s.paths
    ensures A.Contains(A.Settled(A.Named(root, cwd, windows)), A.Settled(A.Named(a.path, cwd, windows)))
    ensures A.KeepsShare(A.Named(root, cwd, windows)) ==>
              A.Contains(A.Named(root, cwd, windows), A.Named(a.path, cwd, windows))
  {
    hide A.AgentPath, A.AgentWithin, A.AgentPathAbs, A.Named, A.Contains, A.Settled, A.KeepsShare, Remote;
    var p := Remote(windows);
    NoHitIffAllAllow(p, scopes, a, cwd);
    RemoteReads(windows, cwd, cwd, s.project);
    RemoteReads(windows, a.path, cwd, "");
    assert Governs(p, s, cwd) && PathAllowed(p, s, a, cwd);
    root :| root in s.paths && p.contains(p.resolve(root, cwd), p.resolve(a.path, cwd));
    RemoteReads(windows, root, cwd, "");
    RemoteReads(windows, p.resolve(a.path, cwd), cwd, p.resolve(root, cwd));
    A.ScopeCheckIsContainment(root, a.path, cwd, windows);
    if A.KeepsShare(A.Named(root, cwd, windows)) {
      A.AbsoluteRootDecides(root, a.path, cwd, windows);
    }
  }
}
