/** Paths reported by remote agents: normalisation by text, and what containment means on components. */
module AgentPaths {
  // ---------------------------------------------------------------- text

  function Split(p: string): (parts: seq<string>)
    ensures |parts| > 0
  {
    if p == "" then [""]
    else if p[0] == '/' then [""] + Split(p[1..])
    else
      var rest := Split(p[1..]);
      [[p[0]] + rest[0]] + rest[1..]
  }

  function Joined(parts: seq<string>): string {
    if parts == [] then "" else if |parts| == 1 then parts[0] else parts[0] + "/" + Joined(parts[1..])
  }

  predicate StartsWith(s: string, t: string) {
    |t| <= |s| && s[..|t|] == t
  }

  function TrimSlashes(s: string): string {
    if s != "" && s[|s| - 1] == '/' then TrimSlashes(s[..|s| - 1]) else s
  }

  function Forward(s: string): string {
    if s == "" then "" else [if s[0] == '\\' then '/' else s[0]] + Forward(s[1..])
  }

  function LowerChar(c: char): char {
    if 'A' <= c <= 'Z' then (c as int + 32) as char else c
  }

  function Lower(s: string): string {
    if s == "" then "" else [LowerChar(s[0])] + Lower(s[1..])
  }

  function LowerAll(parts: seq<string>): seq<string> {
    if parts == [] then [] else [Lower(parts[0])] + LowerAll(parts[1..])
  }

  // ---------------------------------------------------------------- path.Clean and path.Join

  /** One component from the current directory. */
  function Enter(rooted: bool, at: seq<string>, c: string): seq<string> {
    if c == "" || c == "." then at
    else if c == ".." then
      if at != [] && at[|at| - 1] != ".." then at[..|at| - 1] else if rooted then at else at + [c]
    else at + [c]
  }

  function Walk(rooted: bool, at: seq<string>, parts: seq<string>): seq<string>
    decreases |parts|
  {
    if parts == [] then at else Walk(rooted, Enter(rooted, at, parts[0]), parts[1..])
  }

  function Clean(p: string): string {
    var rooted := StartsWith(p, "/");
    var at := Walk(rooted, [], Split(p));
    if rooted then "/" + Joined(at) else if at == [] then "." else Joined(at)
  }

  function PathJoin(a: string, b: string): string {
    if a == "" then if b == "" then "" else Clean(b) else if b == "" then Clean(a) else Clean(a + "/" + b)
  }

  // ---------------------------------------------------------------- the agent's functions

  predicate Letter(c: char) {
    'A' <= c <= 'Z' || 'a' <= c <= 'z'
  }

  predicate Drive(p: string) {
    |p| >= 3 && Letter(p[0]) && p[1] == ':' && p[2] == '/'
  }

  predicate Share(p: string) {
    && StartsWith(p, "//")
    && var parts := Split(p[2..]);
       |parts| >= 2 && parts[0] != "" && parts[0] != "?" && parts[1] != ""
  }

  predicate AgentPathAbs(p: string, windows: bool) {
    if !windows then StartsWith(p, "/") else Drive(Forward(p)) || Share(Forward(p))
  }

  function AgentPath(p: string, cwd: string, windows: bool): string {
    if p == "" then ""
    else
      var p1 := if windows then Forward(p) else p;
      var cwd1 := if windows then Forward(cwd) else cwd;
      var p2 := if AgentPathAbs(p1, windows) then p1 else PathJoin(cwd1, p1);
      var p3 := if windows && StartsWith(p2, "//") then "/" + Clean(p2) else Clean(p2);
      if windows then Lower(p3) else p3
  }

  predicate AgentWithin(root: string, p: string, windows: bool) {
    var r, q := AgentPath(root, "", windows), AgentPath(p, "", windows);
    q == r || StartsWith(q, TrimSlashes(r) + "/")
  }

  // ---------------------------------------------------------------- what a path names

  /** A normalised path: nothing, or a number of leading slashes and the components entered. */
  datatype Place = Nowhere | Place(lead: nat, parts: seq<string>)

  function Rendered(f: Place): string {
    match f
    case Nowhere => ""
    case Place(lead, parts) =>
      if lead == 0 then if parts == [] then "." else Joined(parts)
      else if lead == 1 then "/" + Joined(parts)
      else "//" + Joined(parts)
  }

  /** The text whose components are walked: the path itself, or below the working directory. */
  function Raw(p: string, cwd: string, windows: bool): string {
    var p1 := if windows then Forward(p) else p;
    var cwd1 := if windows then Forward(cwd) else cwd;
    if AgentPathAbs(p1, windows) || cwd1 == "" then p1 else cwd1 + "/" + p1
  }

  predicate IsShare(p: string, windows: bool) {
    windows && Share(Forward(p))
  }

  function Named(p: string, cwd: string, windows: bool): Place {
    if p == "" then Nowhere
    else
      var raw := Raw(p, cwd, windows);
      var at := Walk(StartsWith(raw, "/"), [], Split(raw));
      Place(if IsShare(p, windows) then 2 else if StartsWith(raw, "/") then 1 else 0,
            if windows then LowerAll(at) else at)
  }

  /** Containment of places: component prefix under the same anchor; a root directory contains
      everything rooted, the unresolved "." only itself, and no path at all everything rooted. */
  predicate Contains(root: Place, p: Place) {
    if root == Nowhere then p == Nowhere || Anchored(p)
    else if p == Nowhere then false
    else if root.parts == [] then if root.lead == 0 then p == root else Anchored(p)
    else root.lead == p.lead && root.parts <= p.parts
  }

  predicate Anchored(p: Place) {
    p.Place? && p.lead > 0
  }

  // ---------------------------------------------------------------- components and text

  predicate SlashFree(c: string) {
    c != "" && '/' !in c
  }

  /** Components as Walk leaves them. */
  predicate Resolved(rooted: bool, at: seq<string>) {
    && (forall i :: 0 <= i < |at| ==> SlashFree(at[i]) && at[i] != ".")
    && (forall i :: 0 <= i < |at| && at[i] == ".." ==> !rooted && (i > 0 ==> at[i - 1] == ".."))
  }

  predicate WellNamed(f: Place) {
    f.Place? ==> f.lead <= 2 && Resolved(f.lead > 0, f.parts)
  }

  lemma {:induction false} SplitAppend(a: string, b: string)
    ensures Split(a + "/" + b) == Split(a) + Split(b)
  {
    if a == "" {
      assert ("" + "/" + b)[1..] == b;
    } else {
      var whole := a + "/" + b;
      assert whole[0] == a[0] && whole[1..] == a[1..] + "/" + b;
      SplitAppend(a[1..], b);
    }
  }

  lemma {:induction false} SplitWhole(c: string)
    requires '/' !in c
    ensures Split(c) == [c]
  {
    if c != "" {
      assert c == [c[0]] + c[1..];
      SplitWhole(c[1..]);
    }
  }

  lemma {:induction false} SplitParts(p: string)
    ensures forall i :: 0 <= i < |Split(p)| ==> '/' !in Split(p)[i]
  {
    if p != "" {
      SplitParts(p[1..]);
    }
  }

  lemma {:induction false} SplitJoined(parts: seq<string>)
    requires parts != [] && forall i :: 0 <= i < |parts| ==> SlashFree(parts[i])
    ensures Split(Joined(parts)) == parts
  {
    SplitWhole(parts[0]);
    if |parts| > 1 {
      SplitJoined(parts[1..]);
      SplitAppend(parts[0], Joined(parts[1..]));
    }
  }

  lemma {:induction false} JoinedConcat(a: seq<string>, b: seq<string>)
    requires a != [] && b != []
    ensures Joined(a + b) == Joined(a) + "/" + Joined(b)
  {
    if |a| == 1 {
      assert (a + b)[1..] == b;
    } else {
      assert (a + b)[1..] == a[1..] + b;
      JoinedConcat(a[1..], b);
    }
  }

  lemma EnterResolved(rooted: bool, at: seq<string>, c: string)
    requires Resolved(rooted, at) && '/' !in c
    ensures Resolved(rooted, Enter(rooted, at, c))
  {
  }

  lemma {:induction false} WalkResolved(rooted: bool, at: seq<string>, parts: seq<string>)
    requires Resolved(rooted, at) && forall i :: 0 <= i < |parts| ==> '/' !in parts[i]
    ensures Resolved(rooted, Walk(rooted, at, parts))
    decreases |parts|
  {
    if parts != [] {
      EnterResolved(rooted, at, parts[0]);
      hide Resolved, Enter;
      WalkResolved(rooted, Enter(rooted, at, parts[0]), parts[1..]);
    }
  }

  /** Walking resolved components from the start leads exactly to them. */
  lemma {:induction false} WalkIsIdentity(rooted: bool, at: seq<string>, parts: seq<string>)
    requires Resolved(rooted, at + parts)
    ensures Walk(rooted, at, parts) == at + parts
    decreases |parts|
  {
    if parts == [] {
      assert at + parts == at;
    } else {
      assert (at + parts)[|at|] == parts[0];
      assert at != [] ==> (at + parts)[|at| - 1] == at[|at| - 1];
      assert Enter(rooted, at, parts[0]) == at + [parts[0]];
      assert (at + [parts[0]]) + parts[1..] == at + parts;
      WalkIsIdentity(rooted, at + [parts[0]], parts[1..]);
    }
  }

  lemma {:induction false} WalkConcat(rooted: bool, at: seq<string>, a: seq<string>, b: seq<string>)
    ensures Walk(rooted, at, a + b) == Walk(rooted, Walk(rooted, at, a), b)
    decreases |a|
  {
    if a == [] {
      assert a + b == b;
    } else {
      assert (a + b)[1..] == a[1..] + b;
      WalkConcat(rooted, Enter(rooted, at, a[0]), a[1..], b);
    }
  }

  // ---------------------------------------------------------------- cleaning

  function CleanText(rooted: bool, at: seq<string>): string {
    if rooted then "/" + Joined(at) else if at == [] then "." else Joined(at)
  }

  lemma JoinedStart(at: seq<string>)
    requires at != [] && SlashFree(at[0])
    ensures Joined(at) != "" && Joined(at)[0] != '/'
  {
    assert at[0][0] in at[0];
  }

  lemma {:induction false} JoinedEnd(at: seq<string>)
    requires at != [] && forall i :: 0 <= i < |at| ==> SlashFree(at[i])
    ensures Joined(at) != "" && Joined(at)[|Joined(at)| - 1] != '/'
  {
    if |at| == 1 {
      assert at[0][|at[0]| - 1] in at[0];
    } else {
      JoinedEnd(at[1..]);
    }
  }

  /** Walking the text of resolved components gives the components back. */
  lemma CleanTextWalks(rooted: bool, at: seq<string>)
    requires Resolved(rooted, at)
    ensures StartsWith(CleanText(rooted, at), "/") == rooted && !StartsWith(CleanText(rooted, at), "//")
    ensures Walk(rooted, [], Split(CleanText(rooted, at))) == at
  {
    if at != [] {
      SplitJoined(at);
      JoinedStart(at);
      assert [] + at == at;
      WalkIsIdentity(rooted, [], at);
    }
    if rooted {
      RootedWalk(Joined(at));
      if at == [] {
        assert Walk(true, [], [""]) == Walk(true, [], [""][1..]);
      }
    } else if at == [] {
      SplitWhole(".");
      assert ["."][1..] == [];
    }
  }

  lemma RootedWalk(rest: string)
    ensures Walk(true, [], Split("/" + rest)) == Walk(true, [], Split(rest))
  {
    assert ("/" + rest)[1..] == rest;
    assert Split("/" + rest)[1..] == Split(rest);
  }

  lemma CleanIsText(p: string)
    ensures var rooted := StartsWith(p, "/");
            var at := Walk(rooted, [], Split(p));
            Resolved(rooted, at) && Clean(p) == CleanText(rooted, at)
  {
    SplitParts(p);
    WalkResolved(StartsWith(p, "/"), [], Split(p));
  }

  lemma CleanIsIdempotent(p: string)
    ensures Clean(Clean(p)) == Clean(p) && !StartsWith(Clean(p), "//")
  {
    CleanIsText(p);
    hide Clean, Walk, CleanText, Split, Resolved;
    var rooted := StartsWith(p, "/");
    CleanTextWalks(rooted, Walk(rooted, [], Split(p)));
    CleanIsText(Clean(p));
  }

  // ---------------------------------------------------------------- characters

  predicate NoBackslash(parts: seq<string>) {
    forall i :: 0 <= i < |parts| ==> '\\' !in parts[i]
  }

  predicate Folded(parts: seq<string>) {
    NoBackslash(parts) && LowerAll(parts) == parts
  }

  lemma {:induction false} ForwardHasNone(s: string)
    ensures '\\' !in Forward(s) && |Forward(s)| == |s|
  {
    if s != "" {
      ForwardHasNone(s[1..]);
    }
  }

  lemma {:induction false} ForwardKeeps(s: string)
    requires '\\' !in s
    ensures Forward(s) == s
  {
    if s != "" {
      ForwardKeeps(s[1..]);
    }
  }

  lemma {:induction false} LowerFacts(s: string)
    ensures |Lower(s)| == |s| && Lower(Lower(s)) == Lower(s)
    ensures forall i :: 0 <= i < |s| ==> Lower(s)[i] == LowerChar(s[i])
  {
    if s != "" {
      LowerFacts(s[1..]);
    }
  }

  lemma {:induction false} LowerConcat(a: string, b: string)
    ensures Lower(a + b) == Lower(a) + Lower(b)
  {
    if a == "" {
      assert a + b == b;
    } else {
      assert (a + b)[1..] == a[1..] + b;
      LowerConcat(a[1..], b);
    }
  }

  lemma {:induction false} LowerAllFacts(parts: seq<string>)
    ensures |LowerAll(parts)| == |parts| && forall i :: 0 <= i < |parts| ==> LowerAll(parts)[i] == Lower(parts[i])
  {
    if parts != [] {
      LowerAllFacts(parts[1..]);
    }
  }

  lemma {:induction false} LowerJoined(parts: seq<string>)
    ensures Lower(Joined(parts)) == Joined(LowerAll(parts))
  {
    LowerAllFacts(parts);
    if |parts| > 1 {
      LowerJoined(parts[1..]);
      LowerConcat(parts[0] + "/", Joined(parts[1..]));
      LowerConcat(parts[0], "/");
      assert LowerAll(parts)[1..] == LowerAll(parts[1..]);
    }
  }

  lemma LowerPart(c: string)
    ensures SlashFree(c) ==> SlashFree(Lower(c))
    ensures '\\' !in c ==> '\\' !in Lower(c)
    ensures (Lower(c) == "." <==> c == ".") && (Lower(c) == ".." <==> c == "..")
    ensures Lower(Lower(c)) == Lower(c)
  {
    LowerFacts(c);
    forall i | 0 <= i < |c|
      ensures (Lower(c)[i] == '/' <==> c[i] == '/') && (Lower(c)[i] == '\\' <==> c[i] == '\\')
    {
    }
    hide Lower;
    assert Lower(c) == "." <==> |c| == 1 && Lower(c)[0] == '.';
    assert Lower(c) == ".." <==> |c| == 2 && Lower(c)[0] == '.' && Lower(c)[1] == '.';
  }

  /** Folding case keeps components resolved and is final. */
  lemma LowerKeepsResolved(rooted: bool, at: seq<string>)
    requires Resolved(rooted, at) && NoBackslash(at)
    ensures Resolved(rooted, LowerAll(at)) && Folded(LowerAll(at))
  {
    LowerAllFacts(at);
    LowerAllFacts(LowerAll(at));
    hide Lower, LowerAll, SlashFree;
    forall i | 0 <= i < |at|
      ensures SlashFree(LowerAll(at)[i]) && LowerAll(at)[i] != "." && '\\' !in LowerAll(at)[i]
      ensures LowerAll(at)[i] == ".." <==> at[i] == ".."
      ensures LowerAll(LowerAll(at))[i] == LowerAll(at)[i]
    {
      LowerPart(at[i]);
    }
  }

  lemma {:induction false} SplitChars(p: string, c: char)
    requires c !in p
    ensures forall i :: 0 <= i < |Split(p)| ==> c !in Split(p)[i]
  {
    if p != "" {
      SplitChars(p[1..], c);
    }
  }

  lemma {:induction false} WalkNoBackslash(rooted: bool, at: seq<string>, parts: seq<string>)
    requires NoBackslash(at) && NoBackslash(parts)
    ensures NoBackslash(Walk(rooted, at, parts))
    decreases |parts|
  {
    if parts != [] {
      WalkNoBackslash(rooted, Enter(rooted, at, parts[0]), parts[1..]);
    }
  }

  // ---------------------------------------------------------------- normalisation

  /** A reported path keeps its share when, after resolving dot-dots, a server and a share remain. */
  predicate KeepsShare(f: Place) {
    f.Place? && f.lead == 2 ==> |f.parts| >= 2 && f.parts[0] != "?"
  }

  predicate Proper(f: Place, windows: bool) {
    WellNamed(f) && (f.Place? && windows ==> Folded(f.parts)) && (f.Place? && f.lead == 2 ==> windows)
  }

  lemma RawFacts(p: string, cwd: string, windows: bool)
    requires p != ""
    ensures Raw(p, cwd, windows) != ""
    ensures windows ==> '\\' !in Raw(p, cwd, windows)
    ensures IsShare(p, windows) ==> StartsWith(Raw(p, cwd, windows), "//")
    ensures windows && Drive(Forward(p)) ==> !StartsWith(Raw(p, cwd, windows), "//")
    ensures AgentPathAbs(if windows then Forward(p) else p, windows) <==> AgentPathAbs(p, windows)
  {
    ForwardHasNone(p);
    ForwardHasNone(cwd);
    ForwardKeeps(Forward(p));
    hide Forward, Split;
  }

  lemma WalkedParts(raw: string, windows: bool)
    requires windows ==> '\\' !in raw
    ensures var rooted := StartsWith(raw, "/");
            var at := Walk(rooted, [], Split(raw));
            var parts := if windows then LowerAll(at) else at;
            Resolved(rooted, parts) && (windows ==> Folded(parts))
  {
    CleanIsText(raw);
    if windows {
      SplitChars(raw, '\\');
      var rooted := StartsWith(raw, "/");
      WalkNoBackslash(rooted, [], Split(raw));
      hide *;
      LowerKeepsResolved(rooted, Walk(rooted, [], Split(raw)));
    }
  }

  lemma NamedIsProper(p: string, cwd: string, windows: bool)
    ensures Proper(Named(p, cwd, windows), windows)
  {
    if p != "" {
      RawFacts(p, cwd, windows);
      assert IsShare(p, windows) ==> windows && StartsWith(Raw(p, cwd, windows), "/") by {
        hide Raw, Share, Forward;
      }
      hide Raw, Walk, Split, LowerAll, Resolved, Folded, IsShare, StartsWith;
      WalkedParts(Raw(p, cwd, windows), windows);
    }
  }

  lemma LowerCleanText(rooted: bool, at: seq<string>)
    ensures Lower(CleanText(rooted, at)) == CleanText(rooted, LowerAll(at))
    ensures Lower("/" + CleanText(true, at)) == "//" + Joined(LowerAll(at))
  {
    LowerJoined(at);
    LowerConcat("/", Joined(at));
    LowerConcat("/", "/" + Joined(at));
    LowerAllFacts(at);
  }

  /** What path.Join and the two cleanings do to a path that is not absolute. */
  lemma JoinedPath(p: string, cwd: string, windows: bool)
    requires p != "" && !AgentPathAbs(p, windows)
    ensures var p1, cwd1 := if windows then Forward(p) else p, if windows then Forward(cwd) else cwd;
            var p2 := PathJoin(cwd1, p1);
            p2 == Clean(Raw(p, cwd, windows)) && Clean(p2) == p2 && !StartsWith(p2, "//")
  {
    ForwardHasNone(p);
    RawFacts(p, cwd, windows);
    CleanIsIdempotent(Raw(p, cwd, windows));
    hide Clean, Forward;
  }

  /** The text form of the normalised path is exactly the rendered place. */
  lemma AgentPathNames(p: string, cwd: string, windows: bool)
    ensures AgentPath(p, cwd, windows) == Rendered(Named(p, cwd, windows))
  {
    if p != "" {
      var raw := Raw(p, cwd, windows);
      var rooted := StartsWith(raw, "/");
      var at := Walk(rooted, [], Split(raw));
      RawFacts(p, cwd, windows);
      CleanIsText(raw);
      LowerCleanText(rooted, at);
      if AgentPathAbs(p, windows) {
        if windows {
          ForwardKeeps(raw);
        }
      } else {
        JoinedPath(p, cwd, windows);
      }
      hide Walk, Split, Clean, Forward, Lower, LowerAll, Joined, Resolved, PathJoin;
    }
  }

  // ---------------------------------------------------------------- naming a rendered place

  lemma ShareOfRendered(f: Place)
    requires WellNamed(f) && f.Place?
    ensures Share(Rendered(f)) <==> f.lead == 2 && KeepsShare(f)
  {
    CleanTextWalks(f.lead > 0, f.parts);
    if f.lead == 2 {
      assert Rendered(f)[2..] == Joined(f.parts);
      if f.parts != [] {
        SplitJoined(f.parts);
      }
    }
    hide Walk, Resolved;
  }

  lemma RenderedHasNoBackslash(f: Place)
    requires f.Place? && NoBackslash(f.parts)
    ensures '\\' !in Rendered(f)
  {
    JoinedHasNoBackslash(f.parts);
  }

  lemma {:induction false} JoinedHasNoBackslash(parts: seq<string>)
    requires NoBackslash(parts)
    ensures '\\' !in Joined(parts)
  {
    if |parts| > 1 {
      JoinedHasNoBackslash(parts[1..]);
    }
  }

  /** Naming the text of a place again gives the place, except that a share cut down to less than a
      server and a share loses one leading slash. */
  lemma NamedOfRendered(f: Place, windows: bool)
    requires Proper(f, windows)
    ensures Named(Rendered(f), "", windows) == if KeepsShare(f) then f else f.(lead := 1)
  {
    if f != Nowhere {
      var text := Rendered(f);
      CleanTextWalks(f.lead > 0, f.parts);
      ShareOfRendered(f);
      if windows {
        RenderedHasNoBackslash(f);
        ForwardKeeps(text);
      }
      RenderedNotEmpty(f);
      assert Raw(text, "", windows) == text;
      if f.lead == 2 {
        RootedWalk("/" + Joined(f.parts));
        assert "/" + ("/" + Joined(f.parts)) == text;
      }
      hide Walk, Split, Forward, Resolved, Raw, AgentPathAbs, Share, LowerAll, NoBackslash;
    }
  }

  lemma RenderedNotEmpty(f: Place)
    requires f.Place? && WellNamed(f)
    ensures Rendered(f) != ""
  {
    if f.parts != [] {
      JoinedStart(f.parts);
    }
  }

  /** Normalising a normalised path changes nothing, exactly when a reported share keeps its server
      and share; POSIX and drive paths always qualify. */
  lemma NormalisationIsStable(p: string, cwd: string, windows: bool)
    ensures AgentPath(AgentPath(p, cwd, windows), "", windows) == AgentPath(p, cwd, windows)
            <==> KeepsShare(Named(p, cwd, windows))
  {
    var f := Named(p, cwd, windows);
    NamedIsProper(p, cwd, windows);
    AgentPathNames(p, cwd, windows);
    AgentPathNames(Rendered(f), "", windows);
    NamedOfRendered(f, windows);
    hide Named, AgentPath, Proper;
    if !KeepsShare(f) {
      assert |Rendered(f)| == |Rendered(f.(lead := 1))| + 1;
    }
  }

  // ---------------------------------------------------------------- containment

  predicate Parts(parts: seq<string>) {
    forall i :: 0 <= i < |parts| ==> SlashFree(parts[i])
  }

  lemma ContinuedParts(r: seq<string>, q: seq<string>)
    requires r != [] && q != [] && Parts(r) && Parts(q) && StartsWith(Joined(q), Joined(r) + "/")
    ensures r <= q
  {
    SplitJoined(r);
    SplitJoined(q);
    var text := Joined(r);
    var rest := Joined(q)[|text| + 1..];
    assert Joined(q) == text + "/" + rest;
    hide Joined, Parts, Split;
    SplitAppend(text, rest);
    assert q == r + Split(rest);
  }

  lemma ContinuedText(r: seq<string>, q: seq<string>)
    requires r != [] && r <= q && r != q
    ensures StartsWith(Joined(q), Joined(r) + "/")
  {
    var rest := q[|r|..];
    assert q == r + rest;
    hide Joined;
    JoinedConcat(r, rest);
    assert StartsWith(Joined(r) + "/" + Joined(rest), Joined(r) + "/");
  }

  lemma EqualText(r: seq<string>, q: seq<string>)
    requires r != [] && q != [] && Parts(r) && Parts(q) && Joined(q) == Joined(r)
    ensures q == r
  {
    SplitJoined(r);
    SplitJoined(q);
  }

  /** One joined path continues another after a slash exactly when its components continue the other's. */
  lemma JoinedPrefix(r: seq<string>, q: seq<string>)
    requires r != [] && q != [] && Parts(r) && Parts(q)
    ensures Joined(q) == Joined(r) || StartsWith(Joined(q), Joined(r) + "/") <==> r <= q
  {
    hide Joined, Parts, StartsWith;
    if Joined(q) == Joined(r) {
      EqualText(r, q);
    } else if StartsWith(Joined(q), Joined(r) + "/") {
      ContinuedParts(r, q);
    } else if r <= q {
      ContinuedText(r, q);
    }
  }

  lemma TrimSlashesKeeps(s: string)
    requires s != "" && s[|s| - 1] != '/'
    ensures TrimSlashes(s) == s
  {
  }

  lemma TrimmedRendering(f: Place)
    requires WellNamed(f)
    ensures TrimSlashes(Rendered(f)) == if f == Nowhere || (f.lead > 0 && f.parts == []) then "" else Rendered(f)
  {
    if f.Place? {
      if f.parts != [] {
        JoinedEnd(f.parts);
        assert Rendered(f)[|Rendered(f)| - 1] == Joined(f.parts)[|Joined(f.parts)| - 1];
        TrimSlashesKeeps(Rendered(f));
      } else if f.lead == 2 {
        assert "//"[..1] == "/";
        assert TrimSlashes("//") == TrimSlashes("/");
      }
    }
  }

  /** How many slashes a rendered place starts with. */
  lemma LeadOfRendered(f: Place)
    requires WellNamed(f)
    ensures StartsWith(Rendered(f), "/") <==> Anchored(f)
    ensures StartsWith(Rendered(f), "//") <==> f.Place? && f.lead == 2
  {
    if f.Place? {
      CleanTextWalks(f.lead > 0, f.parts);
      hide Walk, Split, Resolved;
    }
  }

  lemma SamePrefix(lead: string, a: string, b: string)
    ensures StartsWith(lead + a, lead + b) <==> StartsWith(a, b)
    ensures lead + a == lead + b <==> a == b
  {
    if StartsWith(lead + a, lead + b) {
      assert a == (lead + a)[|lead|..] && b == (lead + b)[|lead|..];
      assert a[..|b|] == (lead + a)[|lead|..|lead| + |b|];
    }
    if StartsWith(a, b) {
      assert (lead + a)[..|lead + b|] == lead + a[..|b|];
    }
    if lead + a == lead + b {
      assert a == (lead + a)[|lead|..] && b == (lead + b)[|lead|..];
    }
  }

  /** The textual prefix test on rendered places is containment of places. */
  lemma TextualContainment(f: Place, g: Place)
    requires WellNamed(f) && WellNamed(g)
    ensures Rendered(g) == Rendered(f) || StartsWith(Rendered(g), TrimSlashes(Rendered(f)) + "/") <==> Contains(f, g)
  {
    TrimmedRendering(f);
    LeadOfRendered(f);
    LeadOfRendered(g);
    if f == Nowhere || g == Nowhere || (f.lead > 0 && f.parts == []) {
      EmptyRootContains(f, g);
    } else if f.parts == [] {
      DotContains(g);
    } else {
      PartsContain(f, g);
    }
  }

  lemma EmptyRootContains(f: Place, g: Place)
    requires WellNamed(f) && WellNamed(g) && (f == Nowhere || g == Nowhere || (f.lead > 0 && f.parts == []))
    ensures Rendered(g) == Rendered(f) || StartsWith(Rendered(g), TrimSlashes(Rendered(f)) + "/") <==> Contains(f, g)
  {
    TrimmedRendering(f);
    LeadOfRendered(f);
    LeadOfRendered(g);
    if f.Place? {
      RenderedNotEmpty(f);
    }
    if g.Place? {
      RenderedNotEmpty(g);
    }
    assert "" + "/" == "/";
    hide Joined, Resolved, TrimSlashes;
  }

  lemma FirstPart(parts: seq<string>, c: string)
    requires parts != [] && Parts(parts) && '/' !in c && StartsWith(Joined(parts), c + "/")
    ensures parts[0] == c
  {
    SplitJoined(parts);
    SplitWhole(c);
    var rest := Joined(parts)[|c| + 1..];
    assert Joined(parts) == c + "/" + rest;
    SplitAppend(c, rest);
  }

  lemma DotContains(g: Place)
    requires WellNamed(g) && g.Place?
    ensures Rendered(g) == "." || StartsWith(Rendered(g), "./") <==> g == Place(0, [])
  {
    if g.lead == 0 && g.parts != [] {
      SplitJoined(g.parts);
      SplitWhole(".");
      if StartsWith(Joined(g.parts), "./") {
        FirstPart(g.parts, ".");
      }
    } else if g.lead > 0 {
      LeadOfRendered(g);
    }
  }

  lemma DotIsNoPrefix(f: Place)
    requires WellNamed(f) && f.Place? && f.lead == 0 && f.parts != []
    ensures Rendered(f) != "." && !StartsWith(".", Rendered(f) + "/")
  {
    DotContains(f);
    JoinedStart(f.parts);
  }

  function Slashes(lead: nat): string {
    if lead == 0 then "" else if lead == 1 then "/" else "//"
  }

  /** The same anchor before two non-empty component lists. */
  lemma SameLead(f: Place, g: Place)
    requires f.Place? && g.Place? && f.parts != [] && g.parts != [] && f.lead == g.lead
    requires Parts(f.parts) && Parts(g.parts)
    ensures Rendered(g) == Rendered(f) || StartsWith(Rendered(g), Rendered(f) + "/") <==> f.parts <= g.parts
  {
    var a, b, lead := Joined(f.parts), Joined(g.parts), Slashes(f.lead);
    JoinedPrefix(f.parts, g.parts);
    hide Joined, Parts, StartsWith;
    assert "" + a == a && "" + b == b;
    assert Rendered(f) == lead + a && Rendered(g) == lead + b;
    assert (lead + a) + "/" == lead + (a + "/");
    SamePrefix(lead, b, a + "/");
    SamePrefix(lead, b, a);
  }

  lemma DifferentLead(f: Place, g: Place)
    requires WellNamed(f) && WellNamed(g) && f.Place? && g.Place? && f.parts != [] && f.lead != g.lead
    ensures Rendered(g) != Rendered(f) && !StartsWith(Rendered(g), Rendered(f) + "/")
  {
    LeadOfRendered(f);
    LeadOfRendered(g);
    RenderedNotEmpty(f);
    if f.lead == 1 {
      JoinedStart(f.parts);
    }
    hide Joined, Resolved;
  }

  lemma RootIsNotBelow(f: Place, g: Place)
    requires WellNamed(f) && f.Place? && f.parts != [] && g == Place(f.lead, []) && f.lead > 0
    ensures Rendered(g) != Rendered(f) && !StartsWith(Rendered(g), Rendered(f) + "/")
  {
    JoinedStart(f.parts);
  }

  lemma PartsContain(f: Place, g: Place)
    requires WellNamed(f) && WellNamed(g) && f.Place? && g.Place? && f.parts != []
    ensures Rendered(g) == Rendered(f) || StartsWith(Rendered(g), Rendered(f) + "/") <==> Contains(f, g)
  {
    assert Parts(f.parts) && Parts(g.parts);
    if f.lead != g.lead {
      DifferentLead(f, g);
    } else if g.parts != [] {
      hide Rendered, Parts, StartsWith, WellNamed;
      SameLead(f, g);
    } else if f.lead > 0 {
      RootIsNotBelow(f, g);
    } else {
      DotIsNoPrefix(f);
    }
  }

  /** agentWithin is containment of the named places: component prefix under the same anchor. */
  lemma WithinIsContainment(root: string, p: string, windows: bool)
    ensures AgentWithin(root, p, windows) <==> Contains(Named(root, "", windows), Named(p, "", windows))
  {
    NamedIsProper(root, "", windows);
    NamedIsProper(p, "", windows);
    AgentPathNames(root, "", windows);
    AgentPathNames(p, "", windows);
    hide Named, AgentPath, Rendered, Contains, TrimSlashes;
    TextualContainment(Named(root, "", windows), Named(p, "", windows));
  }

  lemma ContainmentIsPartialOrder(a: Place, b: Place, c: Place)
    ensures Contains(a, a)
    ensures Contains(a, b) && Contains(b, c) ==> Contains(a, c)
  {
  }

  /** Containment of texts is reflexive and transitive on all inputs. */
  lemma WithinIsPreorder(a: string, b: string, c: string, windows: bool)
    ensures AgentWithin(a, a, windows)
    ensures AgentWithin(a, b, windows) && AgentWithin(b, c, windows) ==> AgentWithin(a, c, windows)
  {
    WithinIsContainment(a, a, windows);
    WithinIsContainment(a, b, windows);
    WithinIsContainment(b, c, windows);
    WithinIsContainment(a, c, windows);
    hide AgentWithin, Named, Contains;
    ContainmentIsPartialOrder(Named(a, "", windows), Named(b, "", windows), Named(c, "", windows));
  }

  /** A place as a second normalisation leaves it. */
  function Settled(f: Place): Place {
    if KeepsShare(f) then f else f.(lead := 1)
  }

  /** The scope check normalises both paths before comparing, and agentWithin normalises again: on all
      inputs the answer is containment of what the two paths name, as the second normalisation leaves it. */
  lemma ScopeCheckIsContainment(root: string, p: string, cwd: string, windows: bool)
    ensures AgentWithin(AgentPath(root, cwd, windows), AgentPath(p, cwd, windows), windows)
            <==> Contains(Settled(Named(root, cwd, windows)), Settled(Named(p, cwd, windows)))
  {
    var f, g := Named(root, cwd, windows), Named(p, cwd, windows);
    NamedIsProper(root, cwd, windows);
    NamedIsProper(p, cwd, windows);
    AgentPathNames(root, cwd, windows);
    AgentPathNames(p, cwd, windows);
    NamedOfRendered(f, windows);
    NamedOfRendered(g, windows);
    hide Named, AgentPath, Rendered, Contains, AgentWithin;
    WithinIsContainment(Rendered(f), Rendered(g), windows);
  }

  /** The anchor of an absolute root: one slash on POSIX; on Windows a drive or a share, never one slash. */
  lemma AbsoluteLead(root: string, cwd: string, windows: bool)
    requires AgentPathAbs(root, windows)
    ensures var f := Named(root, cwd, windows); f.Place? && (if windows then f.lead != 1 else f.lead == 1)
  {
    AbsoluteIsNotEmpty(root, windows);
    ForwardHasNone(root);
    RawFacts(root, cwd, windows);
    if windows {
      ForwardKeeps(Forward(root));
    }
    hide Walk, Split, LowerAll, Forward;
  }

  /** For an absolute root that keeps its share the second normalisation makes no difference, whatever
      the checked path is. */
  lemma AbsoluteRootDecides(root: string, p: string, cwd: string, windows: bool)
    requires AgentPathAbs(root, windows) && KeepsShare(Named(root, cwd, windows))
    ensures AgentWithin(AgentPath(root, cwd, windows), AgentPath(p, cwd, windows), windows)
            <==> Contains(Named(root, cwd, windows), Named(p, cwd, windows))
  {
    ScopeCheckIsContainment(root, p, cwd, windows);
    AbsoluteLead(root, cwd, windows);
    NamedIsProper(p, cwd, windows);
    hide Named, AgentPath, AgentWithin, AgentPathAbs, Folded;
    CutShareIsOutside(Named(root, cwd, windows), Named(p, cwd, windows), windows);
  }

  lemma CutShareIsOutside(f: Place, g: Place, windows: bool)
    requires f.Place? && KeepsShare(f) && (if windows then f.lead != 1 else f.lead == 1) && Proper(g, windows)
    ensures Contains(f, Settled(g)) <==> Contains(f, g)
  {
    hide Resolved, Folded;
  }

  /** For absolute POSIX paths: the root's resolved components are a prefix of the path's. */
  lemma PosixContainment(root: string, p: string)
    requires AgentPathAbs(root, false) && AgentPathAbs(p, false)
    ensures AgentWithin(root, p, false) <==> Walk(true, [], Split(root)) <= Walk(true, [], Split(p))
  {
    WithinIsContainment(root, p, false);
    hide AgentWithin, Walk, Split;
    assert Named(root, "", false) == Place(1, Walk(true, [], Split(root)));
    assert Named(p, "", false) == Place(1, Walk(true, [], Split(p)));
  }

  function DriveParts(p: string): seq<string> {
    LowerAll(Walk(false, [], Split(Forward(p))))
  }

  lemma DriveNamed(p: string)
    requires Drive(Forward(p))
    ensures Named(p, "", true) == Place(0, DriveParts(p))
  {
    ForwardHasNone(p);
    ForwardKeeps(Forward(p));
    hide Walk, Split, LowerAll, Forward;
  }

  /** For drive paths: case-folded component prefix, as long as the root does not climb above its drive. */
  lemma DriveContainment(root: string, p: string)
    requires Drive(Forward(root)) && Drive(Forward(p)) && DriveParts(root) != []
    ensures AgentWithin(root, p, true) <==> DriveParts(root) <= DriveParts(p)
  {
    WithinIsContainment(root, p, true);
    DriveNamed(root);
    DriveNamed(p);
    hide AgentWithin, DriveParts, Named, Drive;
  }

  // ---------------------------------------------------------------- relative paths

  lemma {:induction false} WalkDown(rooted: bool, at: seq<string>, parts: seq<string>)
    requires ".." !in parts
    ensures at <= Walk(rooted, at, parts)
    decreases |parts|
  {
    if parts != [] {
      WalkDown(rooted, Enter(rooted, at, parts[0]), parts[1..]);
    }
  }

  lemma LowerAllPrefix(a: seq<string>, b: seq<string>)
    requires a <= b
    ensures LowerAll(a) <= LowerAll(b)
  {
    LowerAllFacts(a);
    LowerAllFacts(b);
  }

  lemma SameStart(a: string, b: string)
    requires a != ""
    ensures StartsWith(a + "/" + b, "/") == StartsWith(a, "/")
  {
    assert (a + "/" + b)[0] == a[0];
  }

  lemma AbsoluteIsNotEmpty(p: string, windows: bool)
    requires AgentPathAbs(p, windows)
    ensures p != ""
  {
    ForwardHasNone(p);
    hide Forward, Split;
  }

  lemma RawBelow(p: string, cwd: string, windows: bool)
    requires AgentPathAbs(cwd, windows) && !AgentPathAbs(p, windows) && p != ""
    ensures var p1, cwd1 := if windows then Forward(p) else p, if windows then Forward(cwd) else cwd;
            && Raw(p, cwd, windows) == cwd1 + "/" + p1 && Raw(cwd, "", windows) == cwd1
            && StartsWith(cwd1 + "/" + p1, "/") == StartsWith(cwd1, "/")
    ensures cwd != "" && !IsShare(p, windows)
    ensures IsShare(cwd, windows) ==> StartsWith(Raw(cwd, "", windows), "/")
  {
    AbsoluteIsNotEmpty(cwd, windows);
    ForwardHasNone(cwd);
    RawFacts(p, cwd, windows);
    RawFacts(cwd, "", windows);
    assert !IsShare(p, windows) by {
      hide Forward, Share, Drive;
    }
    var p1, cwd1 := if windows then Forward(p) else p, if windows then Forward(cwd) else cwd;
    hide Forward, AgentPathAbs, IsShare;
    SameStart(cwd1, p1);
  }

  /** A path below an absolute working directory walks on from where the directory leads. */
  lemma BelowDirectory(p: string, cwd: string, windows: bool)
    requires AgentPathAbs(cwd, windows) && !AgentPathAbs(p, windows) && p != ""
    requires ".." !in Split(if windows then Forward(p) else p)
    ensures var f, g := Named(cwd, "", windows), Named(p, cwd, windows);
            f.parts <= g.parts && g.lead == if IsShare(cwd, windows) then 1 else f.lead
  {
    RawBelow(p, cwd, windows);
    var p1, cwd1 := if windows then Forward(p) else p, if windows then Forward(cwd) else cwd;
    var rooted := StartsWith(cwd1, "/");
    hide Forward, Raw, AgentPathAbs, IsShare, Split, Walk, LowerAll, StartsWith;
    SplitAppend(cwd1, p1);
    WalkConcat(rooted, [], Split(cwd1), Split(p1));
    var at := Walk(rooted, [], Split(cwd1));
    WalkDown(rooted, at, Split(p1));
    LowerAllPrefix(at, Walk(rooted, at, Split(p1)));
  }

  /** A relative path without dot-dots stays inside the working directory, except below a network
      share, whose second leading slash the join drops. */
  lemma RelativeStaysInside(p: string, cwd: string, windows: bool)
    requires AgentPathAbs(cwd, windows) && !AgentPathAbs(p, windows) && p != ""
    requires ".." !in Split(if windows then Forward(p) else p)
    requires Named(cwd, "", windows).parts != []
    ensures AgentWithin(cwd, AgentPath(p, cwd, windows), windows) <==> !IsShare(cwd, windows)
  {
    var f, g := Named(cwd, "", windows), Named(p, cwd, windows);
    BelowDirectory(p, cwd, windows);
    NamedIsProper(p, cwd, windows);
    AgentPathNames(p, cwd, windows);
    NamedOfRendered(g, windows);
    assert IsShare(cwd, windows) <==> f.lead == 2;
    assert KeepsShare(g);
    hide Named, AgentPath, Rendered, AgentWithin, AgentPathAbs, Split, IsShare;
    WithinIsContainment(cwd, Rendered(g), windows);
  }
}
