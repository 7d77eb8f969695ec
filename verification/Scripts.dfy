/** Capturing the scripts a call refers to: bounded snapshots, and what "complete" promises. */
module Scripts {
  newtype byte = x: int | 0 <= x < 256

  const MAX_BYTES: nat := 0x10_0000
  const MAX_FILES: nat := 8
  const NO_PATH := "<unresolved script>"

  /** One statically found reference; a problem says why the file could not be determined. */
  datatype Ref = Ref(path: string, problem: string, direct: bool)

  /** What reading a path gives; files do not change during one capture. */
  datatype Read = Content(bytes: seq<byte>) | Unreadable(reason: string, tooLarge: bool)

  datatype Snapshot = Snapshot(path: string, size: nat, error: string, truncated: bool, content: seq<byte>,
                               complete: bool)

  /** The surroundings of one capture: file contents, the UTF-8 check, and whether the command is
      typed into an interactive session. */
  datatype Host = Host(read: string -> Read, utf8: seq<byte> -> bool, session: bool)

  /** An empty path never names a file. */
  predicate Sensible(h: Host) {
    h.read("").Unreadable?
  }

  const ELF: seq<byte> := [0x7f, 0x45, 0x4c, 0x46]
  const MZ: seq<byte> := [0x4d, 0x5a]

  predicate Native(b: seq<byte>) {
    ELF <= b || MZ <= b
  }

  predicate Text(h: Host, b: seq<byte>) {
    h.utf8(b) && 0 !in b
  }

  function Key(r: Ref): string {
    r.path + r.problem
  }

  datatype Capture = Capture(files: seq<Snapshot>, seen: set<string>, incomplete: bool, total: nat, stopped: bool)

  const START := Capture([], {}, false, 0, false)

  function Shown(r: Ref): string {
    if r.path == "" then NO_PATH else r.path
  }

  function Failed(c: Capture, f: Snapshot): Capture {
    c.(files := c.files + [f], incomplete := true)
  }

  function Whole(r: Ref, b: seq<byte>): Snapshot {
    Snapshot(Shown(r), |b|, "", false, b, true)
  }

  /** One reference of the loop. */
  function Visit(h: Host, before: Capture, r: Ref): Capture {
    if before.stopped || Key(r) in before.seen then before
    else
      var c := before.(seen := before.seen + {Key(r)});
      if r.problem != "" then Failed(c, Snapshot(Shown(r), 0, r.problem, false, [], false))
      else if |c.files| >= MAX_FILES then
        Failed(c, Snapshot(Shown(r), 0, "too many script files", false, [], false)).(stopped := true)
      else
        match h.read(r.path)
        case Unreadable(reason, tooLarge) => Failed(c, Snapshot(Shown(r), 0, reason, tooLarge, [], false))
        case Content(b) =>
          if r.direct && Native(b) then c
          else if h.session then Failed(c, Snapshot(Shown(r), |b|, "interactive session", false, [], false))
          else if !Text(h, b) then Failed(c, Snapshot(Shown(r), |b|, "not text", false, [], false))
          else if |b| > MAX_BYTES || c.total + |b| > MAX_BYTES
          then Failed(c, Snapshot(Shown(r), |b|, "too large", true, [], false))
          else c.(files := c.files + [Whole(r, b)], total := c.total + |b|)
  }

  function Captured(h: Host, refs: seq<Ref>, n: nat): Capture
    requires n <= |refs|
  {
    if n == 0 then START else Visit(h, Captured(h, refs, n - 1), refs[n - 1])
  }

  datatype Status = NotApplicable | Complete | Incomplete

  function StatusOf(c: Capture): Status {
    if c.files == [] then NotApplicable else if c.incomplete then Incomplete else Complete
  }

  // ---------------------------------------------------------------- the loop

  lemma {:induction false} StoppedStays(h: Host, refs: seq<Ref>, i: nat, n: nat)
    requires i <= n <= |refs| && Captured(h, refs, i).stopped
    ensures Captured(h, refs, n) == Captured(h, refs, i)
  {
    if i < n {
      StoppedStays(h, refs, i, n - 1);
    }
  }

  method CaptureScripts(h: Host, refs: seq<Ref>) returns (files: seq<Snapshot>, status: Status)
    ensures var c := Captured(h, refs, |refs|);
            files == c.files && status == StatusOf(c)
  {
    files := [];
    var seen: set<string> := {};
    var incomplete := false;
    var total: nat := 0;
    var i := 0;
    while i < |refs|
      invariant 0 <= i <= |refs|
      invariant Captured(h, refs, i) == Capture(files, seen, incomplete, total, false)
    {
      var r := refs[i];
      i := i + 1;
      if Key(r) in seen {
        continue;
      }
      seen := seen + {Key(r)};
      if r.problem != "" {
        files, incomplete := files + [Snapshot(Shown(r), 0, r.problem, false, [], false)], true;
        continue;
      }
      if |files| >= MAX_FILES {
        files, incomplete := files + [Snapshot(Shown(r), 0, "too many script files", false, [], false)], true;
        StoppedStays(h, refs, i, |refs|);
        break;
      }
      match h.read(r.path) {
        case Unreadable(reason, tooLarge) =>
          files, incomplete := files + [Snapshot(Shown(r), 0, reason, tooLarge, [], false)], true;
        case Content(b) =>
          if r.direct && Native(b) {
          } else if h.session {
            files, incomplete := files + [Snapshot(Shown(r), |b|, "interactive session", false, [], false)], true;
          } else if !Text(h, b) {
            files, incomplete := files + [Snapshot(Shown(r), |b|, "not text", false, [], false)], true;
          } else if |b| > MAX_BYTES || total + |b| > MAX_BYTES {
            files, incomplete := files + [Snapshot(Shown(r), |b|, "too large", true, [], false)], true;
          } else {
            files, total := files + [Whole(r, b)], total + |b|;
          }
      }
    }
    status := if files == [] then NotApplicable else if incomplete then Incomplete else Complete;
  }

  // ---------------------------------------------------------------- bounds

  function WholeOnes(files: seq<Snapshot>): seq<Snapshot> {
    if files == [] then []
    else WholeOnes(files[..|files| - 1]) + (if files[|files| - 1].complete then [files[|files| - 1]] else [])
  }

  function Size(files: seq<Snapshot>): nat {
    if files == [] then 0 else Size(files[..|files| - 1]) + |files[|files| - 1].content|
  }

  /** Whole snapshots: at most eight, of different files, and 2^20 bytes together. */
  predicate Bounded(c: Capture) {
    var whole := WholeOnes(c.files);
    && |whole| <= MAX_FILES && |whole| <= |c.files|
    && (forall i, j :: 0 <= i < j < |whole| ==> whole[i].path != whole[j].path)
    && (forall i :: 0 <= i < |whole| ==> whole[i].path in c.seen)
    && Size(whole) == c.total <= MAX_BYTES
  }

  lemma AddFile(files: seq<Snapshot>, f: Snapshot)
    ensures WholeOnes(files + [f]) == WholeOnes(files) + if f.complete then [f] else []
    ensures Size(files + [f]) == Size(files) + |f.content|
  {
    assert (files + [f])[..|files|] == files;
  }

  lemma FailureKeepsBounds(c: Capture, f: Snapshot, d: Capture)
    requires Bounded(c) && !f.complete && f.content == []
    requires d.files == c.files + [f] && c.seen <= d.seen && d.total == c.total
    ensures Bounded(d)
  {
    AddFile(c.files, f);
    assert WholeOnes(d.files) == WholeOnes(c.files);
    hide WholeOnes, Size;
  }

  lemma WholeSize(files: seq<Snapshot>, f: Snapshot)
    ensures Size(WholeOnes(files) + [f]) == Size(WholeOnes(files)) + |f.content|
  {
    AddFile(WholeOnes(files), f);
  }

  lemma SnapshotKeepsBounds(c: Capture, f: Snapshot, d: Capture)
    requires Bounded(c) && f.complete && |c.files| < MAX_FILES && c.total + |f.content| <= MAX_BYTES
    requires f.path !in c.seen && d.seen == c.seen + {f.path}
    requires d.files == c.files + [f] && d.total == c.total + |f.content|
    ensures Bounded(d)
  {
    AddFile(c.files, f);
    WholeSize(c.files, f);
    hide WholeOnes, Size;
  }

  lemma VisitKeepsBounds(h: Host, c: Capture, r: Ref)
    requires Sensible(h) && Bounded(c)
    ensures Bounded(Visit(h, c, r))
  {
    var d := Visit(h, c, r);
    assert r.path + "" == r.path;
    if d.files != c.files {
      var f := d.files[|c.files|];
      hide Bounded;
      if f.complete {
        SnapshotKeepsBounds(c, f, d);
      } else {
        FailureKeepsBounds(c, f, d);
      }
    }
  }

  lemma {:induction false} CaptureIsBounded(h: Host, refs: seq<Ref>, n: nat)
    requires Sensible(h) && n <= |refs|
    ensures Bounded(Captured(h, refs, n))
  {
    if n > 0 {
      CaptureIsBounded(h, refs, n - 1);
      VisitKeepsBounds(h, Captured(h, refs, n - 1), refs[n - 1]);
      hide Bounded, Visit;
    }
  }

  /** A capture is incomplete exactly when one of the listed files is. */
  lemma {:induction false} IncompleteIffListed(h: Host, refs: seq<Ref>, n: nat)
    requires n <= |refs|
    ensures var c := Captured(h, refs, n);
            c.incomplete <==> exists f :: f in c.files && !f.complete
  {
    if n > 0 {
      IncompleteIffListed(h, refs, n - 1);
      var c, d := Captured(h, refs, n - 1), Captured(h, refs, n);
      if d.files != c.files {
        var f := d.files[|c.files|];
        assert d.files == c.files + [f];
        assert f in d.files;
        assert forall g :: g in c.files ==> g in d.files;
      }
    }
  }

  // ---------------------------------------------------------------- what "complete" means

  /** The references that are looked at: the first of each key. */
  function Firsts(refs: seq<Ref>, n: nat): seq<Ref>
    requires n <= |refs|
  {
    if n == 0 then []
    else
      Firsts(refs, n - 1) +
      (if exists i :: 0 <= i < n - 1 && Key(refs[i]) == Key(refs[n - 1]) then [] else [refs[n - 1]])
  }

  predicate Readable(h: Host, r: Ref) {
    r.problem == "" && h.read(r.path).Content?
  }

  predicate Binary(h: Host, r: Ref) {
    Readable(h, r) && r.direct && Native(h.read(r.path).bytes)
  }

  /** The looked-at references that need a snapshot: all but native binaries that are started directly. */
  function Shots(h: Host, firsts: seq<Ref>): seq<Ref> {
    if firsts == [] then []
    else
      var last := firsts[|firsts| - 1];
      Shots(h, firsts[..|firsts| - 1]) + if Binary(h, last) then [] else [last]
  }

  predicate Shootable(h: Host, r: Ref) {
    Readable(h, r) && !h.session && Text(h, h.read(r.path).bytes)
  }

  function Bytes(h: Host, shots: seq<Ref>): nat {
    if shots == [] then 0
    else
      var last := shots[|shots| - 1];
      Bytes(h, shots[..|shots| - 1]) + if Readable(h, last) then |h.read(last.path).bytes| else 0
  }

  function WholeAll(h: Host, shots: seq<Ref>): seq<Snapshot> {
    if shots == [] then []
    else
      var last := shots[|shots| - 1];
      WholeAll(h, shots[..|shots| - 1]) + if Readable(h, last) then [Whole(last, h.read(last.path).bytes)] else []
  }

  /** The declarative condition: every looked-at reference is readable; the ones that need a snapshot
      are text outside a session and fit the byte budget together; and no looked-at reference
      comes after the eighth snapshot. */
  predicate Capturable(h: Host, firsts: seq<Ref>) {
    && AllReadable(h, firsts) && AllShootable(h, Shots(h, firsts))
    && Bytes(h, Shots(h, firsts)) <= MAX_BYTES && RoomForLast(h, firsts)
  }

  predicate AllReadable(h: Host, refs: seq<Ref>) {
    forall r :: r in refs ==> Readable(h, r)
  }

  predicate AllShootable(h: Host, refs: seq<Ref>) {
    forall r :: r in refs ==> Shootable(h, r)
  }

  predicate RoomForLast(h: Host, firsts: seq<Ref>) {
    firsts != [] ==> |Shots(h, firsts[..|firsts| - 1])| < MAX_FILES
  }

  ghost predicate SeenKeys(refs: seq<Ref>, n: nat, seen: set<string>)
    requires n <= |refs|
  {
    forall k :: k in seen <==> exists i :: 0 <= i < n && Key(refs[i]) == k
  }

  /** The invariant of the loop: still complete exactly while the condition holds, and then the
      files are exactly the whole snapshots. */
  ghost predicate Tracks(h: Host, refs: seq<Ref>, n: nat, c: Capture)
    requires n <= |refs|
  {
    var shots := Shots(h, Firsts(refs, n));
    && (!c.incomplete <==> Capturable(h, Firsts(refs, n)))
    && (!c.incomplete ==>
          && !c.stopped && c.files == WholeAll(h, shots) && c.total == Bytes(h, shots) && |c.files| == |shots|
          && SeenKeys(refs, n, c.seen))
  }

  lemma AddFirst(h: Host, firsts: seq<Ref>, r: Ref)
    ensures var shots := Shots(h, firsts);
            && (firsts + [r])[..|firsts|] == firsts
            && Shots(h, firsts + [r]) == (if Binary(h, r) then shots else shots + [r])
  {
    assert (firsts + [r])[..|firsts|] == firsts;
    assert Shots(h, firsts) + [] == Shots(h, firsts);
  }

  lemma AddShot(h: Host, shots: seq<Ref>, r: Ref)
    ensures Bytes(h, shots + [r]) == Bytes(h, shots) + if Readable(h, r) then |h.read(r.path).bytes| else 0
    ensures WholeAll(h, shots + [r])
         == WholeAll(h, shots) + if Readable(h, r) then [Whole(r, h.read(r.path).bytes)] else []
  {
    assert (shots + [r])[..|shots|] == shots;
  }

  lemma RoomStep(h: Host, firsts: seq<Ref>, r: Ref)
    ensures RoomForLast(h, firsts + [r]) <==> |Shots(h, firsts)| < MAX_FILES
    ensures |Shots(h, firsts)| < MAX_FILES ==> RoomForLast(h, firsts)
  {
    AddFirst(h, firsts, r);
  }

  /** One more looked-at reference: when the condition survives. */
  lemma CapturableStep(h: Host, firsts: seq<Ref>, r: Ref)
    ensures var shots := Shots(h, firsts);
            Capturable(h, firsts + [r]) <==>
              && Capturable(h, firsts) && Readable(h, r) && |shots| < MAX_FILES
              && (Binary(h, r) || (Shootable(h, r) && Bytes(h, shots) + |h.read(r.path).bytes| <= MAX_BYTES))
  {
    var shots := Shots(h, firsts);
    AddFirst(h, firsts, r);
    AddShot(h, shots, r);
    RoomStep(h, firsts, r);
    assert AllReadable(h, firsts + [r]) <==> AllReadable(h, firsts) && Readable(h, r);
    assert AllShootable(h, shots + [r]) <==> AllShootable(h, shots) && Shootable(h, r);
    assert Binary(h, r) ==> Readable(h, r);
    assert Shootable(h, r) ==> Readable(h, r);
    hide Shootable, Readable, Shots, Bytes, Binary, AllReadable, AllShootable, RoomForLast;
  }

  predicate Repeats(refs: seq<Ref>, n: nat)
    requires 0 < n <= |refs|
  {
    exists i :: 0 <= i < n - 1 && Key(refs[i]) == Key(refs[n - 1])
  }

  /** A new reference seen by a capture that is still complete. */
  lemma VisitFirst(h: Host, firsts: seq<Ref>, c: Capture, r: Ref)
    requires Capturable(h, firsts) && !c.incomplete && !c.stopped && Key(r) !in c.seen
    requires c.files == WholeAll(h, Shots(h, firsts)) && c.total == Bytes(h, Shots(h, firsts))
             && |c.files| == |Shots(h, firsts)|
    ensures var d := Visit(h, c, r);
            var shots := Shots(h, firsts + [r]);
            && (!d.incomplete <==> Capturable(h, firsts + [r]))
            && (!d.incomplete ==>
                  && !d.stopped && d.seen == c.seen + {Key(r)}
                  && d.files == WholeAll(h, shots) && d.total == Bytes(h, shots) && |d.files| == |shots|)
  {
    CapturableStep(h, firsts, r);
    AddFirst(h, firsts, r);
    AddShot(h, Shots(h, firsts), r);
    hide Capturable, Shots, Bytes, WholeAll, Native, Text;
  }

  lemma SeenStep(refs: seq<Ref>, n: nat, seen: set<string>)
    requires 0 < n <= |refs| && SeenKeys(refs, n - 1, seen)
    ensures Key(refs[n - 1]) in seen <==> Repeats(refs, n)
    ensures SeenKeys(refs, n, seen + {Key(refs[n - 1])})
  {
    hide Key;
    var k0 := Key(refs[n - 1]);
    forall k
      ensures k in seen + {k0} <==> exists i :: 0 <= i < n && Key(refs[i]) == k
    {
      if k in seen {
        var i :| 0 <= i < n - 1 && Key(refs[i]) == k;
      }
    }
  }

  lemma TracksStep(h: Host, refs: seq<Ref>, n: nat, c: Capture)
    requires 0 < n <= |refs| && Tracks(h, refs, n - 1, c)
    ensures Tracks(h, refs, n, Visit(h, c, refs[n - 1]))
  {
    var r, firsts := refs[n - 1], Firsts(refs, n - 1);
    CapturableStep(h, firsts, r);
    assert Firsts(refs, n) == if Repeats(refs, n) then firsts else firsts + [r] by {
      assert firsts + [] == firsts;
    }
    if c.incomplete {
      assert Visit(h, c, r).incomplete;
      hide Visit, Firsts, Capturable, Repeats;
    } else {
      SeenStep(refs, n, c.seen);
      if Repeats(refs, n) {
        assert Visit(h, c, r) == c;
        assert c.seen + {Key(r)} == c.seen;
        hide Visit, Firsts, Capturable, Repeats, SeenKeys;
      } else {
        VisitFirst(h, firsts, c, r);
        hide Visit, Firsts, Capturable, Repeats, SeenKeys, Shots, Bytes, WholeAll;
      }
    }
  }

  /** The capture is complete exactly when the declarative condition holds, and then the files are
      exactly the whole snapshots of the references that need one, in order. */
  lemma {:induction false} CompleteIffCapturable(h: Host, refs: seq<Ref>, n: nat)
    requires n <= |refs|
    ensures Tracks(h, refs, n, Captured(h, refs, n))
  {
    if n > 0 {
      CompleteIffCapturable(h, refs, n - 1);
      hide Tracks, Visit;
      TracksStep(h, refs, n, Captured(h, refs, n - 1));
    }
  }

  // ---------------------------------------------------------------- coverage

  lemma {:induction false} FirstOf(refs: seq<Ref>, n: nat, i: nat) returns (f: Ref)
    requires i < n <= |refs|
    ensures f in Firsts(refs, n) && Key(f) == Key(refs[i])
  {
    if i < n - 1 {
      f := FirstOf(refs, n - 1, i);
    } else if j :| 0 <= j < n - 1 && Key(refs[j]) == Key(refs[n - 1]) {
      f := FirstOf(refs, n - 1, j);
    } else {
      f := refs[n - 1];
    }
  }

  lemma {:induction false} FirstsAreRefs(refs: seq<Ref>, n: nat)
    requires n <= |refs|
    ensures forall f :: f in Firsts(refs, n) ==> f in refs
  {
    if n > 0 {
      FirstsAreRefs(refs, n - 1);
    }
  }

  lemma {:induction false} ShotHasFile(h: Host, firsts: seq<Ref>, f: Ref)
    requires f in firsts && AllReadable(h, firsts) && !Binary(h, f)
    ensures Whole(f, h.read(f.path).bytes) in WholeAll(h, Shots(h, firsts))
  {
    var last, rest := firsts[|firsts| - 1], firsts[..|firsts| - 1];
    assert firsts == rest + [last];
    AddFirst(h, rest, last);
    AddShot(h, Shots(h, rest), last);
    if f in rest {
      hide Binary, Shots, WholeAll;
      assert Readable(h, last);
      ShotHasFile(h, rest, f);
    }
  }

  /** Some problem-free path reads like the path and problem of an undetermined reference. */
  predicate Collides(refs: seq<Ref>) {
    exists i, j :: 0 <= i < |refs| && 0 <= j < |refs| && refs[i].problem == "" && refs[j].problem != ""
        && Key(refs[i]) == Key(refs[j])
  }

  /** The path was captured whole, or its first reference starts a native binary directly. */
  predicate Covered(h: Host, refs: seq<Ref>, r: Ref) {
    && h.read(r.path).Content?
    && (Whole(r, h.read(r.path).bytes) in Captured(h, refs, |refs|).files
        || (Native(h.read(r.path).bytes) && Ref(r.path, "", true) in refs))
  }

  lemma FirstIsCovered(h: Host, refs: seq<Ref>, i: nat)
    requires i < |refs| && !Captured(h, refs, |refs|).incomplete && refs[i].problem == ""
    requires !Collides(refs)
    ensures Covered(h, refs, refs[i])
  {
    CompleteIffCapturable(h, refs, |refs|);
    var f := FirstOf(refs, |refs|, i);
    FirstsAreRefs(refs, |refs|);
    hide Captured, Firsts;
    assert Readable(h, f);
    var j :| 0 <= j < |refs| && refs[j] == f;
    assert f.path + "" == f.path && refs[i].path + "" == refs[i].path;
    assert f.path == refs[i].path;
    if !Binary(h, f) {
      ShotHasFile(h, Firsts(refs, |refs|), f);
    } else {
      assert f == Ref(refs[i].path, "", true);
    }
  }

  /** A complete capture hides no problem and covers every path, exactly when no key collides. */
  lemma CompleteCoversEverything(h: Host, refs: seq<Ref>)
    requires !Captured(h, refs, |refs|).incomplete
    ensures (forall r :: r in refs ==> r.problem == "") <==> !Collides(refs)
    ensures !Collides(refs) ==> forall r :: r in refs ==> Covered(h, refs, r)
  {
    CompleteIffCapturable(h, refs, |refs|);
    FirstsAreRefs(refs, |refs|);
    hide Captured, Firsts, Covered;
    if !Collides(refs) {
      forall i | 0 <= i < |refs|
        ensures refs[i].problem == "" && Covered(h, refs, refs[i])
      {
        var f := FirstOf(refs, |refs|, i);
        assert Readable(h, f);
        var j :| 0 <= j < |refs| && refs[j] == f;
        FirstIsCovered(h, refs, i);
      }
    }
  }

  /** What the reference finder produces on a POSIX host: a determined path is absolute; of an
      undetermined one at most a relative path is known; and no message starts with a slash. */
  predicate FromFinder(refs: seq<Ref>) {
    forall r :: r in refs ==>
      if r.problem == "" then r.path != "" && r.path[0] == '/'
      else (r.path == "" || r.path[0] != '/') && r.problem[0] != '/'
  }

  lemma FinderKeysDoNotCollide(refs: seq<Ref>)
    requires FromFinder(refs)
    ensures !Collides(refs)
  {
    forall i, j | 0 <= i < |refs| && 0 <= j < |refs| && refs[i].problem == "" && refs[j].problem != ""
      ensures Key(refs[i])[0] != Key(refs[j])[0]
    {
      assert refs[i] in refs && refs[j] in refs;
    }
  }

  /** So a complete capture of found references hides no problem, and every one of them was captured
      whole or starts a native binary directly. */
  lemma CompleteMeansCovered(h: Host, refs: seq<Ref>)
    requires FromFinder(refs) && !Captured(h, refs, |refs|).incomplete
    ensures forall r :: r in refs ==> r.problem == "" && Covered(h, refs, r)
  {
    FinderKeysDoNotCollide(refs);
    hide Captured, Covered, Collides, FromFinder;
    CompleteCoversEverything(h, refs);
  }

  /** What the loop itself would do with a colliding key, which the finder does not produce on a POSIX
      host: the capture is complete although one file is undetermined. */
  lemma CollisionHidesProblem(h: Host, dir: string, problem: string, b: seq<byte>)
    requires problem != "" && dir != "" && !h.session && h.read(dir + problem) == Content(b) && Text(h, b)
             && |b| <= MAX_BYTES
    ensures var refs := [Ref(dir + problem, "", false), Ref(dir, problem, false)];
            StatusOf(Captured(h, refs, 2)) == Complete && |Captured(h, refs, 2).files| == 1
  {
    var refs := [Ref(dir + problem, "", false), Ref(dir, problem, false)];
    assert Key(refs[0]) == dir + problem == Key(refs[1]);
    assert Captured(h, refs, 0) == START;
    assert Captured(h, refs, 1) == Visit(h, START, refs[0]);
    assert Captured(h, refs, 2) == Visit(h, Captured(h, refs, 1), refs[1]);
  }
}
