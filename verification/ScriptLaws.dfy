/** What a capture says about the files themselves. */
module ScriptLaws {
  import opened Scripts

  /** An executable the system starts by itself: an ELF or a Windows image. */
  predicate StartsAsImage(b: seq<byte>) {
    || (|b| >= 4 && b[0] == 0x7f && b[1] == 'E' as byte && b[2] == 'L' as byte && b[3] == 'F' as byte)
    || (|b| >= 2 && b[0] == 'M' as byte && b[1] == 'Z' as byte)
  }

  /** A snapshot that shows a whole text file as it is. */
  predicate TrueCopy(h: Host, f: Snapshot) {
    && f.complete && !f.truncated && f.error == "" && f.size == |f.content|
    && h.read(f.path) == Content(f.content) && h.utf8(f.content) && 0 !in f.content && !h.session
  }

  lemma NativeIsImage(b: seq<byte>)
    ensures Native(b) <==> StartsAsImage(b)
  {
    assert ELF <= b <==> |b| >= 4 && b[0] == 0x7f && b[1] == 0x45 && b[2] == 0x4c && b[3] == 0x46;
    assert MZ <= b <==> |b| >= 2 && b[0] == 0x4d && b[1] == 0x5a;
  }

  /** Why a reference is listed without content, in the words of the listing. */
  predicate Explains(h: Host, r: Ref, f: Snapshot) {
    && f.path == (if r.path == "" then "<unresolved script>" else r.path) && f.content == []
    && (r.problem != "" ==> f.error == r.problem)
    && (r.problem == "" && f.error != "too many script files" ==>
          match h.read(r.path)
          case Unreadable(reason, _) => f.error == reason
          case Content(b) =>
            && f.size == |b|
            && (|| (h.session && f.error == "interactive session")
                || (!(h.utf8(b) && 0 !in b) && f.error == "not text")
                || (f.truncated && f.error == "too large")))
  }

  /** What one listed file is: a true copy of a referenced file, or a reason and no content. */
  predicate Honest(h: Host, refs: seq<Ref>, f: Snapshot) {
    && (f.complete ==> TrueCopy(h, f) && exists r :: r in refs && r.path == f.path && r.problem == "")
    && (!f.complete ==> exists r :: r in refs && Explains(h, r, f))
  }

  lemma VisitIsHonest(h: Host, refs: seq<Ref>, c: Capture, r: Ref)
    requires Sensible(h) && r in refs && forall f :: f in c.files ==> Honest(h, refs, f)
    ensures forall f :: f in Visit(h, c, r).files ==> Honest(h, refs, f)
  {
    var d := Visit(h, c, r);
    if d.files != c.files {
      var g := d.files[|c.files|];
      assert d.files == c.files + [g];
      hide Native;
      assert Honest(h, refs, g);
    }
  }

  /** Every listed file is either shown whole and unchanged or not at all. */
  lemma {:induction false} ListedFilesAreHonest(h: Host, refs: seq<Ref>, n: nat)
    requires Sensible(h) && n <= |refs|
    ensures forall f :: f in Captured(h, refs, n).files ==> Honest(h, refs, f)
  {
    if n > 0 {
      hide Honest, Visit;
      ListedFilesAreHonest(h, refs, n - 1);
      VisitIsHonest(h, refs, Captured(h, refs, n - 1), refs[n - 1]);
    }
  }

  /** The reference is determined, and its file was captured whole or is an image started directly. */
  predicate Accounted(h: Host, refs: seq<Ref>, files: seq<Snapshot>, r: Ref) {
    && r.problem == "" && h.read(r.path).Content?
    && (|| (StartsAsImage(h.read(r.path).bytes) && Ref(r.path, "", true) in refs)
        || exists f :: f in files && f.path == r.path && TrueCopy(h, f))
  }

  /** A capture that is not reported incomplete accounts for every reference the finder made. */
  lemma CompleteAccountsForAll(h: Host, refs: seq<Ref>)
    requires Sensible(h) && FromFinder(refs) && StatusOf(Captured(h, refs, |refs|)) != Incomplete
    ensures forall r :: r in refs ==> Accounted(h, refs, Captured(h, refs, |refs|).files, r)
  {
    var c := Captured(h, refs, |refs|);
    IncompleteIffListed(h, refs, |refs|);
    CompleteMeansCovered(h, refs);
    ListedFilesAreHonest(h, refs, |refs|);
    hide Captured, Native, StartsAsImage;
    forall r | r in refs
      ensures Accounted(h, refs, c.files, r)
    {
      assert r.problem == "" && Covered(h, refs, r);
      NativeIsImage(h.read(r.path).bytes);
      assert r.path != "";
      var f := Whole(r, h.read(r.path).bytes);
      if f in c.files {
        assert Honest(h, refs, f) && f.path == r.path;
      }
    }
  }

  // ---------------------------------------------------------------- what is always captured

  function TotalBytes(h: Host, refs: seq<Ref>): nat {
    if refs == [] then 0
    else
      TotalBytes(h, refs[..|refs| - 1]) +
      (match h.read(refs[|refs| - 1].path) case Content(b) => |b| case _ => 0)
  }

  /** Readable text of a determined path. */
  predicate PlainText(h: Host, r: Ref) {
    r.problem == "" && h.read(r.path).Content? && h.utf8(h.read(r.path).bytes) && 0 !in h.read(r.path).bytes
  }

  lemma {:induction false} ShotsAreFew(h: Host, firsts: seq<Ref>)
    requires AllReadable(h, firsts)
    ensures |Shots(h, firsts)| <= |firsts| && Bytes(h, Shots(h, firsts)) <= TotalBytes(h, firsts)
    ensures forall r :: r in Shots(h, firsts) ==> r in firsts
  {
    if firsts != [] {
      var rest, last := firsts[..|firsts| - 1], firsts[|firsts| - 1];
      assert firsts == rest + [last];
      ShotsAreFew(h, rest);
      AddFirst(h, rest, last);
      AddShot(h, Shots(h, rest), last);
      assert last in firsts;
    }
  }

  lemma AddBytes(h: Host, refs: seq<Ref>, r: Ref)
    ensures TotalBytes(h, refs + [r])
         == TotalBytes(h, refs) + (match h.read(r.path) case Content(b) => |b| case _ => 0)
  {
    assert (refs + [r])[..|refs|] == refs;
  }

  lemma {:induction false} FirstsAreFew(h: Host, refs: seq<Ref>, n: nat)
    requires n <= |refs|
    ensures |Firsts(refs, n)| <= n && TotalBytes(h, Firsts(refs, n)) <= TotalBytes(h, refs[..n])
  {
    if n > 0 {
      FirstsAreFew(h, refs, n - 1);
      assert refs[..n] == refs[..n - 1] + [refs[n - 1]];
      AddBytes(h, refs[..n - 1], refs[n - 1]);
      AddBytes(h, Firsts(refs, n - 1), refs[n - 1]);
      assert Firsts(refs, n - 1) + [] == Firsts(refs, n - 1);
    }
  }

  lemma FirstsArePlain(h: Host, refs: seq<Ref>)
    requires forall r :: r in refs ==> PlainText(h, r)
    ensures forall r :: r in Firsts(refs, |refs|) ==> r in refs && PlainText(h, r)
    ensures AllReadable(h, Firsts(refs, |refs|))
  {
    FirstsAreRefs(refs, |refs|);
    hide Firsts;
  }

  lemma FewPlainAreCapturable(h: Host, firsts: seq<Ref>)
    requires !h.session && |firsts| <= 8 && TotalBytes(h, firsts) <= 1_048_576
    requires forall r :: r in firsts ==> PlainText(h, r)
    ensures Capturable(h, firsts) && AllReadable(h, firsts)
  {
    hide Shots, Bytes, TotalBytes;
    assert AllReadable(h, firsts);
    ShotsAreFew(h, firsts);
    if firsts != [] {
      var rest := firsts[..|firsts| - 1];
      assert forall r :: r in rest ==> r in firsts;
      assert AllReadable(h, rest);
      ShotsAreFew(h, rest);
    }
  }

  /** At most eight determined references to readable text of at most one mebibyte together, outside an
      interactive session: the capture is not incomplete, and complete unless images may be started directly. */
  lemma SmallTextIsCaptured(h: Host, refs: seq<Ref>)
    requires Sensible(h) && !h.session && |refs| <= 8 && TotalBytes(h, refs) <= 1_048_576
    requires forall r :: r in refs ==> PlainText(h, r)
    ensures StatusOf(Captured(h, refs, |refs|)) != Incomplete
    ensures refs != [] && (forall r :: r in refs ==> !r.direct) ==> StatusOf(Captured(h, refs, |refs|)) == Complete
  {
    hide Captured, Capturable, Shots, Bytes, WholeAll, Firsts, AllReadable, TotalBytes, PlainText, Sensible;
    var firsts := Firsts(refs, |refs|);
    CompleteIffCapturable(h, refs, |refs|);
    FirstsArePlain(h, refs);
    FirstsAreFew(h, refs, |refs|);
    assert refs[..|refs|] == refs;
    FewPlainAreCapturable(h, firsts);
    if refs != [] && forall r :: r in refs ==> !r.direct {
      var f := FirstOf(refs, |refs|, 0);
      ShotHasFile(h, firsts, f);
    }
  }

  /** The limits as numbers. */
  lemma CaptureLimits(h: Host, refs: seq<Ref>)
    requires Sensible(h)
    ensures var whole := WholeOnes(Captured(h, refs, |refs|).files);
            |whole| <= 8 && Size(whole) <= 1_048_576
  {
    CaptureIsBounded(h, refs, |refs|);
    hide Captured;
  }
}
